/** Facts about sequences built up part by part, shared by the detector, the generators and the engine. */
module Seqs {

  /** The parts laid end to end, in order. */
  function Concat<T>(parts: seq<seq<T>>): seq<T> {
    if parts == [] then [] else Concat(parts[..|parts| - 1]) + parts[|parts| - 1]
  }

  /** An element of the concatenation is an element of one of the parts. */
  lemma {:induction false} ConcatMembers<T>(parts: seq<seq<T>>, x: T)
    ensures x in Concat(parts) <==> exists j :: 0 <= j < |parts| && x in parts[j]
  {
    if parts != [] {
      var init := parts[..|parts| - 1];
      ConcatMembers(init, x);
      assert forall j :: 0 <= j < |init| ==> init[j] == parts[j];
    }
  }

  /** Appending one more part appends its elements. */
  lemma ConcatSnoc<T>(parts: seq<seq<T>>, x: seq<T>)
    ensures Concat(parts + [x]) == Concat(parts) + x
  {
    assert (parts + [x])[..|parts|] == parts;
  }

  /** Splitting a + [x] + b and gluing it back, with or without x. */
  lemma SplitAt<T>(a: seq<T>, x: T, b: seq<T>)
    ensures (a + [x] + b)[|a|] == x
    ensures (a + [x] + b)[..|a|] + (a + [x] + b)[|a| + 1..] == a + b
  {
    assert (a + [x] + b)[..|a|] == a;
    assert (a + [x] + b)[|a| + 1..] == b;
  }

  /** Appending to an accumulator piece by piece is appending the pieces at once. */
  lemma AppendAssociative<T>(a: seq<T>, b: seq<T>, c: seq<T>)
    ensures a + b + c == a + (b + c)
  {
  }
}
