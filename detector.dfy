/**
 * The check and pin detector: from a king square, walk the eight rays outward and
 * test the eight knight offsets, reporting the allied pieces pinned to the king and
 * the enemy pieces giving check. The detector reads the board only; it is a pure
 * function of the board, the king square and the king's colour.
 */
module Detector {
  import opened Wrappers
  import opened Seqs
  import opened Pieces

  /** A pinned allied piece and the direction, from the king, of the ray it is pinned on. */
  datatype Pin = Pin(row: int, col: int, dr: int, dc: int)

  /** A checking enemy piece and the ray direction or knight offset it checks along. */
  datatype Check = Check(row: int, col: int, dr: int, dc: int)

  datatype Detection = Detection(inCheck: bool, pins: seq<Pin>, checks: seq<Check>)

  /** What one ray contributes: nothing, a pin, or a check. */
  datatype RayResult = Clear | Pinned(pin: Pin) | Checked(check: Check)

  /** Ray directions from the king: orthogonal ones at indices 0..3, diagonal ones at 4..7. */
  const DIRECTIONS: seq<(int, int)> :=
    [(-1, 0), (0, -1), (1, 0), (0, 1), (-1, -1), (-1, 1), (1, -1), (1, 1)]

  const KNIGHT_OFFSETS: seq<(int, int)> :=
    [(-2, -1), (-2, 1), (1, -2), (1, 2), (-1, 2), (-1, -2), (2, -1), (2, 1)]

  /** The square at distance i from (kr, kc) on ray j. */
  function RaySquare(kr: int, kc: int, j: int, i: int): (int, int)
    requires 0 <= j < 8
  {
    (kr + DIRECTIONS[j].0 * i, kc + DIRECTIONS[j].1 * i)
  }

  function PinFrom(kr: int, kc: int, j: int, i: int): Pin
    requires 0 <= j < 8
  {
    Pin(RaySquare(kr, kc, j, i).0, RaySquare(kr, kc, j, i).1, DIRECTIONS[j].0, DIRECTIONS[j].1)
  }

  function CheckFrom(kr: int, kc: int, j: int, i: int): Check
    requires 0 <= j < 8
  {
    Check(RaySquare(kr, kc, j, i).0, RaySquare(kr, kc, j, i).1, DIRECTIONS[j].0, DIRECTIONS[j].1)
  }

  function KnightCheckFrom(kr: int, kc: int, m: int): Check
    requires 0 <= m < 8
  {
    Check(kr + KNIGHT_OFFSETS[m].0, kc + KNIGHT_OFFSETS[m].1, KNIGHT_OFFSETS[m].0, KNIGHT_OFFSETS[m].1)
  }

  /**
   * An enemy piece of this kind, found at distance i on ray j, attacks the king:
   * a rook on an orthogonal ray, a bishop on a diagonal one, a queen on any, and a
   * pawn or a king only from the adjacent square (a pawn only on the two diagonals
   * its colour captures along).
   */
  predicate Threatens(kind: Kind, enemy: Color, j: int, i: int) {
    (0 <= j <= 3 && kind == Rook) || (4 <= j <= 7 && kind == Bishop)
    || (i == 1 && kind == Pawn && ((enemy == White && 6 <= j <= 7) || (enemy == Black && 4 <= j <= 5)))
    || kind == Queen || (i == 1 && kind == King)
  }

  /**
   * A geometric description of attack: a piece of this kind and colour, standing
   * where the step (sr, sc) repeated i times from it reaches the king, attacks the king.
   */
  predicate AttacksAlong(kind: Kind, color: Color, sr: int, sc: int, i: int) {
    var orthogonal := (sr == 0) != (sc == 0);
    var diagonal := sr != 0 && sc != 0;
    match kind
    case Rook => orthogonal
    case Bishop => diagonal
    case Queen => orthogonal || diagonal
    case Pawn => i == 1 && diagonal && sr == PawnForward(color)
    case King => i == 1
    case Knight => false
  }

  /** Threatens is exactly "attacks the king from there": the step from the piece to the king is minus the ray direction. */
  lemma ThreatensMeansAttacks(kind: Kind, enemy: Color, j: int, i: int)
    requires 0 <= j < 8 && 1 <= i
    ensures Threatens(kind, enemy, j, i) <==> AttacksAlong(kind, enemy, -DIRECTIONS[j].0, -DIRECTIONS[j].1, i)
  {
  }

  /** Squares the ray scan walks past: empty, or the allied king itself. */
  predicate Transparent(p: Piece, ally: Color) {
    p == Empty || p == Occupied(ally, King)
  }

  /** An allied piece other than the king: the only kind of piece that can be pinned. */
  predicate PinCandidate(p: Piece, ally: Color) {
    HasColor(p, ally) && p.kind != King
  }

  /**
   * The ray scan from distance i on, possiblePin being the allied piece already passed.
   * It stops at the board's edge, at a second allied piece, and at the first enemy.
   */
  function ScanRay(b: Board, kr: int, kc: int, ally: Color, j: int, i: int, possiblePin: Option<Pin>): RayResult
    requires 0 <= j < 8 && 1 <= i <= 8
    decreases 8 - i
  {
    if i == 8 then Clear
    else
      var sq := RaySquare(kr, kc, j, i);
      if !OnBoard(sq.0, sq.1) then Clear
      else
        var p := b[sq.0][sq.1];
        if PinCandidate(p, ally) then
          if possiblePin.None? then ScanRay(b, kr, kc, ally, j, i + 1, Some(PinFrom(kr, kc, j, i)))
          else Clear
        else if HasColor(p, Opponent(ally)) then
          if Threatens(p.kind, Opponent(ally), j, i) then
            if possiblePin.None? then Checked(CheckFrom(kr, kc, j, i)) else Pinned(possiblePin.value)
          else Clear
        else ScanRay(b, kr, kc, ally, j, i + 1, possiblePin)
  }

  /** The outcome of ray j from the king. */
  function RayOutcome(b: Board, kr: int, kc: int, ally: Color, j: int): RayResult
    requires 0 <= j < 8
  {
    ScanRay(b, kr, kc, ally, j, 1, None)
  }

  function PinsOf(r: RayResult): seq<Pin> {
    if r.Pinned? then [r.pin] else []
  }

  function ChecksOf(r: RayResult): seq<Check> {
    if r.Checked? then [r.check] else []
  }

  /** Pins found on rays 0..n-1, in ray order. */
  function RayPins(b: Board, kr: int, kc: int, ally: Color, n: int): seq<Pin>
    requires 0 <= n <= 8
  {
    if n == 0 then []
    else RayPins(b, kr, kc, ally, n - 1)
         + PinsOf(RayOutcome(b, kr, kc, ally, n - 1))
  }

  /** Checks found on rays 0..n-1, in ray order. */
  function RayChecks(b: Board, kr: int, kc: int, ally: Color, n: int): seq<Check>
    requires 0 <= n <= 8
  {
    if n == 0 then []
    else RayChecks(b, kr, kc, ally, n - 1)
         + ChecksOf(RayOutcome(b, kr, kc, ally, n - 1))
  }

  /** There is an enemy knight at knight offset m from (kr, kc). */
  predicate KnightAt(b: Board, kr: int, kc: int, ally: Color, m: int)
    requires 0 <= m < 8
  {
    var sq := (kr + KNIGHT_OFFSETS[m].0, kc + KNIGHT_OFFSETS[m].1);
    OnBoard(sq.0, sq.1) && b[sq.0][sq.1] == Occupied(Opponent(ally), Knight)
  }

  /** Knight checks from offsets 0..n-1, in offset order. */
  function KnightChecks(b: Board, kr: int, kc: int, ally: Color, n: int): seq<Check>
    requires 0 <= n <= 8
  {
    if n == 0 then []
    else KnightChecks(b, kr, kc, ally, n - 1)
         + (if KnightAt(b, kr, kc, ally, n - 1) then [KnightCheckFrom(kr, kc, n - 1)] else [])
  }

  /**
   * The detector's result for a king of colour ally standing at (kr, kc): the pins and
   * checks of the eight rays followed by the knight checks; in check when any check was found.
   */
  function Detect(b: Board, kr: int, kc: int, ally: Color): (d: Detection)
    ensures d.inCheck <==> |d.checks| > 0
    ensures forall c :: c in d.checks ==> OnBoard(c.row, c.col) && HasColor(b[c.row][c.col], Opponent(ally))
    ensures forall p :: p in d.pins ==> OnBoard(p.row, p.col) && PinCandidate(b[p.row][p.col], ally)
  {
    ChecksOnBoard(b, kr, kc, ally);
    PinsOnBoard(b, kr, kc, ally);
    var checks := RayChecks(b, kr, kc, ally, 8) + KnightChecks(b, kr, kc, ally, 8);
    Detection(checks != [], RayPins(b, kr, kc, ally, 8), checks)
  }

  /** Would a king of colour ally be in check on (r, c)? The probe used for king moves. */
  predicate InCheckAt(b: Board, r: int, c: int, ally: Color) {
    Detect(b, r, c, ally).inCheck
  }

  // ---------------------------------------------------------------------------
  // The ray scan, described declaratively.

  predicate TransparentAt(b: Board, kr: int, kc: int, ally: Color, j: int, k: int)
    requires 0 <= j < 8
  {
    var sq := RaySquare(kr, kc, j, k);
    OnBoard(sq.0, sq.1) && Transparent(b[sq.0][sq.1], ally)
  }

  /** Every square at distance lo..hi-1 on ray j is on the board and transparent. */
  predicate ClearRun(b: Board, kr: int, kc: int, ally: Color, j: int, lo: int, hi: int)
    requires 0 <= j < 8
  {
    forall k :: lo <= k < hi ==> TransparentAt(b, kr, kc, ally, j, k)
  }

  /** At distance i on ray j stands an enemy that attacks the king along that ray. */
  predicate AttackerAt(b: Board, kr: int, kc: int, ally: Color, j: int, i: int)
    requires 0 <= j < 8
  {
    var sq := RaySquare(kr, kc, j, i);
    OnBoard(sq.0, sq.1) && HasColor(b[sq.0][sq.1], Opponent(ally))
    && Threatens(b[sq.0][sq.1].kind, Opponent(ally), j, i)
  }

  predicate CandidateAt(b: Board, kr: int, kc: int, ally: Color, j: int, i: int)
    requires 0 <= j < 8
  {
    var sq := RaySquare(kr, kc, j, i);
    OnBoard(sq.0, sq.1) && PinCandidate(b[sq.0][sq.1], ally)
  }

  /** Ray j holds a checking attacker at distance i with nothing but transparent squares before it. */
  predicate RayCheckAt(b: Board, kr: int, kc: int, ally: Color, j: int, i: int)
    requires 0 <= j < 8
  {
    1 <= i < 8 && ClearRun(b, kr, kc, ally, j, 1, i) && AttackerAt(b, kr, kc, ally, j, i)
  }

  /** Ray j holds exactly one allied piece, at distance i1, between the king and an attacker at i2. */
  predicate RayPinAt(b: Board, kr: int, kc: int, ally: Color, j: int, i1: int, i2: int)
    requires 0 <= j < 8
  {
    1 <= i1 < i2 < 8 && ClearRun(b, kr, kc, ally, j, 1, i1) && CandidateAt(b, kr, kc, ally, j, i1)
    && ClearRun(b, kr, kc, ally, j, i1 + 1, i2) && AttackerAt(b, kr, kc, ally, j, i2)
  }

  /** The scan walks over transparent squares without changing its outcome. */
  lemma {:induction false} ScanSkipsClear(b: Board, kr: int, kc: int, ally: Color, j: int, lo: int, hi: int, pp: Option<Pin>)
    requires 0 <= j < 8 && 1 <= lo <= hi < 8
    requires ClearRun(b, kr, kc, ally, j, lo, hi)
    ensures ScanRay(b, kr, kc, ally, j, lo, pp) == ScanRay(b, kr, kc, ally, j, hi, pp)
    decreases hi - lo
  {
    if lo < hi {
      assert TransparentAt(b, kr, kc, ally, j, lo);
      ScanSkipsClear(b, kr, kc, ally, j, lo + 1, hi, pp);
    }
  }

  /** Check rule, completeness: an unobstructed attacker gives a check. */
  lemma RayCheckFound(b: Board, kr: int, kc: int, ally: Color, j: int, i: int)
    requires 0 <= j < 8 && RayCheckAt(b, kr, kc, ally, j, i)
    ensures ScanRay(b, kr, kc, ally, j, 1, None) == Checked(CheckFrom(kr, kc, j, i))
  {
    ScanSkipsClear(b, kr, kc, ally, j, 1, i, None);
  }

  /** Pin rule, completeness: a lone allied piece before an attacker is pinned. */
  lemma RayPinFound(b: Board, kr: int, kc: int, ally: Color, j: int, i1: int, i2: int)
    requires 0 <= j < 8 && RayPinAt(b, kr, kc, ally, j, i1, i2)
    ensures ScanRay(b, kr, kc, ally, j, 1, None) == Pinned(PinFrom(kr, kc, j, i1))
  {
    ScanSkipsClear(b, kr, kc, ally, j, 1, i1, None);
    ScanSkipsClear(b, kr, kc, ally, j, i1 + 1, i2, Some(PinFrom(kr, kc, j, i1)));
  }

  /** Soundness of the scan once an allied piece has been passed: only a pin of that piece can result. */
  lemma {:induction false} ScanAfterCandidate(b: Board, kr: int, kc: int, ally: Color, j: int, i0: int, q: Pin)
    requires 0 <= j < 8 && 1 <= i0 <= 8
    ensures !ScanRay(b, kr, kc, ally, j, i0, Some(q)).Checked?
    ensures ScanRay(b, kr, kc, ally, j, i0, Some(q)).Pinned? ==>
              ScanRay(b, kr, kc, ally, j, i0, Some(q)).pin == q
              && exists i2 :: i0 <= i2 < 8 && ClearRun(b, kr, kc, ally, j, i0, i2) && AttackerAt(b, kr, kc, ally, j, i2)
    decreases 8 - i0
  {
    if i0 < 8 {
      var sq := RaySquare(kr, kc, j, i0);
      if OnBoard(sq.0, sq.1) {
        var p := b[sq.0][sq.1];
        if !PinCandidate(p, ally) && !HasColor(p, Opponent(ally)) {
          ScanAfterCandidate(b, kr, kc, ally, j, i0 + 1, q);
          if ScanRay(b, kr, kc, ally, j, i0, Some(q)).Pinned? {
            var i2 :| i0 + 1 <= i2 < 8 && ClearRun(b, kr, kc, ally, j, i0 + 1, i2) && AttackerAt(b, kr, kc, ally, j, i2);
            assert TransparentAt(b, kr, kc, ally, j, i0);
            assert ClearRun(b, kr, kc, ally, j, i0, i2);
          }
        } else if HasColor(p, Opponent(ally)) {
          assert ClearRun(b, kr, kc, ally, j, i0, i0);
        }
      }
    }
  }

  /** Soundness of the scan with no allied piece passed yet. */
  lemma {:induction false} ScanFromStart(b: Board, kr: int, kc: int, ally: Color, j: int, i0: int)
    requires 0 <= j < 8 && 1 <= i0 <= 8
    ensures ScanRay(b, kr, kc, ally, j, i0, None).Checked? ==>
              exists i :: i0 <= i < 8 && ClearRun(b, kr, kc, ally, j, i0, i) && AttackerAt(b, kr, kc, ally, j, i)
                          && ScanRay(b, kr, kc, ally, j, i0, None).check == CheckFrom(kr, kc, j, i)
    ensures ScanRay(b, kr, kc, ally, j, i0, None).Pinned? ==>
              exists i1, i2 :: i0 <= i1 < i2 < 8 && ClearRun(b, kr, kc, ally, j, i0, i1)
                               && CandidateAt(b, kr, kc, ally, j, i1)
                               && ClearRun(b, kr, kc, ally, j, i1 + 1, i2) && AttackerAt(b, kr, kc, ally, j, i2)
                               && ScanRay(b, kr, kc, ally, j, i0, None).pin == PinFrom(kr, kc, j, i1)
    decreases 8 - i0
  {
    if i0 < 8 {
      var sq := RaySquare(kr, kc, j, i0);
      if OnBoard(sq.0, sq.1) {
        var p := b[sq.0][sq.1];
        var r := ScanRay(b, kr, kc, ally, j, i0, None);
        if PinCandidate(p, ally) {
          var q := PinFrom(kr, kc, j, i0);
          ScanAfterCandidate(b, kr, kc, ally, j, i0 + 1, q);
          if r.Pinned? {
            var i2 :| i0 + 1 <= i2 < 8 && ClearRun(b, kr, kc, ally, j, i0 + 1, i2) && AttackerAt(b, kr, kc, ally, j, i2);
            assert ClearRun(b, kr, kc, ally, j, i0, i0);
            assert CandidateAt(b, kr, kc, ally, j, i0);
          }
        } else if HasColor(p, Opponent(ally)) {
          assert ClearRun(b, kr, kc, ally, j, i0, i0);
        } else {
          ScanFromStart(b, kr, kc, ally, j, i0 + 1);
          assert TransparentAt(b, kr, kc, ally, j, i0);
          if r.Checked? {
            var i :| i0 + 1 <= i < 8 && ClearRun(b, kr, kc, ally, j, i0 + 1, i) && AttackerAt(b, kr, kc, ally, j, i)
                     && r.check == CheckFrom(kr, kc, j, i);
            assert ClearRun(b, kr, kc, ally, j, i0, i);
          }
          if r.Pinned? {
            var i1, i2 :| i0 + 1 <= i1 < i2 < 8 && ClearRun(b, kr, kc, ally, j, i0 + 1, i1)
                          && CandidateAt(b, kr, kc, ally, j, i1)
                          && ClearRun(b, kr, kc, ally, j, i1 + 1, i2) && AttackerAt(b, kr, kc, ally, j, i2)
                          && r.pin == PinFrom(kr, kc, j, i1);
            assert ClearRun(b, kr, kc, ally, j, i0, i1);
          }
        }
      }
    }
  }

  /** Check rule, soundness: a ray reports a check only from an unobstructed attacker. */
  lemma RayCheckSound(b: Board, kr: int, kc: int, ally: Color, j: int)
    requires 0 <= j < 8 && ScanRay(b, kr, kc, ally, j, 1, None).Checked?
    ensures exists i :: RayCheckAt(b, kr, kc, ally, j, i)
                        && ScanRay(b, kr, kc, ally, j, 1, None).check == CheckFrom(kr, kc, j, i)
  {
    ScanFromStart(b, kr, kc, ally, j, 1);
  }

  /** Pin rule, soundness: a ray reports a pin only of a lone allied piece before an attacker. */
  lemma RayPinSound(b: Board, kr: int, kc: int, ally: Color, j: int)
    requires 0 <= j < 8 && ScanRay(b, kr, kc, ally, j, 1, None).Pinned?
    ensures exists i1, i2 :: RayPinAt(b, kr, kc, ally, j, i1, i2)
                             && ScanRay(b, kr, kc, ally, j, 1, None).pin == PinFrom(kr, kc, j, i1)
  {
    ScanFromStart(b, kr, kc, ally, j, 1);
    var i1, i2 :| 1 <= i1 < i2 < 8 && ClearRun(b, kr, kc, ally, j, 1, i1)
                  && CandidateAt(b, kr, kc, ally, j, i1)
                  && ClearRun(b, kr, kc, ally, j, i1 + 1, i2) && AttackerAt(b, kr, kc, ally, j, i2)
                  && ScanRay(b, kr, kc, ally, j, 1, None).pin == PinFrom(kr, kc, j, i1);
    assert RayPinAt(b, kr, kc, ally, j, i1, i2);
  }

  // ---------------------------------------------------------------------------
  // The collected pins and checks.

  /** The pins of rays 0..n-1, one part per ray. */
  function RayPinParts(b: Board, kr: int, kc: int, ally: Color, n: int): (ls: seq<seq<Pin>>)
    requires 0 <= n <= 8
    ensures |ls| == n && forall j :: 0 <= j < n ==> ls[j] == PinsOf(RayOutcome(b, kr, kc, ally, j))
  {
    if n == 0 then [] else RayPinParts(b, kr, kc, ally, n - 1) + [PinsOf(RayOutcome(b, kr, kc, ally, n - 1))]
  }

  /** The checks of rays 0..n-1, one part per ray. */
  function RayCheckParts(b: Board, kr: int, kc: int, ally: Color, n: int): (ls: seq<seq<Check>>)
    requires 0 <= n <= 8
    ensures |ls| == n && forall j :: 0 <= j < n ==> ls[j] == ChecksOf(RayOutcome(b, kr, kc, ally, j))
  {
    if n == 0 then [] else RayCheckParts(b, kr, kc, ally, n - 1) + [ChecksOf(RayOutcome(b, kr, kc, ally, n - 1))]
  }

  lemma {:induction false} RayPinsConcat(b: Board, kr: int, kc: int, ally: Color, n: int)
    requires 0 <= n <= 8
    ensures RayPins(b, kr, kc, ally, n) == Concat(RayPinParts(b, kr, kc, ally, n))
  {
    if n > 0 {
      RayPinsConcat(b, kr, kc, ally, n - 1);
      ConcatSnoc(RayPinParts(b, kr, kc, ally, n - 1), PinsOf(RayOutcome(b, kr, kc, ally, n - 1)));
    }
  }

  lemma {:induction false} RayChecksConcat(b: Board, kr: int, kc: int, ally: Color, n: int)
    requires 0 <= n <= 8
    ensures RayChecks(b, kr, kc, ally, n) == Concat(RayCheckParts(b, kr, kc, ally, n))
  {
    if n > 0 {
      RayChecksConcat(b, kr, kc, ally, n - 1);
      ConcatSnoc(RayCheckParts(b, kr, kc, ally, n - 1), ChecksOf(RayOutcome(b, kr, kc, ally, n - 1)));
    }
  }

  lemma RayPinsMembers(b: Board, kr: int, kc: int, ally: Color, n: int, p: Pin)
    requires 0 <= n <= 8
    ensures p in RayPins(b, kr, kc, ally, n) <==>
              exists j :: 0 <= j < n && RayOutcome(b, kr, kc, ally, j) == Pinned(p)
  {
    RayPinsConcat(b, kr, kc, ally, n);
    ConcatMembers(RayPinParts(b, kr, kc, ally, n), p);
  }

  lemma RayChecksMembers(b: Board, kr: int, kc: int, ally: Color, n: int, c: Check)
    requires 0 <= n <= 8
    ensures c in RayChecks(b, kr, kc, ally, n) <==>
              exists j :: 0 <= j < n && RayOutcome(b, kr, kc, ally, j) == Checked(c)
  {
    RayChecksConcat(b, kr, kc, ally, n);
    ConcatMembers(RayCheckParts(b, kr, kc, ally, n), c);
  }

  lemma {:induction false} KnightChecksMembers(b: Board, kr: int, kc: int, ally: Color, n: int, c: Check)
    requires 0 <= n <= 8
    ensures c in KnightChecks(b, kr, kc, ally, n) <==>
              exists m :: 0 <= m < n && KnightAt(b, kr, kc, ally, m) && c == KnightCheckFrom(kr, kc, m)
  {
    if n > 0 {
      KnightChecksMembers(b, kr, kc, ally, n - 1, c);
    }
  }

  /** A ray result's square is on the board and holds the piece the rule names. */
  lemma RayResultOnBoard(b: Board, kr: int, kc: int, ally: Color, j: int)
    requires 0 <= j < 8
    ensures var r := ScanRay(b, kr, kc, ally, j, 1, None);
      && (r.Checked? ==> OnBoard(r.check.row, r.check.col) && HasColor(b[r.check.row][r.check.col], Opponent(ally)))
      && (r.Pinned? ==> OnBoard(r.pin.row, r.pin.col) && PinCandidate(b[r.pin.row][r.pin.col], ally))
  {
    var r := ScanRay(b, kr, kc, ally, j, 1, None);
    if r.Checked? {
      RayCheckSound(b, kr, kc, ally, j);
    }
    if r.Pinned? {
      RayPinSound(b, kr, kc, ally, j);
    }
  }

  lemma ChecksOnBoard(b: Board, kr: int, kc: int, ally: Color)
    ensures forall c :: c in RayChecks(b, kr, kc, ally, 8) + KnightChecks(b, kr, kc, ally, 8) ==>
              OnBoard(c.row, c.col) && HasColor(b[c.row][c.col], Opponent(ally))
  {
    forall c | c in RayChecks(b, kr, kc, ally, 8) + KnightChecks(b, kr, kc, ally, 8)
      ensures OnBoard(c.row, c.col) && HasColor(b[c.row][c.col], Opponent(ally))
    {
      if c in RayChecks(b, kr, kc, ally, 8) {
        RayChecksMembers(b, kr, kc, ally, 8, c);
        var j :| 0 <= j < 8 && RayOutcome(b, kr, kc, ally, j) == Checked(c);
        RayResultOnBoard(b, kr, kc, ally, j);
      } else {
        KnightChecksMembers(b, kr, kc, ally, 8, c);
      }
    }
  }

  lemma PinsOnBoard(b: Board, kr: int, kc: int, ally: Color)
    ensures forall p :: p in RayPins(b, kr, kc, ally, 8) ==>
              OnBoard(p.row, p.col) && PinCandidate(b[p.row][p.col], ally)
  {
    forall p | p in RayPins(b, kr, kc, ally, 8)
      ensures OnBoard(p.row, p.col) && PinCandidate(b[p.row][p.col], ally)
    {
      RayPinsMembers(b, kr, kc, ally, 8, p);
      var j :| 0 <= j < 8 && RayOutcome(b, kr, kc, ally, j) == Pinned(p);
      RayResultOnBoard(b, kr, kc, ally, j);
    }
  }

  // ---------------------------------------------------------------------------
  // The detector as a whole: its checks are exactly the unobstructed ray attackers and
  // the enemy knights, and its pins exactly the lone allied pieces in front of an attacker.

  /** Check rule, for the whole detector: every unobstructed ray attacker is reported as a check. */
  lemma DetectReportsRayChecks(b: Board, kr: int, kc: int, ally: Color, j: int, i: int)
    requires 0 <= j < 8 && RayCheckAt(b, kr, kc, ally, j, i)
    ensures CheckFrom(kr, kc, j, i) in Detect(b, kr, kc, ally).checks
    ensures Detect(b, kr, kc, ally).inCheck
  {
    RayCheckFound(b, kr, kc, ally, j, i);
    assert RayOutcome(b, kr, kc, ally, j) == Checked(CheckFrom(kr, kc, j, i));
    RayChecksMembers(b, kr, kc, ally, 8, CheckFrom(kr, kc, j, i));
  }

  /** Pin rule, for the whole detector: every lone allied piece in front of an attacker is reported as pinned. */
  lemma DetectReportsPins(b: Board, kr: int, kc: int, ally: Color, j: int, i1: int, i2: int)
    requires 0 <= j < 8 && RayPinAt(b, kr, kc, ally, j, i1, i2)
    ensures PinFrom(kr, kc, j, i1) in Detect(b, kr, kc, ally).pins
  {
    RayPinFound(b, kr, kc, ally, j, i1, i2);
    assert RayOutcome(b, kr, kc, ally, j) == Pinned(PinFrom(kr, kc, j, i1));
    RayPinsMembers(b, kr, kc, ally, 8, PinFrom(kr, kc, j, i1));
  }

  /** Knight rule: an enemy knight at a knight offset is a check whatever stands around it. */
  lemma DetectReportsKnights(b: Board, kr: int, kc: int, ally: Color, m: int)
    requires 0 <= m < 8 && KnightAt(b, kr, kc, ally, m)
    ensures KnightCheckFrom(kr, kc, m) in Detect(b, kr, kc, ally).checks
    ensures Detect(b, kr, kc, ally).inCheck
  {
    KnightChecksMembers(b, kr, kc, ally, 8, KnightCheckFrom(kr, kc, m));
  }

  /**
   * Nothing else is reported: a check is an unobstructed ray attacker (never a knight)
   * or an enemy knight at a knight offset; a pin is a lone allied piece in front of an
   * attacker on a ray.
   */
  lemma DetectSound(b: Board, kr: int, kc: int, ally: Color)
    ensures forall c :: c in Detect(b, kr, kc, ally).checks ==>
              (exists j, i :: 0 <= j < 8 && RayCheckAt(b, kr, kc, ally, j, i) && c == CheckFrom(kr, kc, j, i)
                              && b[c.row][c.col].kind != Knight)
              || (exists m :: 0 <= m < 8 && KnightAt(b, kr, kc, ally, m) && c == KnightCheckFrom(kr, kc, m))
    ensures forall p :: p in Detect(b, kr, kc, ally).pins ==>
              exists j, i1, i2 :: 0 <= j < 8 && RayPinAt(b, kr, kc, ally, j, i1, i2) && p == PinFrom(kr, kc, j, i1)
  {
    var d := Detect(b, kr, kc, ally);
    forall c | c in d.checks
      ensures (exists j, i :: 0 <= j < 8 && RayCheckAt(b, kr, kc, ally, j, i) && c == CheckFrom(kr, kc, j, i)
                              && b[c.row][c.col].kind != Knight)
              || (exists m :: 0 <= m < 8 && KnightAt(b, kr, kc, ally, m) && c == KnightCheckFrom(kr, kc, m))
    {
      if c in RayChecks(b, kr, kc, ally, 8) {
        RayChecksMembers(b, kr, kc, ally, 8, c);
        var j :| 0 <= j < 8 && RayOutcome(b, kr, kc, ally, j) == Checked(c);
        RayCheckSound(b, kr, kc, ally, j);
        var i :| RayCheckAt(b, kr, kc, ally, j, i) && c == CheckFrom(kr, kc, j, i);
        assert AttackerAt(b, kr, kc, ally, j, i);
      } else {
        KnightChecksMembers(b, kr, kc, ally, 8, c);
      }
    }
    forall p | p in d.pins
      ensures exists j, i1, i2 :: 0 <= j < 8 && RayPinAt(b, kr, kc, ally, j, i1, i2) && p == PinFrom(kr, kc, j, i1)
    {
      RayPinsMembers(b, kr, kc, ally, 8, p);
      var j :| 0 <= j < 8 && RayOutcome(b, kr, kc, ally, j) == Pinned(p);
      RayPinSound(b, kr, kc, ally, j);
    }
  }
}
