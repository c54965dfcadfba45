/**
 * The `Move` value: origin and destination squares, the piece moved and the piece
 * captured (both read from the board when the move is built), and the promotion and
 * en-passant flags. Moves compare by their packed `moveID`, and render as a pair of
 * file-and-rank coordinates such as "e2e4".
 */
module Moves {
  import opened Wrappers
  import opened Pieces

  datatype Move = Move(
    startRow: int, startCol: int,
    endRow: int, endCol: int,
    pieceMoved: Piece, pieceCaptured: Piece,
    isPawnPromotion: bool, isEnpassantMove: bool)

  predicate OnBoardMove(m: Move) {
    OnBoard(m.startRow, m.startCol) && OnBoard(m.endRow, m.endCol)
  }

  /** The rank a pawn of colour c promotes on. */
  function PromotionRow(c: Color): int {
    if c == White then 0 else 7
  }

  /**
   * Builds a move from two squares of the current board. A pawn reaching its far rank
   * is flagged as a promotion; an en-passant move records the pawn of the other colour
   * as captured, since the destination square is empty.
   */
  function NewMove(startSq: (int, int), endSq: (int, int), board: Board, enpassantPossible: bool): (m: Move)
    requires OnBoard(startSq.0, startSq.1) && OnBoard(endSq.0, endSq.1)
    ensures OnBoardMove(m)
    ensures (m.startRow, m.startCol) == startSq && (m.endRow, m.endCol) == endSq
    ensures m.pieceMoved == board[startSq.0][startSq.1]
    ensures m.isPawnPromotion <==>
              IsKind(m.pieceMoved, Pawn) && m.endRow == PromotionRow(m.pieceMoved.color)
    ensures m.isEnpassantMove == enpassantPossible
    ensures !enpassantPossible ==> m.pieceCaptured == board[endSq.0][endSq.1]
    ensures enpassantPossible && IsKind(m.pieceMoved, Pawn) ==>
              m.pieceCaptured == Occupied(Opponent(m.pieceMoved.color), Pawn)
  {
    var pieceMoved := board[startSq.0][startSq.1];
    var promotion := (pieceMoved == Occupied(White, Pawn) && endSq.0 == 0)
                     || (pieceMoved == Occupied(Black, Pawn) && endSq.0 == 7);
    var captured := if enpassantPossible then
                      (if pieceMoved == Occupied(Black, Pawn) then Occupied(White, Pawn) else Occupied(Black, Pawn))
                    else board[endSq.0][endSq.1];
    Move(startSq.0, startSq.1, endSq.0, endSq.1, pieceMoved, captured, promotion, enpassantPossible)
  }

  /** The packed identifier the engine compares moves by. */
  function MoveId(m: Move): int {
    m.startRow * 1000 + m.startCol * 100 + m.endRow * 10 + m.endCol
  }

  /** Move equality as the engine defines it: equal packed identifiers. */
  predicate SameMove(a: Move, b: Move) {
    MoveId(a) == MoveId(b)
  }

  /**
   * On the board the packing is injective: two moves are equal exactly when they
   * have the same origin and the same destination (pieces and flags are ignored).
   */
  lemma SameMoveIffSameSquares(a: Move, b: Move)
    requires OnBoardMove(a) && OnBoardMove(b)
    ensures SameMove(a, b) <==>
              (a.startRow, a.startCol, a.endRow, a.endCol) == (b.startRow, b.startCol, b.endRow, b.endCol)
  {
    if SameMove(a, b) {
      PackingInjective(a.startRow - b.startRow, a.startCol - b.startCol, a.endRow - b.endRow, a.endCol - b.endCol);
    }
  }

  /** Differences of digits below 8 pack to zero only when each is zero. */
  lemma PackingInjective(d1: int, d2: int, d3: int, d4: int)
    requires -7 <= d1 <= 7 && -7 <= d2 <= 7 && -7 <= d3 <= 7 && -7 <= d4 <= 7
    requires d1 * 1000 + d2 * 100 + d3 * 10 + d4 == 0
    ensures d1 == 0 && d2 == 0 && d3 == 0 && d4 == 0
  {
  }

  /** The squares of a move: everything its `moveID` encodes. */
  function Squares(m: Move): (int, int, int, int) {
    (m.startRow, m.startCol, m.endRow, m.endCol)
  }

  /** No two positions of the list hold moves with the same squares. */
  predicate DistinctSquares(ms: seq<Move>) {
    forall i, j :: 0 <= i < j < |ms| ==> Squares(ms[i]) != Squares(ms[j])
  }

  /** No two positions of the list hold moves the engine considers equal. */
  predicate NoRepeatedMoves(ms: seq<Move>) {
    forall i, j :: 0 <= i < j < |ms| ==> !SameMove(ms[i], ms[j])
  }

  /** Two lists without repeated squares, and without squares in common, append to one without. */
  lemma DistinctAppend(a: seq<Move>, b: seq<Move>)
    requires DistinctSquares(a) && DistinctSquares(b)
    requires forall x, y :: x in a && y in b ==> Squares(x) != Squares(y)
    ensures DistinctSquares(a + b)
  {
    forall i, j | 0 <= i < j < |a + b| ensures Squares((a + b)[i]) != Squares((a + b)[j]) {
      if j < |a| {
        assert (a + b)[i] == a[i] && (a + b)[j] == a[j];
      } else if i >= |a| {
        assert (a + b)[i] == b[i - |a|] && (a + b)[j] == b[j - |a|];
      } else {
        assert (a + b)[i] in a && (a + b)[j] in b;
      }
    }
  }

  /** On the board, moves with different squares are different moves to the engine. */
  lemma DistinctSquaresNoRepeats(ms: seq<Move>)
    requires forall m :: m in ms ==> OnBoardMove(m)
    requires DistinctSquares(ms)
    ensures NoRepeatedMoves(ms)
  {
    forall i, j | 0 <= i < j < |ms| ensures !SameMove(ms[i], ms[j]) {
      SameMoveIffSameSquares(ms[i], ms[j]);
    }
  }

  /**
   * Python's `list.remove` under the engine's move equality: the first move equal to x
   * is deleted; a list without one is returned as it is.
   */
  function RemoveFirst(ms: seq<Move>, x: Move): (r: seq<Move>)
    ensures (exists k :: 0 <= k < |ms| && SameMove(ms[k], x)) ==> |r| == |ms| - 1
    ensures (forall k :: 0 <= k < |ms| ==> !SameMove(ms[k], x)) ==> r == ms
  {
    if ms == [] then []
    else if SameMove(ms[0], x) then ms[1..]
    else [ms[0]] + RemoveFirst(ms[1..], x)
  }

  /** When no earlier move equals the one at i, removing it deletes exactly position i. */
  lemma {:induction false} RemoveFirstAt(ms: seq<Move>, i: int)
    requires 0 <= i < |ms|
    requires forall k :: 0 <= k < i ==> !SameMove(ms[k], ms[i])
    ensures RemoveFirst(ms, ms[i]) == ms[..i] + ms[i + 1..]
  {
    if i > 0 {
      assert ms[1..][i - 1] == ms[i];
      forall k | 0 <= k < i - 1 ensures !SameMove(ms[1..][k], ms[1..][i - 1]) {
        assert ms[1..][k] == ms[k + 1];
      }
      RemoveFirstAt(ms[1..], i - 1);
      assert ms[1..][..i - 1] == ms[1..i] && ms[1..][i..] == ms[i + 1..];
      assert ms[..i] == [ms[0]] + ms[1..i];
    }
  }

  const RANKS_TO_ROWS: map<char, int> :=
    map['1' := 7, '2' := 6, '3' := 5, '4' := 4, '5' := 3, '6' := 2, '7' := 1, '8' := 0]
  /** The inverse of RANKS_TO_ROWS (see RankTablesInverse). */
  const ROWS_TO_RANKS: map<int, char> :=
    map[7 := '1', 6 := '2', 5 := '3', 4 := '4', 3 := '5', 2 := '6', 1 := '7', 0 := '8']

  const FILES_TO_COLS: map<char, int> :=
    map['a' := 0, 'b' := 1, 'c' := 2, 'd' := 3, 'e' := 4, 'f' := 5, 'g' := 6, 'h' := 7]
  /** The inverse of FILES_TO_COLS (see FileTablesInverse). */
  const COLS_TO_FILES: map<int, char> :=
    map[0 := 'a', 1 := 'b', 2 := 'c', 3 := 'd', 4 := 'e', 5 := 'f', 6 := 'g', 7 := 'h']

  /** The rank tables are inverse to each other, and every row 0..7 has a rank. */
  lemma RankTablesInverse()
    ensures forall k :: k in RANKS_TO_ROWS ==> RANKS_TO_ROWS[k] in ROWS_TO_RANKS && ROWS_TO_RANKS[RANKS_TO_ROWS[k]] == k
    ensures forall r :: r in ROWS_TO_RANKS ==> ROWS_TO_RANKS[r] in RANKS_TO_ROWS && RANKS_TO_ROWS[ROWS_TO_RANKS[r]] == r
    ensures forall r :: r in ROWS_TO_RANKS <==> 0 <= r < 8
  {
  }

  /** The file tables are inverse to each other, and every column 0..7 has a file. */
  lemma FileTablesInverse()
    ensures forall k :: k in FILES_TO_COLS ==> FILES_TO_COLS[k] in COLS_TO_FILES && COLS_TO_FILES[FILES_TO_COLS[k]] == k
    ensures forall c :: c in COLS_TO_FILES ==> COLS_TO_FILES[c] in FILES_TO_COLS && FILES_TO_COLS[COLS_TO_FILES[c]] == c
    ensures forall c :: c in COLS_TO_FILES <==> 0 <= c < 8
  {
  }

  /** File letter then rank digit of a square, e.g. "e2" for (6, 4). */
  function GetRankFile(r: int, c: int): (s: string)
    requires OnBoard(r, c)
    ensures |s| == 2 && ParseSquare(s) == Some((r, c))
  {
    FileTablesInverse();
    RankTablesInverse();
    [COLS_TO_FILES[c], ROWS_TO_RANKS[r]]
  }

  /** Reads a two-letter square name back through the engine's letter-to-index tables. */
  function ParseSquare(s: string): Option<(int, int)> {
    if |s| == 2 && s[0] in FILES_TO_COLS && s[1] in RANKS_TO_ROWS
    then Some((RANKS_TO_ROWS[s[1]], FILES_TO_COLS[s[0]]))
    else None
  }

  /** Origin then destination, e.g. "e2e4". */
  function GetChessNotation(m: Move): (s: string)
    requires OnBoardMove(m)
    ensures |s| == 4
    ensures ParseSquare(s[..2]) == Some((m.startRow, m.startCol))
    ensures ParseSquare(s[2..]) == Some((m.endRow, m.endCol))
  {
    var from, to := GetRankFile(m.startRow, m.startCol), GetRankFile(m.endRow, m.endCol);
    assert (from + to)[..2] == from && (from + to)[2..] == to;
    from + to
  }

  /** Two on-board moves have the same notation exactly when the engine considers them equal. */
  lemma NotationIdentifiesMove(a: Move, b: Move)
    requires OnBoardMove(a) && OnBoardMove(b)
    ensures GetChessNotation(a) == GetChessNotation(b) <==> SameMove(a, b)
  {
    SameMoveIffSameSquares(a, b);
    var sa, sb := GetChessNotation(a), GetChessNotation(b);
    if sa == sb {
      assert sa[..2] == sb[..2] && sa[2..] == sb[2..];
    }
  }
}
