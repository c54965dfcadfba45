/**
 * The game state as a value, and the effect of the engine's `makeMove` and `undo` on it.
 * The class `Engine.GameState` holds the same fields and its methods are specified by
 * AfterMove and AfterUndo.
 */
module Position {
  import opened Wrappers
  import opened Pieces
  import opened Moves

  datatype State = State(
    board: Board,
    whiteToMove: bool,
    whiteKingLocation: (int, int),
    blackKingLocation: (int, int),
    movelog: seq<Move>,
    enpassantPossible: Option<(int, int)>)

  /** The cached square of the king whose side is to move. */
  function KingLocation(s: State): (int, int) {
    if s.whiteToMove then s.whiteKingLocation else s.blackKingLocation
  }

  function Abs(x: int): nat {
    if x < 0 then -x else x
  }

  /** A move `makeMove` can apply: both squares on the board, and only a piece flagged as promoting has a colour. */
  predicate Applicable(m: Move) {
    OnBoardMove(m) && (m.isPawnPromotion ==> m.pieceMoved.Occupied?)
  }

  /** What the engine's state always satisfies: both cached king squares on the board, every logged move applicable. */
  predicate Coherent(s: State) {
    OnBoard(s.whiteKingLocation.0, s.whiteKingLocation.1)
    && OnBoard(s.blackKingLocation.0, s.blackKingLocation.1)
    && forall i :: 0 <= i < |s.movelog| ==> Applicable(s.movelog[i])
  }

  /** The king-location cache agrees with the board: each cached square is the one square holding that king. */
  ghost predicate KingsConsistent(b: Board, wk: (int, int), bk: (int, int)) {
    forall r, c :: OnBoard(r, c) ==>
      (b[r][c] == Occupied(White, King) <==> (r, c) == wk)
      && (b[r][c] == Occupied(Black, King) <==> (r, c) == bk)
  }

  /** A pawn move of two ranks: the only move after which en passant is possible. */
  predicate IsDoublePush(m: Move) {
    IsKind(m.pieceMoved, Pawn) && Abs(m.startRow - m.endRow) == 2
  }

  /**
   * The state after `makeMove(m)`: the moved piece leaves its origin for the destination,
   * the move is logged, the side to move flips and a moving king updates its cache; a
   * promoting pawn becomes a queen, a two-rank pawn move sets the en-passant target to the
   * square passed over (any other move clears it), and an en-passant capture also empties
   * the captured pawn's square, beside the origin on the origin's rank.
   */
  function AfterMove(s: State, m: Move): (t: State)
    requires Applicable(m)
    ensures t.movelog == s.movelog + [m] && t.whiteToMove == !s.whiteToMove
    ensures t.whiteKingLocation == if m.pieceMoved == Occupied(White, King) then (m.endRow, m.endCol) else s.whiteKingLocation
    ensures t.blackKingLocation == if m.pieceMoved == Occupied(Black, King) then (m.endRow, m.endCol) else s.blackKingLocation
    ensures t.enpassantPossible.Some? <==> IsDoublePush(m)
    ensures IsDoublePush(m) ==>
              2 * t.enpassantPossible.value.0 == m.startRow + m.endRow && t.enpassantPossible.value.1 == m.endCol
    ensures m.isEnpassantMove ==> t.board[m.startRow][m.endCol] == Empty
    ensures (m.isEnpassantMove ==> m.startRow != m.endRow) ==>
              t.board[m.endRow][m.endCol] ==
                (if m.isPawnPromotion then Occupied(m.pieceMoved.color, Queen) else m.pieceMoved)
    ensures (m.startRow, m.startCol) != (m.endRow, m.endCol) ==> t.board[m.startRow][m.startCol] == Empty
    ensures forall r, c :: OnBoard(r, c) && (r, c) != (m.startRow, m.startCol) && (r, c) != (m.endRow, m.endCol)
                           && (m.isEnpassantMove ==> (r, c) != (m.startRow, m.endCol)) ==>
              t.board[r][c] == s.board[r][c]
  {
    var b1 := Put(Put(s.board, m.startRow, m.startCol, Empty), m.endRow, m.endCol, m.pieceMoved);
    var wk := if m.pieceMoved == Occupied(White, King) then (m.endRow, m.endCol) else s.whiteKingLocation;
    var bk := if m.pieceMoved == Occupied(Black, King) then (m.endRow, m.endCol) else s.blackKingLocation;
    var b2 := if m.isPawnPromotion then Put(b1, m.endRow, m.endCol, Occupied(m.pieceMoved.color, Queen)) else b1;
    var ep := if IsDoublePush(m) then Some(((m.startRow + m.endRow) / 2, m.endCol)) else None;
    var b3 := if m.isEnpassantMove then Put(b2, m.startRow, m.endCol, Empty) else b2;
    State(b3, !s.whiteToMove, wk, bk, s.movelog + [m], ep)
  }

  /**
   * The state after `undo()`: with an empty log nothing changes; otherwise the last move
   * is popped, its origin gets the moved piece back and its destination the captured
   * piece, the side to move flips back and a king's cache returns to the origin. Undoing
   * an en-passant capture empties the destination, puts the pawn back beside the origin
   * and sets the en-passant target to the destination; undoing a two-rank pawn move
   * clears the target; any other undo leaves the target as it is.
   */
  function AfterUndo(s: State): (t: State)
    requires s.movelog != [] ==> OnBoardMove(s.movelog[|s.movelog| - 1])
    ensures s.movelog == [] ==> t == s
    ensures s.movelog != [] ==> t.movelog == s.movelog[..|s.movelog| - 1] && t.whiteToMove == !s.whiteToMove
    ensures s.movelog != [] ==> var m := s.movelog[|s.movelog| - 1];
              && t.whiteKingLocation == (if m.pieceMoved == Occupied(White, King) then (m.startRow, m.startCol) else s.whiteKingLocation)
              && t.blackKingLocation == (if m.pieceMoved == Occupied(Black, King) then (m.startRow, m.startCol) else s.blackKingLocation)
  {
    if s.movelog == [] then s
    else
      var m := s.movelog[|s.movelog| - 1];
      var b1 := Put(Put(s.board, m.startRow, m.startCol, m.pieceMoved), m.endRow, m.endCol, m.pieceCaptured);
      var wk := if m.pieceMoved == Occupied(White, King) then (m.startRow, m.startCol) else s.whiteKingLocation;
      var bk := if m.pieceMoved == Occupied(Black, King) then (m.startRow, m.startCol) else s.blackKingLocation;
      var b2 := if m.isEnpassantMove
                then Put(Put(b1, m.endRow, m.endCol, Empty), m.startRow, m.endCol, m.pieceCaptured)
                else b1;
      var ep1 := if m.isEnpassantMove then Some((m.endRow, m.endCol)) else s.enpassantPossible;
      var ep2 := if IsDoublePush(m) then None else ep1;
      State(b2, !s.whiteToMove, wk, bk, s.movelog[..|s.movelog| - 1], ep2)
  }

  /** `makeMove` keeps the state coherent. */
  lemma MoveKeepsCoherent(s: State, m: Move)
    requires Coherent(s) && Applicable(m)
    ensures Coherent(AfterMove(s, m))
  {
    var t := AfterMove(s, m);
    assert forall i :: 0 <= i < |t.movelog| ==> t.movelog[i] == if i < |s.movelog| then s.movelog[i] else m;
  }

  /** `undo` keeps the state coherent. */
  lemma UndoKeepsCoherent(s: State)
    requires Coherent(s)
    ensures Coherent(AfterUndo(s))
  {
  }

  /** A move as the generator builds it from the board of s, without the en-passant flag. */
  predicate BuiltFrom(s: State, m: Move) {
    OnBoardMove(m)
    && m.pieceMoved == s.board[m.startRow][m.startCol]
    && m.pieceCaptured == s.board[m.endRow][m.endCol]
    && (m.isPawnPromotion ==> m.pieceMoved.Occupied?)
  }

  /**
   * Reversibility: undoing a move built from the current board restores the board, the
   * side to move, both king caches and the log, provided a moving king stood on its
   * cached square. (The en-passant target is the subject of UndoEnPassantTarget.)
   */
  lemma UndoAfterMove(s: State, m: Move)
    requires BuiltFrom(s, m) && !m.isEnpassantMove
    requires m.pieceMoved == Occupied(White, King) ==> s.whiteKingLocation == (m.startRow, m.startCol)
    requires m.pieceMoved == Occupied(Black, King) ==> s.blackKingLocation == (m.startRow, m.startCol)
    ensures var t := AfterUndo(AfterMove(s, m));
      t.board == s.board && t.whiteToMove == s.whiteToMove
      && t.whiteKingLocation == s.whiteKingLocation && t.blackKingLocation == s.blackKingLocation
      && t.movelog == s.movelog
  {
    var u := AfterMove(s, m);
    assert u.movelog[|u.movelog| - 1] == m;
    assert u.movelog[..|u.movelog| - 1] == s.movelog;
    var t := AfterUndo(u);
    forall r, c | OnBoard(r, c) ensures t.board[r][c] == s.board[r][c] {
    }
    BoardExtensionality(t.board, s.board);
  }

  /**
   * Undoing an en-passant capture generated from s (onto the target square, which is
   * empty, capturing the pawn beside the origin) restores the whole state, the
   * en-passant target included.
   */
  lemma UndoAfterEnPassant(s: State, m: Move)
    requires OnBoardMove(m) && m.isEnpassantMove && !m.isPawnPromotion
    requires m.endRow == m.startRow + 1 || m.endRow == m.startRow - 1
    requires m.endCol != m.startCol
    requires m.pieceMoved == s.board[m.startRow][m.startCol] && !IsKind(m.pieceMoved, King)
    requires s.board[m.endRow][m.endCol] == Empty
    requires m.pieceCaptured == s.board[m.startRow][m.endCol]
    requires s.enpassantPossible == Some((m.endRow, m.endCol))
    ensures AfterUndo(AfterMove(s, m)) == s
  {
    var u := AfterMove(s, m);
    assert u.movelog[|u.movelog| - 1] == m;
    assert u.movelog[..|u.movelog| - 1] == s.movelog;
    var t := AfterUndo(u);
    forall r, c | OnBoard(r, c) ensures t.board[r][c] == s.board[r][c] {
    }
    BoardExtensionality(t.board, s.board);
  }

  /**
   * The en-passant target after a move and its undo, as the engine computes it: the
   * destination after an en-passant capture, nothing otherwise. It is therefore restored
   * only when the target before the move was exactly that.
   */
  lemma UndoEnPassantTarget(s: State, m: Move)
    requires Applicable(m)
    ensures AfterUndo(AfterMove(s, m)).enpassantPossible ==
              if m.isEnpassantMove && !IsDoublePush(m) then Some((m.endRow, m.endCol)) else None
  {
    var u := AfterMove(s, m);
    assert u.movelog[|u.movelog| - 1] == m;
  }

  /** A concrete case: a quiet move made while a target was set leaves the target cleared after undo. */
  lemma UndoLosesEnPassantTarget(s: State, m: Move)
    requires Applicable(m) && !m.isEnpassantMove && s.enpassantPossible.Some?
    ensures AfterUndo(AfterMove(s, m)).enpassantPossible != s.enpassantPossible
  {
    UndoEnPassantTarget(s, m);
  }

  /** A pawn reaching its far rank is flagged as promoting and leaves a queen of its colour there. */
  lemma PromotionMakesQueen(s: State, startSq: (int, int), endSq: (int, int), color: Color)
    requires OnBoard(startSq.0, startSq.1) && OnBoard(endSq.0, endSq.1)
    requires s.board[startSq.0][startSq.1] == Occupied(color, Pawn)
    requires endSq.0 == PromotionRow(color)
    ensures NewMove(startSq, endSq, s.board, false).isPawnPromotion
    ensures AfterMove(s, NewMove(startSq, endSq, s.board, false)).board[endSq.0][endSq.1] == Occupied(color, Queen)
  {
  }

  /**
   * An en-passant capture built by the generator records the enemy pawn as captured and,
   * once made, empties that pawn's square beside the origin while the capturing pawn
   * lands on the (empty) destination.
   */
  lemma EnPassantCapture(s: State, startSq: (int, int), endSq: (int, int), color: Color)
    requires OnBoard(startSq.0, startSq.1) && OnBoard(endSq.0, endSq.1)
    requires s.board[startSq.0][startSq.1] == Occupied(color, Pawn)
    requires endSq.0 == startSq.0 + PawnForward(color) && endSq.0 != PromotionRow(color)
    ensures NewMove(startSq, endSq, s.board, true).pieceCaptured == Occupied(Opponent(color), Pawn)
    ensures AfterMove(s, NewMove(startSq, endSq, s.board, true)).board[startSq.0][endSq.1] == Empty
    ensures AfterMove(s, NewMove(startSq, endSq, s.board, true)).board[endSq.0][endSq.1] == Occupied(color, Pawn)
  {
  }

  /**
   * The cache invariant is kept by every move that captures no king: a moving king takes
   * its cache along, and no other move touches a king's square.
   */
  lemma AfterMoveKeepsKings(s: State, m: Move)
    requires Applicable(m) && m.pieceMoved == s.board[m.startRow][m.startCol]
    requires KingsConsistent(s.board, s.whiteKingLocation, s.blackKingLocation)
    requires (m.startRow, m.startCol) != (m.endRow, m.endCol)
    requires !IsKind(s.board[m.endRow][m.endCol], King)
    requires m.isPawnPromotion ==> IsKind(m.pieceMoved, Pawn)
    requires m.isEnpassantMove ==> m.startRow != m.endRow && !IsKind(s.board[m.startRow][m.endCol], King)
    ensures var t := AfterMove(s, m); KingsConsistent(t.board, t.whiteKingLocation, t.blackKingLocation)
  {
    var t := AfterMove(s, m);
    forall r, c | OnBoard(r, c)
      ensures (t.board[r][c] == Occupied(White, King) <==> (r, c) == t.whiteKingLocation)
      ensures (t.board[r][c] == Occupied(Black, King) <==> (r, c) == t.blackKingLocation)
    {
      if (r, c) == (m.startRow, m.startCol) {
      } else if (r, c) == (m.endRow, m.endCol) {
      } else if m.isEnpassantMove && (r, c) == (m.startRow, m.endCol) {
      } else {
        assert t.board[r][c] == s.board[r][c];
      }
    }
  }

  /** A rank of eight copies of p. */
  function FullRank(p: Piece): seq<Piece> {
    [p, p, p, p, p, p, p, p]
  }

  /** The standard starting position: the white king on e1 = (7, 4), the queen on d1 = (7, 3). */
  const INITIAL_BOARD: Board := [
    [Occupied(Black, Rook), Occupied(Black, Knight), Occupied(Black, Bishop), Occupied(Black, Queen),
     Occupied(Black, King), Occupied(Black, Bishop), Occupied(Black, Knight), Occupied(Black, Rook)],
    FullRank(Occupied(Black, Pawn)),
    FullRank(Empty), FullRank(Empty), FullRank(Empty), FullRank(Empty),
    FullRank(Occupied(White, Pawn)),
    [Occupied(White, Rook), Occupied(White, Knight), Occupied(White, Bishop), Occupied(White, Queen),
     Occupied(White, King), Occupied(White, Bishop), Occupied(White, Knight), Occupied(White, Rook)]
  ]

  /** The back rank exactly as the engine's constructor writes it: king and queen swapped. */
  const SOURCE_INITIAL_BOARD: Board := INITIAL_BOARD[7 := [
     Occupied(White, Rook), Occupied(White, Knight), Occupied(White, Bishop), Occupied(White, King),
     Occupied(White, Queen), Occupied(White, Bishop), Occupied(White, Knight), Occupied(White, Rook)]]

  /** The state the constructor builds (on the corrected board). */
  function InitialState(): State {
    State(INITIAL_BOARD, true, (7, 4), (0, 4), [], None)
  }

  /** On the corrected board the king caches (7, 4) and (0, 4) agree with the board. */
  lemma InitialKingsConsistent()
    ensures KingsConsistent(INITIAL_BOARD, (7, 4), (0, 4))
    ensures Coherent(InitialState())
  {
    forall r, c | OnBoard(r, c)
      ensures (INITIAL_BOARD[r][c] == Occupied(White, King) <==> (r, c) == (7, 4))
      ensures (INITIAL_BOARD[r][c] == Occupied(Black, King) <==> (r, c) == (0, 4))
    {
      if 2 <= r < 6 {
        assert INITIAL_BOARD[r] == FullRank(Empty);
      }
    }
  }

  /** On the board as the engine writes it, the cached white king square (7, 4) holds the queen. */
  lemma SourceInitialDesync()
    ensures SOURCE_INITIAL_BOARD[7][4] == Occupied(White, Queen)
    ensures SOURCE_INITIAL_BOARD[7][3] == Occupied(White, King)
    ensures !KingsConsistent(SOURCE_INITIAL_BOARD, (7, 4), (0, 4))
  {
    assert OnBoard(7, 4);
  }
}
