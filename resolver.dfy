/**
 * Check resolution: the valid moves of a position. Out of check every pseudo-legal move
 * is valid; in double check only the king may move; in single check a move must move
 * the king, or end on the checker's square (a knight) or on a square of the ray from the
 * king up to and including the checker.
 */
module Resolver {
  import opened Wrappers
  import opened Pieces
  import opened Moves
  import opened Detector
  import opened Position
  import opened Generator

  /** The squares at distance i, i+1, ... from the king along the check's direction, up to the checker. */
  function SquaresToward(kr: int, kc: int, chk: Check, i: int): seq<(int, int)>
    requires 1 <= i <= 8
    decreases 8 - i
  {
    if i == 8 then []
    else
      var sq := SlideSquare(kr, kc, (chk.dr, chk.dc), i);
      if sq == (chk.row, chk.col) then [sq] else [sq] + SquaresToward(kr, kc, chk, i + 1)
  }

  /** Where a non-king move must end to answer the check chk: the checker itself if it is a knight, else the ray to it. */
  function ValidSquares(b: Board, kr: int, kc: int, chk: Check): seq<(int, int)>
    requires OnBoard(chk.row, chk.col)
  {
    if IsKind(b[chk.row][chk.col], Knight) then [(chk.row, chk.col)] else SquaresToward(kr, kc, chk, 1)
  }

  /** A move answers a check when it moves the king or ends on one of the given squares. */
  predicate Answers(m: Move, squares: seq<(int, int)>) {
    IsKind(m.pieceMoved, King) || (m.endRow, m.endCol) in squares
  }

  /** The moves that answer the check, in their original order. */
  function Filter(moves: seq<Move>, squares: seq<(int, int)>): (kept: seq<Move>)
    ensures forall m :: m in kept <==> m in moves && Answers(m, squares)
    ensures |kept| <= |moves|
  {
    if moves == [] then []
    else (if Answers(moves[0], squares) then [moves[0]] else []) + Filter(moves[1..], squares)
  }

  /** Filtering a suffix decides its first move, then filters the rest. */
  lemma FilterFrom(moves: seq<Move>, squares: seq<(int, int)>, i: int)
    requires 0 <= i < |moves|
    ensures Filter(moves[i..], squares)
            == (if Answers(moves[i], squares) then [moves[i]] else []) + Filter(moves[i + 1..], squares)
  {
    assert moves[i..][1..] == moves[i + 1..];
  }

  /** The detector's answer for the side to move's king at its cached square. */
  function DetectAtKing(s: State): Detection {
    Detect(s.board, KingLocation(s).0, KingLocation(s).1, SideToMove(s.whiteToMove))
  }

  /**
   * The valid moves of the side to move, given the detector's answer d for its king: out
   * of check every pseudo-legal move; in single check those that answer it; in double
   * check the king's moves only.
   */
  function ValidMovesFor(s: State, d: Detection): seq<Move>
    requires OnBoard(KingLocation(s).0, KingLocation(s).1)
    requires forall c :: c in d.checks ==> OnBoard(c.row, c.col)
  {
    var (kr, kc) := KingLocation(s);
    var ally := SideToMove(s.whiteToMove);
    if d.inCheck then
      if |d.checks| == 1 then Filter(AllPossibleMoves(s, d.pins), ValidSquares(s.board, kr, kc, d.checks[0]))
      else KingMoves(s.board, ally, kr, kc)
    else AllPossibleMoves(s, d.pins)
  }

  /** The valid moves of the side to move. */
  function ValidMoves(s: State): seq<Move>
    requires OnBoard(KingLocation(s).0, KingLocation(s).1)
  {
    ValidMovesFor(s, DetectAtKing(s))
  }

  /** No valid move while in check. The engine declares this field but never sets it. */
  predicate IsCheckmate(s: State)
    requires OnBoard(KingLocation(s).0, KingLocation(s).1)
  {
    ValidMoves(s) == [] && DetectAtKing(s).inCheck
  }

  /** No valid move while not in check. The engine declares this field but never sets it. */
  predicate IsStalemate(s: State)
    requires OnBoard(KingLocation(s).0, KingLocation(s).1)
  {
    ValidMoves(s) == [] && !DetectAtKing(s).inCheck
  }

  /** The side to move's king stands on its cached square. */
  predicate KingAtCache(s: State) {
    var (kr, kc) := KingLocation(s);
    OnBoard(kr, kc) && s.board[kr][kc] == Occupied(SideToMove(s.whiteToMove), King)
  }

  // ---------------------------------------------------------------------------
  // The squares that answer a single check.

  lemma {:induction false} SquaresTowardMembers(kr: int, kc: int, chk: Check, i: int, i0: int, sq: (int, int))
    requires 1 <= i <= i0 < 8 && UnitStep((chk.dr, chk.dc))
    requires (chk.row, chk.col) == SlideSquare(kr, kc, (chk.dr, chk.dc), i0)
    ensures sq in SquaresToward(kr, kc, chk, i) <==> exists l :: i <= l <= i0 && sq == SlideSquare(kr, kc, (chk.dr, chk.dc), l)
    decreases i0 - i
  {
    var d := (chk.dr, chk.dc);
    if i < i0 {
      StepsDistinct(kr, kc, d, i, i0);
      SquaresTowardMembers(kr, kc, chk, i + 1, i0, sq);
    }
  }

  /** Every ray direction is a unit step. */
  lemma DirectionsAreUnitSteps(j: int)
    requires 0 <= j < 8
    ensures UnitStep(DIRECTIONS[j])
  {
  }

  /**
   * The squares answering a single check: for a knight, exactly its own square; for an
   * attacker on a ray, exactly the squares from the king's neighbour up to and including
   * the attacker.
   */
  lemma ValidSquaresSpec(b: Board, kr: int, kc: int, ally: Color, chk: Check, sq: (int, int))
    requires chk in Detect(b, kr, kc, ally).checks
    ensures IsKind(b[chk.row][chk.col], Knight) ==> (sq in ValidSquares(b, kr, kc, chk) <==> sq == (chk.row, chk.col))
    ensures !IsKind(b[chk.row][chk.col], Knight) ==>
              exists j, i0 :: 0 <= j < 8 && RayCheckAt(b, kr, kc, ally, j, i0) && chk == CheckFrom(kr, kc, j, i0)
                              && (sq in ValidSquares(b, kr, kc, chk) <==>
                                    exists l :: 1 <= l <= i0 && sq == SlideSquare(kr, kc, DIRECTIONS[j], l))
  {
    DetectSound(b, kr, kc, ally);
    if !IsKind(b[chk.row][chk.col], Knight) {
      var j, i0 :| 0 <= j < 8 && RayCheckAt(b, kr, kc, ally, j, i0) && chk == CheckFrom(kr, kc, j, i0);
      DirectionsAreUnitSteps(j);
      assert (chk.dr, chk.dc) == DIRECTIONS[j];
      SquaresTowardMembers(kr, kc, chk, 1, i0, sq);
    }
  }

  // ---------------------------------------------------------------------------
  // The valid moves.

  /** Out of check, the valid moves are exactly the moves each piece of the side to move generates from its square. */
  lemma NotInCheckAllMoves(s: State, m: Move)
    requires OnBoard(KingLocation(s).0, KingLocation(s).1) && !DetectAtKing(s).inCheck
    ensures m in ValidMoves(s) <==> OnBoardMove(m) && m in PieceMoves(s, DetectAtKing(s).pins, m.startRow, m.startCol)
  {
    AllPossibleMovesMembers(s, DetectAtKing(s).pins, m);
  }

  /**
   * With the king on its cached square, every valid move is a pseudo-legal move: a move
   * of the side to move's piece from its own square, applicable by makeMove, and not
   * onto an allied piece unless it captures en passant.
   */
  lemma ValidMovesArePseudoLegal(s: State, m: Move)
    requires KingAtCache(s) && m in ValidMoves(s)
    ensures m in AllPossibleMoves(s, DetectAtKing(s).pins)
    ensures Applicable(m) && m.pieceMoved == s.board[m.startRow][m.startCol]
    ensures HasColor(m.pieceMoved, SideToMove(s.whiteToMove))
    ensures !m.isEnpassantMove ==> !HasColor(s.board[m.endRow][m.endCol], SideToMove(s.whiteToMove))
  {
    var (kr, kc) := KingLocation(s);
    var d := DetectAtKing(s);
    if d.inCheck && |d.checks| != 1 {
      assert m in PieceMoves(s, d.pins, kr, kc);
      KingMovesSafe(s.board, SideToMove(s.whiteToMove), kr, kc, m);
    }
    AllPossibleMovesMembers(s, d.pins, m);
    PieceMovesShape(s, d.pins, m.startRow, m.startCol, m);
  }

  /** Double check: every valid move is a safe step of the king itself. */
  lemma DoubleCheckKingOnly(s: State, m: Move)
    requires KingAtCache(s) && |DetectAtKing(s).checks| >= 2 && m in ValidMoves(s)
    ensures IsKind(m.pieceMoved, King) && (m.startRow, m.startCol) == KingLocation(s) && OnBoardMove(m)
    ensures !HasColor(s.board[m.endRow][m.endCol], SideToMove(s.whiteToMove))
    ensures !InCheckAt(s.board, m.endRow, m.endCol, SideToMove(s.whiteToMove))
  {
    var (kr, kc) := KingLocation(s);
    KingMovesSafe(s.board, SideToMove(s.whiteToMove), kr, kc, m);
  }

  /** Single check: the valid moves are exactly the pseudo-legal moves that move the king or end on a valid square. */
  lemma SingleCheckFilter(s: State, m: Move)
    requires OnBoard(KingLocation(s).0, KingLocation(s).1) && |DetectAtKing(s).checks| == 1
    ensures m in ValidMoves(s) <==>
              m in AllPossibleMoves(s, DetectAtKing(s).pins)
              && (IsKind(m.pieceMoved, King)
                  || (m.endRow, m.endCol) in ValidSquares(s.board, KingLocation(s).0, KingLocation(s).1, DetectAtKing(s).checks[0]))
  {
  }

  /**
   * Single check, by the board: a valid move that does not move the king captures the
   * checking knight, or ends on the ray from the king up to and including the checker.
   */
  lemma SingleCheckBlocksOrCaptures(s: State, m: Move)
    requires OnBoard(KingLocation(s).0, KingLocation(s).1) && |DetectAtKing(s).checks| == 1
    requires m in ValidMoves(s) && !IsKind(m.pieceMoved, King)
    ensures var (kr, kc) := KingLocation(s);
            var chk := DetectAtKing(s).checks[0];
            && (IsKind(s.board[chk.row][chk.col], Knight) ==> (m.endRow, m.endCol) == (chk.row, chk.col))
            && (!IsKind(s.board[chk.row][chk.col], Knight) ==>
                  exists j, i0, l :: 0 <= j < 8 && RayCheckAt(s.board, kr, kc, SideToMove(s.whiteToMove), j, i0)
                                     && chk == CheckFrom(kr, kc, j, i0) && 1 <= l <= i0
                                     && (m.endRow, m.endCol) == SlideSquare(kr, kc, DIRECTIONS[j], l))
  {
    var (kr, kc) := KingLocation(s);
    var ally := SideToMove(s.whiteToMove);
    var chk := DetectAtKing(s).checks[0];
    var sq := (m.endRow, m.endCol);
    ValidSquaresSpec(s.board, kr, kc, ally, chk, sq);
    if !IsKind(s.board[chk.row][chk.col], Knight) {
      var j, i0 :| 0 <= j < 8 && RayCheckAt(s.board, kr, kc, ally, j, i0) && chk == CheckFrom(kr, kc, j, i0)
                   && (sq in ValidSquares(s.board, kr, kc, chk) <==>
                         exists l :: 1 <= l <= i0 && sq == SlideSquare(kr, kc, DIRECTIONS[j], l));
      var l :| 1 <= l <= i0 && sq == SlideSquare(kr, kc, DIRECTIONS[j], l);
    }
  }

  /** Outside double check, the valid moves are drawn from the pseudo-legal ones. */
  lemma ValidMovesAmongAll(s: State, m: Move)
    requires OnBoard(KingLocation(s).0, KingLocation(s).1) && m in ValidMoves(s)
    requires !(DetectAtKing(s).inCheck && |DetectAtKing(s).checks| != 1)
    ensures m in AllPossibleMoves(s, DetectAtKing(s).pins)
  {
  }

  /** Every valid king move is a step onto a square without an allied piece where the detector reports no check. */
  lemma ValidKingMovesSafe(s: State, m: Move)
    requires OnBoard(KingLocation(s).0, KingLocation(s).1) && m in ValidMoves(s) && IsKind(m.pieceMoved, King)
    ensures OnBoardMove(m) && !m.isEnpassantMove
    ensures Abs(m.endRow - m.startRow) <= 1 && Abs(m.endCol - m.startCol) <= 1
    ensures !HasColor(s.board[m.endRow][m.endCol], SideToMove(s.whiteToMove))
    ensures !InCheckAt(s.board, m.endRow, m.endCol, SideToMove(s.whiteToMove))
  {
    var (kr, kc) := KingLocation(s);
    var ally := SideToMove(s.whiteToMove);
    var d := DetectAtKing(s);
    if d.inCheck && |d.checks| != 1 {
      KingMovesSafe(s.board, ally, kr, kc, m);
    } else {
      ValidMovesAmongAll(s, m);
      AllPossibleKingMovesSafe(s, d.pins, m);
    }
  }

  /**
   * Pin confinement among the valid moves: a piece the detector found pinned moves only
   * along its pin's line, and a pinned knight not at all; en-passant captures are the
   * exception, as they ignore the pin.
   */
  lemma ValidMovesPinConfined(s: State, m: Move)
    requires KingAtCache(s) && m in ValidMoves(s) && !m.isEnpassantMove
    requires PinDirection(DetectAtKing(s).pins, m.startRow, m.startCol).Some?
    ensures OnLine(m.startRow, m.startCol, PinDirection(DetectAtKing(s).pins, m.startRow, m.startCol).value, m.endRow, m.endCol)
    ensures !IsKind(m.pieceMoved, Knight)
  {
    var d := DetectAtKing(s);
    ValidMovesArePseudoLegal(s, m);
    AllPossibleMovesMembers(s, d.pins, m);
    var dir := PinDirection(d.pins, m.startRow, m.startCol).value;
    var p :| p in d.pins && p == Pin(m.startRow, m.startCol, dir.0, dir.1);
    assert !IsKind(s.board[m.startRow][m.startCol], King);
    PinnedPieceConfined(s, d.pins, m.startRow, m.startCol, m);
  }

  /**
   * Out of check, stalemate is exactly the absence of any move generated from any square:
   * the valid moves are then the pseudo-legal moves.
   */
  lemma StalemateIffNoPieceMoves(s: State)
    requires OnBoard(KingLocation(s).0, KingLocation(s).1) && !DetectAtKing(s).inCheck
    ensures IsStalemate(s) <==> forall r, c :: OnBoard(r, c) ==> PieceMoves(s, DetectAtKing(s).pins, r, c) == []
    ensures !IsCheckmate(s)
  {
    var pins := DetectAtKing(s).pins;
    if ValidMoves(s) != [] {
      var m := ValidMoves(s)[0];
      NotInCheckAllMoves(s, m);
    }
    forall r, c | OnBoard(r, c) && PieceMoves(s, pins, r, c) != []
      ensures ValidMoves(s) != []
    {
      var m := PieceMoves(s, pins, r, c)[0];
      PieceMovesShape(s, pins, r, c, m);
      NotInCheckAllMoves(s, m);
    }
  }

  /**
   * A safe step of the king standing on its cached square is a valid move in every
   * case, in check or not, so the position is neither checkmate nor stalemate.
   */
  lemma SafeKingStepAvoidsMate(s: State, t: int)
    requires KingAtCache(s) && 0 <= t < 8
    requires KingStepSafe(s.board, SideToMove(s.whiteToMove), KingLocation(s).0, KingLocation(s).1, t)
    ensures NewMove(KingLocation(s), StepSquare(KingLocation(s).0, KingLocation(s).1, KING_DIRECTIONS, t), s.board, false)
              in ValidMoves(s)
    ensures !IsCheckmate(s) && !IsStalemate(s)
  {
    var (kr, kc) := KingLocation(s);
    var ally := SideToMove(s.whiteToMove);
    var d := DetectAtKing(s);
    var m := NewMove((kr, kc), StepSquare(kr, kc, KING_DIRECTIONS, t), s.board, false);
    KingMovesComplete(s.board, ally, kr, kc, t);
    assert m in PieceMoves(s, d.pins, kr, kc);
    if !(d.inCheck && |d.checks| != 1) {
      AllPossibleMovesMembers(s, d.pins, m);
    }
  }

  /** Double check: checkmate exactly when the king has no safe step. */
  lemma DoubleCheckMateIff(s: State)
    requires KingAtCache(s) && |DetectAtKing(s).checks| >= 2
    ensures IsCheckmate(s) <==>
              forall t :: 0 <= t < 8 ==> !KingStepSafe(s.board, SideToMove(s.whiteToMove), KingLocation(s).0, KingLocation(s).1, t)
  {
    if forall t :: 0 <= t < 8 ==> !KingStepSafe(s.board, SideToMove(s.whiteToMove), KingLocation(s).0, KingLocation(s).1, t) {
      DoubleCheckTrapped(s);
    } else {
      var t :| 0 <= t < 8 && KingStepSafe(s.board, SideToMove(s.whiteToMove), KingLocation(s).0, KingLocation(s).1, t);
      SafeKingStepAvoidsMate(s, t);
    }
  }

  /** Double check with no safe step for the king is checkmate. */
  lemma DoubleCheckTrapped(s: State)
    requires OnBoard(KingLocation(s).0, KingLocation(s).1) && |DetectAtKing(s).checks| >= 2
    requires forall t :: 0 <= t < 8 ==> !KingStepSafe(s.board, SideToMove(s.whiteToMove), KingLocation(s).0, KingLocation(s).1, t)
    ensures IsCheckmate(s)
  {
    var (kr, kc) := KingLocation(s);
    var ally := SideToMove(s.whiteToMove);
    var ms := KingMoves(s.board, ally, kr, kc);
    if ms != [] {
      StepMovesMembers(s.board, ally, kr, kc, KING_DIRECTIONS, KingProbe(s.board, ally), 8, ms[0]);
      var t :| 0 <= t < 8 && StepAllowed(s.board, ally, kr, kc, KING_DIRECTIONS, KingProbe(s.board, ally), t);
      assert KingStepSafe(s.board, ally, kr, kc, t);
    }
  }
}
