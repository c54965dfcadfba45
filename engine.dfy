/**
 * The engine's `GameState` object: the board and the bookkeeping fields that `makeMove`
 * and `undo` update in place, the check and pin detector, the per-piece generators that
 * append to a move list, and `getValidMoves`. Each method is proved against the value
 * model: making and undoing moves against Position.AfterMove and Position.AfterUndo,
 * the detector against Detector.Detect, the generators against the Generator functions
 * and `getValidMoves` against Resolver.ValidMoves.
 */
module Engine {
  import opened Wrappers
  import opened Seqs
  import opened Pieces
  import opened Moves
  import opened Detector
  import opened Position
  import opened Generator
  import opened Resolver

  /** The cached square of the king of the side not to move. */
  function OtherKingLocation(s: State): (int, int) {
    if s.whiteToMove then s.blackKingLocation else s.whiteKingLocation
  }

  /**
   * Some king step by KING_DIRECTIONS[0..n-1] from (r, c) lands on the board on a square
   * without an allied piece: for each such step the king generator moves the king's
   * cache there to probe it and afterwards sets the cache to (r, c).
   */
  predicate KingStepTried(b: Board, ally: Color, r: int, c: int, n: int)
    requires OnBoard(r, c) && 0 <= n <= 8
  {
    n > 0
    && (KingStepTried(b, ally, r, c, n - 1)
        || (var sq := StepSquare(r, c, KING_DIRECTIONS, n - 1);
            OnBoard(sq.0, sq.1) && !HasColor(b[sq.0][sq.1], ally)))
  }

  /**
   * The side to move's king cache after generating the moves of the first n squares of
   * row r, starting from the cache `start`: every allied king that probes a step leaves
   * the cache on its own square.
   */
  function CacheInRow(s: State, r: int, n: int, start: (int, int)): (sq: (int, int))
    requires 0 <= r < 8 && 0 <= n <= 8
    ensures sq == start || (OnBoard(sq.0, sq.1) && s.board[sq.0][sq.1] == Occupied(SideToMove(s.whiteToMove), King))
  {
    if n == 0 then start
    else
      var side := SideToMove(s.whiteToMove);
      if s.board[r][n - 1] == Occupied(side, King) && KingStepTried(s.board, side, r, n - 1, 8) then (r, n - 1)
      else CacheInRow(s, r, n - 1, start)
  }

  /** The side to move's king cache after generating the moves of the first n rows. */
  function CacheAfterRows(s: State, n: int): (sq: (int, int))
    requires 0 <= n <= 8
    ensures sq == KingLocation(s) || (OnBoard(sq.0, sq.1) && s.board[sq.0][sq.1] == Occupied(SideToMove(s.whiteToMove), King))
  {
    if n == 0 then KingLocation(s) else CacheInRow(s, n - 1, 8, CacheAfterRows(s, n - 1))
  }

  /** Every allied king on the board stands on the cached square of the side to move. */
  ghost predicate SoleKingAtCache(s: State) {
    forall r, c :: OnBoard(r, c) && s.board[r][c] == Occupied(SideToMove(s.whiteToMove), King) ==>
      (r, c) == KingLocation(s)
  }

  /** With the cache on the only allied king, generating moves leaves the cache where it is. */
  lemma {:induction false} CacheAfterRowsUnchanged(s: State, n: int)
    requires 0 <= n <= 8 && SoleKingAtCache(s)
    ensures CacheAfterRows(s, n) == KingLocation(s)
  {
    if n > 0 {
      CacheAfterRowsUnchanged(s, n - 1);
    }
  }

  /** The king cache the side to move has after `getValidMoves`. */
  function CacheAfterValidMoves(s: State): (int, int) {
    var d := DetectAtKing(s);
    if d.inCheck && |d.checks| != 1 then KingLocation(s) else CacheAfterRows(s, 8)
  }

  /** A piece's moves do not depend on the king caches or the log. */
  lemma PieceMovesIgnoreCaches(s: State, t: State, pins: seq<Pin>, r: int, c: int)
    requires OnBoard(r, c)
    requires s.board == t.board && s.whiteToMove == t.whiteToMove && s.enpassantPossible == t.enpassantPossible
    ensures PieceMoves(s, pins, r, c) == PieceMoves(t, pins, r, c)
  {
  }

  class GameState {
    var board: Board
    var whiteToMove: bool
    var checkmate: bool
    var stalemate: bool
    var inCheck: bool
    var pins: seq<Pin>
    var checks: seq<Check>
    var whiteKingLocation: (int, int)
    var blackKingLocation: (int, int)
    var movelog: seq<Move>
    var enpassantPossible: Option<(int, int)>

    /** The fields the rules depend on, as a Position.State value. */
    function Current(): State
      reads this`board, this`whiteToMove, this`whiteKingLocation, this`blackKingLocation, this`movelog, this`enpassantPossible
    {
      State(board, whiteToMove, whiteKingLocation, blackKingLocation, movelog, enpassantPossible)
    }

    ghost predicate Valid()
      reads this`board, this`whiteToMove, this`whiteKingLocation, this`blackKingLocation, this`movelog, this`enpassantPossible
    {
      Coherent(Current())
    }

    /** The starting position, White to move, nothing logged, no flag set. */
    constructor ()
      ensures Current() == InitialState() && Valid()
      ensures KingsConsistent(board, whiteKingLocation, blackKingLocation)
      ensures !checkmate && !stalemate && !inCheck && pins == [] && checks == []
    {
      board := INITIAL_BOARD;
      whiteToMove := true;
      checkmate := false;
      stalemate := false;
      inCheck := false;
      pins := [];
      checks := [];
      whiteKingLocation := (7, 4);
      blackKingLocation := (0, 4);
      movelog := [];
      enpassantPossible := None;
      InitialKingsConsistent();
    }

    /** `makeMove`: the new state is AfterMove of the old one; the flags and the pin and check lists are not touched. */
    method MakeMove(m: Move)
      requires Valid() && Applicable(m)
      modifies this`board, this`whiteToMove, this`whiteKingLocation, this`blackKingLocation, this`movelog, this`enpassantPossible
      ensures Current() == AfterMove(old(Current()), m) && Valid()
    {
      MoveKeepsCoherent(Current(), m);
      board := Put(Put(board, m.startRow, m.startCol, Empty), m.endRow, m.endCol, m.pieceMoved);
      movelog := movelog + [m];
      whiteToMove := !whiteToMove;
      if m.pieceMoved == Occupied(White, King) {
        whiteKingLocation := (m.endRow, m.endCol);
      }
      if m.pieceMoved == Occupied(Black, King) {
        blackKingLocation := (m.endRow, m.endCol);
      }
      if m.isPawnPromotion {
        board := Put(board, m.endRow, m.endCol, Occupied(m.pieceMoved.color, Queen));
      }
      if IsKind(m.pieceMoved, Pawn) && Abs(m.startRow - m.endRow) == 2 {
        enpassantPossible := Some(((m.startRow + m.endRow) / 2, m.endCol));
      } else {
        enpassantPossible := None;
      }
      if m.isEnpassantMove {
        board := Put(board, m.startRow, m.endCol, Empty);
      }
    }

    /** `undo`: the new state is AfterUndo of the old one (nothing changes with an empty log). */
    method Undo()
      requires Valid()
      modifies this`board, this`whiteToMove, this`whiteKingLocation, this`blackKingLocation, this`movelog, this`enpassantPossible
      ensures Current() == AfterUndo(old(Current())) && Valid()
    {
      UndoKeepsCoherent(Current());
      if |movelog| != 0 {
        var move := movelog[|movelog| - 1];
        movelog := movelog[..|movelog| - 1];
        board := Put(board, move.startRow, move.startCol, move.pieceMoved);
        board := Put(board, move.endRow, move.endCol, move.pieceCaptured);
        whiteToMove := !whiteToMove;
        if move.pieceMoved == Occupied(White, King) {
          whiteKingLocation := (move.startRow, move.startCol);
        }
        if move.pieceMoved == Occupied(Black, King) {
          blackKingLocation := (move.startRow, move.startCol);
        }
        if move.isEnpassantMove {
          board := Put(board, move.endRow, move.endCol, Empty);
          board := Put(board, move.startRow, move.endCol, move.pieceCaptured);
          enpassantPossible := Some((move.endRow, move.endCol));
        }
        if IsKind(move.pieceMoved, Pawn) && Abs(move.startRow - move.endRow) == 2 {
          enpassantPossible := None;
        }
      }
    }

    /**
     * `checkForPinsAndChecks`: walks the eight rays and the eight knight offsets from the
     * side to move's cached king square; the result is the detector's.
     */
    method CheckForPinsAndChecks() returns (inCheck': bool, pins': seq<Pin>, checks': seq<Check>)
      ensures Detection(inCheck', pins', checks') == DetectAtKing(Current())
    {
      var ally := SideToMove(whiteToMove);
      var enemy := Opponent(ally);
      var startRow, startCol := KingLocation(Current()).0, KingLocation(Current()).1;
      pins', checks', inCheck' := [], [], false;
      for j := 0 to 8
        invariant pins' == RayPins(board, startRow, startCol, ally, j)
        invariant checks' == RayChecks(board, startRow, startCol, ally, j)
        invariant inCheck' <==> checks' != []
      {
        inCheck', pins', checks' := ScanDirection(startRow, startCol, ally, j, inCheck', pins', checks');
      }
      inCheck', checks' := ScanKnights(startRow, startCol, ally, inCheck', checks');
    }

    /**
     * The knight part of `checkForPinsAndChecks`: every enemy knight a knight's jump
     * from the king square appends a check.
     */
    method ScanKnights(startRow: int, startCol: int, ally: Color, inCheck: bool, checks: seq<Check>)
      returns (inCheck': bool, checks': seq<Check>)
      ensures checks' == checks + KnightChecks(board, startRow, startCol, ally, 8)
      ensures inCheck' == (inCheck || KnightChecks(board, startRow, startCol, ally, 8) != [])
    {
      var enemy := Opponent(ally);
      inCheck', checks' := inCheck, checks;
      for t := 0 to 8
        invariant checks' == checks + KnightChecks(board, startRow, startCol, ally, t)
        invariant inCheck' == (inCheck || KnightChecks(board, startRow, startCol, ally, t) != [])
      {
        var endRow, endCol := startRow + KNIGHT_OFFSETS[t].0, startCol + KNIGHT_OFFSETS[t].1;
        if 0 <= endRow < 8 && 0 <= endCol < 8 {
          var endPiece := board[endRow][endCol];
          if endPiece == Occupied(enemy, Knight) {
            AppendAssociative(checks, KnightChecks(board, startRow, startCol, ally, t), [KnightCheckFrom(startRow, startCol, t)]);
            inCheck' := true;
            checks' := checks' + [Check(endRow, endCol, KNIGHT_OFFSETS[t].0, KNIGHT_OFFSETS[t].1)];
          }
        }
      }
    }

    /**
     * One ray of `checkForPinsAndChecks`: walks direction j outward from the king square,
     * remembering the first allied piece passed, and appends the pin or the check the ray
     * ends in, if any.
     */
    method ScanDirection(startRow: int, startCol: int, ally: Color, j: int, inCheck: bool, pins: seq<Pin>, checks: seq<Check>)
      returns (inCheck': bool, pins': seq<Pin>, checks': seq<Check>)
      requires 0 <= j < 8
      ensures pins' == pins + PinsOf(RayOutcome(board, startRow, startCol, ally, j))
      ensures checks' == checks + ChecksOf(RayOutcome(board, startRow, startCol, ally, j))
      ensures inCheck' == (inCheck || RayOutcome(board, startRow, startCol, ally, j).Checked?)
    {
      var enemy := Opponent(ally);
      var d := DIRECTIONS[j];
      var possiblePin: Option<Pin> := None;
      inCheck', pins', checks' := inCheck, pins, checks;
      ghost var outcome := RayOutcome(board, startRow, startCol, ally, j);
      for i := 1 to 8
        invariant ScanRay(board, startRow, startCol, ally, j, i, possiblePin) == outcome
        invariant inCheck' == inCheck && pins' == pins && checks' == checks
      {
        var endRow, endCol := startRow + d.0 * i, startCol + d.1 * i;
        assert (endRow, endCol) == RaySquare(startRow, startCol, j, i);
        if 0 <= endRow < 8 && 0 <= endCol < 8 {
          var endPiece := board[endRow][endCol];
          if HasColor(endPiece, ally) && endPiece.kind != King {
            if possiblePin.None? {
              possiblePin := Some(Pin(endRow, endCol, d.0, d.1));
            } else {
              break;
            }
          } else if HasColor(endPiece, enemy) {
            if Threatens(endPiece.kind, enemy, j, i) {
              if possiblePin.None? {
                inCheck' := true;
                checks' := checks' + [Check(endRow, endCol, d.0, d.1)];
              } else {
                pins' := pins' + [possiblePin.value];
              }
            }
            break;
          }
        } else {
          break;
        }
      }
    }

    /** The pin recorded for (r, c), searching the pin list backwards as every generator does. */
    method FindPin(r: int, c: int) returns (pin: Option<(int, int)>)
      ensures pin == PinDirection(pins, r, c)
    {
      assert pins[..|pins|] == pins;
      var i := |pins| - 1;
      while i >= 0
        invariant -1 <= i < |pins|
        invariant PinDirection(pins, r, c) == PinDirection(pins[..i + 1], r, c)
      {
        assert pins[..i + 1][..i] == pins[..i];
        if pins[i].row == r && pins[i].col == c {
          return Some((pins[i].dr, pins[i].dc));
        }
        i := i - 1;
      }
      return None;
    }

    /** `getPawnMoves`: appends the pawn moves of (r, c): the advances, then the capture to the left and to the right. */
    method GetPawnMoves(r: int, c: int, moves: seq<Move>) returns (moves': seq<Move>)
      requires OnBoard(r, c)
      ensures moves' == moves + PawnMoves(Current(), PinDirection(pins, r, c), r, c)
    {
      var pinDirection := FindPin(r, c);
      var color := SideToMove(whiteToMove);
      moves' := moves;
      if !(0 <= r + PawnForward(color) < 8) {
        return;
      }
      ghost var advances := PawnAdvances(board, color, pinDirection, r, c);
      ghost var left := PawnCapture(board, color, pinDirection, enpassantPossible, r, c, -1);
      ghost var right := PawnCapture(board, color, pinDirection, enpassantPossible, r, c, 1);
      moves' := AddPawnAdvances(r, c, color, pinDirection, moves');
      moves' := AddPawnCapture(r, c, color, pinDirection, -1, moves');
      moves' := AddPawnCapture(r, c, color, pinDirection, 1, moves');
      AppendAssociative(moves, advances, left);
      AppendAssociative(moves, advances + left, right);
    }

    /** The one- and two-square advances of `getPawnMoves`. */
    method AddPawnAdvances(r: int, c: int, color: Color, pinDirection: Option<(int, int)>, moves: seq<Move>)
      returns (moves': seq<Move>)
      requires OnBoard(r, c) && OnBoard(r + PawnForward(color), c)
      ensures moves' == moves + PawnAdvances(board, color, pinDirection, r, c)
    {
      var f := PawnForward(color);
      moves' := moves;
      if board[r + f][c] == Empty {
        if pinDirection.None? || pinDirection.value == (f, 0) {
          moves' := moves' + [NewMove((r, c), (r + f, c), board, false)];
          if r == PawnHome(color) && board[r + 2 * f][c] == Empty {
            moves' := moves' + [NewMove((r, c), (r + 2 * f, c), board, false)];
          }
        }
      }
    }

    /** The capture of `getPawnMoves` towards column c + dc: of an enemy piece, or else en passant. */
    method AddPawnCapture(r: int, c: int, color: Color, pinDirection: Option<(int, int)>, dc: int, moves: seq<Move>)
      returns (moves': seq<Move>)
      requires OnBoard(r, c) && OnBoard(r + PawnForward(color), c)
      ensures moves' == moves + PawnCapture(board, color, pinDirection, enpassantPossible, r, c, dc)
    {
      var f := PawnForward(color);
      moves' := moves;
      if 0 <= c + dc <= 7 {
        if HasColor(board[r + f][c + dc], Opponent(color)) {
          if pinDirection.None? || pinDirection.value == (f, dc) {
            moves' := moves' + [NewMove((r, c), (r + f, c + dc), board, false)];
          }
        } else if enpassantPossible == Some((r + f, c + dc)) {
          moves' := moves' + [NewMove((r, c), (r + f, c + dc), board, true)];
        }
      }
    }

    /** The slides of `getRookMoves` and `getBishopMoves` along dirs, for a piece with the given pin. */
    method AddSlides(r: int, c: int, pin: Option<(int, int)>, dirs: seq<(int, int)>, moves: seq<Move>)
      returns (moves': seq<Move>)
      requires OnBoard(r, c)
      ensures moves' == moves + SlideMoves(board, Opponent(SideToMove(whiteToMove)), pin, r, c, dirs, |dirs|)
    {
      var enemy := Opponent(SideToMove(whiteToMove));
      moves' := moves;
      for j := 0 to |dirs|
        invariant moves' == moves + SlideMoves(board, enemy, pin, r, c, dirs, j)
      {
        AppendAssociative(moves, SlideMoves(board, enemy, pin, r, c, dirs, j), SlideLine(board, enemy, pin, r, c, dirs[j]));
        moves' := AddRay(r, c, enemy, pin, dirs[j], moves');
      }
    }

    /**
     * The inner loop of `getRookMoves` and `getBishopMoves`: the squares along d up to the
     * edge, the first enemy piece (included) or the first allied piece (excluded), when
     * the pin allows moving along d at all.
     */
    method AddRay(r: int, c: int, enemy: Color, pin: Option<(int, int)>, d: (int, int), moves: seq<Move>)
      returns (moves': seq<Move>)
      requires OnBoard(r, c)
      ensures moves' == moves + SlideLine(board, enemy, pin, r, c, d)
    {
      moves' := moves;
      for i := 1 to 8
        invariant PinAllows(pin, d) ==> moves' + SlideRay(board, enemy, r, c, d, i) == moves + SlideRay(board, enemy, r, c, d, 1)
        invariant !PinAllows(pin, d) ==> moves' == moves
      {
        var endRow, endCol := r + d.0 * i, c + d.1 * i;
        if 0 <= endRow < 8 && 0 <= endCol < 8 {
          if pin.None? || pin.value == d || pin.value == (-d.0, -d.1) {
            var endPiece := board[endRow][endCol];
            if endPiece == Empty {
              AppendAssociative(moves', [NewMove((r, c), (endRow, endCol), board, false)], SlideRay(board, enemy, r, c, d, i + 1));
              moves' := moves' + [NewMove((r, c), (endRow, endCol), board, false)];
            } else if HasColor(endPiece, enemy) {
              moves' := moves' + [NewMove((r, c), (endRow, endCol), board, false)];
              break;
            } else {
              break;
            }
          }
        } else {
          break;
        }
      }
    }

    /** `getRookMoves`: appends the rook moves of (r, c). */
    method GetRookMoves(r: int, c: int, moves: seq<Move>) returns (moves': seq<Move>)
      requires OnBoard(r, c)
      ensures moves' == moves + RookMoves(Current(), PinDirection(pins, r, c), r, c)
    {
      var pinDirection := FindPin(r, c);
      moves' := AddSlides(r, c, pinDirection, ROOK_DIRECTIONS, moves);
    }

    /** `getBishopMoves`: appends the bishop moves of (r, c). */
    method GetBishopMoves(r: int, c: int, moves: seq<Move>) returns (moves': seq<Move>)
      requires OnBoard(r, c)
      ensures moves' == moves + BishopMoves(Current(), PinDirection(pins, r, c), r, c)
    {
      var pinDirection := FindPin(r, c);
      moves' := AddSlides(r, c, pinDirection, BISHOP_DIRECTIONS, moves);
    }

    /** `getQueenMoves`: the rook moves, then the bishop moves. */
    method GetQueenMoves(r: int, c: int, moves: seq<Move>) returns (moves': seq<Move>)
      requires OnBoard(r, c)
      ensures moves' == moves + RookMoves(Current(), PinDirection(pins, r, c), r, c)
                              + BishopMoves(Current(), PinDirection(pins, r, c), r, c)
    {
      moves' := GetRookMoves(r, c, moves);
      moves' := GetBishopMoves(r, c, moves');
    }

    /** `getKnightMoves`: appends the knight moves of (r, c). */
    method GetKnightMoves(r: int, c: int, moves: seq<Move>) returns (moves': seq<Move>)
      requires OnBoard(r, c)
      ensures moves' == moves + KnightMoves(board, SideToMove(whiteToMove), PinDirection(pins, r, c).Some?, r, c)
    {
      var pin := FindPin(r, c);
      var piecePinned := pin.Some?;
      var allyColor := SideToMove(whiteToMove);
      moves' := moves;
      for t := 0 to 8
        invariant moves' == moves + StepMoves(board, allyColor, r, c, KNIGHT_OFFSETS, KnightFree(piecePinned), t)
      {
        var endRow, endCol := r + KNIGHT_OFFSETS[t].0, c + KNIGHT_OFFSETS[t].1;
        if 0 <= endRow < 8 && 0 <= endCol < 8 {
          if !piecePinned {
            var endPiece := board[endRow][endCol];
            if !HasColor(endPiece, allyColor) {
              AppendAssociative(moves, StepMoves(board, allyColor, r, c, KNIGHT_OFFSETS, KnightFree(piecePinned), t),
                                [NewMove((r, c), (endRow, endCol), board, false)]);
              moves' := moves' + [NewMove((r, c), (endRow, endCol), board, false)];
            }
          }
        }
      }
    }

    /**
     * `getKingMoves`: appends the king steps of (r, c) onto squares without an allied
     * piece where the detector, run with the king's cache moved there, finds no check.
     * The cache is moved for each probe and then set to (r, c); it is therefore unchanged
     * when (r, c) was the cached square.
     */
    method GetKingMoves(r: int, c: int, moves: seq<Move>) returns (moves': seq<Move>)
      requires OnBoard(r, c)
      modifies this`whiteKingLocation, this`blackKingLocation
      ensures moves' == moves + KingMoves(board, SideToMove(whiteToMove), r, c)
      ensures KingLocation(Current()) ==
                if KingStepTried(board, SideToMove(whiteToMove), r, c, 8) then (r, c) else old(KingLocation(Current()))
      ensures OtherKingLocation(Current()) == old(OtherKingLocation(Current()))
      ensures (r, c) == old(KingLocation(Current())) ==>
                whiteKingLocation == old(whiteKingLocation) && blackKingLocation == old(blackKingLocation)
    {
      var allyColor := SideToMove(whiteToMove);
      ghost var start := KingLocation(Current());
      moves' := moves;
      for t := 0 to 8
        invariant moves' == moves + StepMoves(board, allyColor, r, c, KING_DIRECTIONS, KingProbe(board, allyColor), t)
        invariant KingLocation(Current()) == if KingStepTried(board, allyColor, r, c, t) then (r, c) else start
        invariant OtherKingLocation(Current()) == old(OtherKingLocation(Current()))
      {
        moves' := TryKingStep(r, c, t, start, moves, moves');
      }
    }

    /** One direction of `getKingMoves`: probes the step by KING_DIRECTIONS[t] and appends it when safe. */
    method TryKingStep(r: int, c: int, t: int, ghost start: (int, int), ghost base: seq<Move>, moves: seq<Move>)
      returns (moves': seq<Move>)
      requires OnBoard(r, c) && 0 <= t < 8
      requires moves == base + StepMoves(board, SideToMove(whiteToMove), r, c, KING_DIRECTIONS, KingProbe(board, SideToMove(whiteToMove)), t)
      requires KingLocation(Current()) == if KingStepTried(board, SideToMove(whiteToMove), r, c, t) then (r, c) else start
      modifies this`whiteKingLocation, this`blackKingLocation
      ensures moves' == base + StepMoves(board, SideToMove(whiteToMove), r, c, KING_DIRECTIONS, KingProbe(board, SideToMove(whiteToMove)), t + 1)
      ensures KingLocation(Current()) == if KingStepTried(board, SideToMove(whiteToMove), r, c, t + 1) then (r, c) else start
      ensures OtherKingLocation(Current()) == old(OtherKingLocation(Current()))
    {
      var allyColor := SideToMove(whiteToMove);
      ghost var accept := KingProbe(board, allyColor);
      ghost var before := StepMoves(board, allyColor, r, c, KING_DIRECTIONS, accept, t);
      StepMovesNext(board, allyColor, r, c, KING_DIRECTIONS, accept, t);
      moves' := moves;
      var endRow, endCol := r + KING_DIRECTIONS[t].0, c + KING_DIRECTIONS[t].1;
      assert (endRow, endCol) == StepSquare(r, c, KING_DIRECTIONS, t);
      if 0 <= endRow < 8 && 0 <= endCol < 8 {
        var endPiece := board[endRow][endCol];
        if !HasColor(endPiece, allyColor) {
          var inCheck' := ProbeKingSquare(r, c, endRow, endCol);
          assert accept((endRow, endCol)) == !inCheck';
          if !inCheck' {
            AppendAssociative(base, before, [NewMove((r, c), (endRow, endCol), board, false)]);
            moves' := moves' + [NewMove((r, c), (endRow, endCol), board, false)];
          }
        }
      }
    }

    /**
     * The probe of `getKingMoves`: places the side to move's king cache on (endRow, endCol),
     * runs the detector there and puts the cache back on (r, c).
     */
    method ProbeKingSquare(r: int, c: int, endRow: int, endCol: int) returns (inCheck': bool)
      modifies this`whiteKingLocation, this`blackKingLocation
      ensures inCheck' == InCheckAt(board, endRow, endCol, SideToMove(whiteToMove))
      ensures KingLocation(Current()) == (r, c)
      ensures OtherKingLocation(Current()) == old(OtherKingLocation(Current()))
    {
      if whiteToMove {
        whiteKingLocation := (endRow, endCol);
      } else {
        blackKingLocation := (endRow, endCol);
      }
      var pins', checks';
      inCheck', pins', checks' := CheckForPinsAndChecks();
      if whiteToMove {
        whiteKingLocation := (r, c);
      } else {
        blackKingLocation := (r, c);
      }
    }

    /**
     * `getAllPossibleMoves`: the moves of every piece of the side to move, square by
     * square in row-major order, using the pin list held in `pins`. Only the king
     * generator touches the object, and only the side to move's king cache.
     */
    method GetAllPossibleMoves() returns (moves: seq<Move>)
      modifies this`whiteKingLocation, this`blackKingLocation
      ensures moves == AllPossibleMoves(old(Current()), pins)
      ensures KingLocation(Current()) == CacheAfterRows(old(Current()), 8)
      ensures OtherKingLocation(Current()) == old(OtherKingLocation(Current()))
    {
      ghost var s0 := Current();
      moves := [];
      for r := 0 to 8
        invariant moves == RowsMoves(s0, pins, r)
        invariant KingLocation(Current()) == CacheAfterRows(s0, r)
        invariant OtherKingLocation(Current()) == OtherKingLocation(s0)
      {
        ghost var before := moves;
        for c := 0 to 8
          invariant moves == before + RowMoves(s0, pins, r, c)
          invariant KingLocation(Current()) == CacheInRow(s0, r, c, CacheAfterRows(s0, r))
          invariant OtherKingLocation(Current()) == OtherKingLocation(s0)
        {
          moves := ScanSquare(s0, r, c, before, moves);
        }
      }
    }

    /** One step of the scan of `getAllPossibleMoves`: square (r, c) after the squares before it. */
    method ScanSquare(ghost s0: State, r: int, c: int, ghost before: seq<Move>, moves: seq<Move>) returns (moves': seq<Move>)
      requires OnBoard(r, c)
      requires board == s0.board && whiteToMove == s0.whiteToMove && enpassantPossible == s0.enpassantPossible
      requires moves == before + RowMoves(s0, pins, r, c)
      requires KingLocation(Current()) == CacheInRow(s0, r, c, CacheAfterRows(s0, r))
      modifies this`whiteKingLocation, this`blackKingLocation
      ensures moves' == before + RowMoves(s0, pins, r, c + 1)
      ensures KingLocation(Current()) == CacheInRow(s0, r, c + 1, CacheAfterRows(s0, r))
      ensures OtherKingLocation(Current()) == old(OtherKingLocation(Current()))
    {
      PieceMovesIgnoreCaches(s0, Current(), pins, r, c);
      AppendAssociative(before, RowMoves(s0, pins, r, c), PieceMoves(s0, pins, r, c));
      moves' := GetPieceMoves(r, c, moves);
    }

    /**
     * The dispatch of `getAllPossibleMoves` on the piece at (r, c): a piece of the side
     * to move has the generator of its kind append its moves.
     */
    method GetPieceMoves(r: int, c: int, moves: seq<Move>) returns (moves': seq<Move>)
      requires OnBoard(r, c)
      modifies this`whiteKingLocation, this`blackKingLocation
      ensures moves' == moves + PieceMoves(old(Current()), pins, r, c)
      ensures KingLocation(Current()) ==
                if board[r][c] == Occupied(SideToMove(whiteToMove), King) && KingStepTried(board, SideToMove(whiteToMove), r, c, 8)
                then (r, c) else old(KingLocation(Current()))
      ensures OtherKingLocation(Current()) == old(OtherKingLocation(Current()))
    {
      var p := board[r][c];
      moves' := moves;
      if HasColor(p, SideToMove(whiteToMove)) {
        match p.kind
        case Pawn => moves' := GetPawnMoves(r, c, moves);
        case Rook => moves' := GetRookMoves(r, c, moves);
        case Knight => moves' := GetKnightMoves(r, c, moves);
        case Bishop => moves' := GetBishopMoves(r, c, moves);
        case Queen =>
          AppendAssociative(moves, RookMoves(Current(), PinDirection(pins, r, c), r, c),
                            BishopMoves(Current(), PinDirection(pins, r, c), r, c));
          moves' := GetQueenMoves(r, c, moves);
        case King => moves' := GetKingMoves(r, c, moves);
      }
    }

    /**
     * `getValidMoves`: records the detector's result in `inCheck`, `pins` and `checks`,
     * and returns the valid moves. The board, the side to move, the log and the
     * en-passant target are untouched; the king cache of the side to move ends as
     * CacheAfterValidMoves says, which is where it was whenever it held the only allied king.
     */
    method GetValidMoves() returns (moves: seq<Move>)
      requires Valid()
      modifies this`inCheck, this`pins, this`checks, this`whiteKingLocation, this`blackKingLocation
      ensures moves == ValidMoves(old(Current()))
      ensures Detection(inCheck, pins, checks) == DetectAtKing(old(Current()))
      ensures KingLocation(Current()) == CacheAfterValidMoves(old(Current()))
      ensures OtherKingLocation(Current()) == old(OtherKingLocation(Current()))
      ensures SoleKingAtCache(old(Current())) ==> Current() == old(Current())
      ensures Valid()
    {
      ghost var s0 := Current();
      inCheck, pins, checks := CheckForPinsAndChecks();
      assert Current() == s0;
      ghost var d := Detection(inCheck, pins, checks);
      var kingRow, kingCol := KingLocation(Current()).0, KingLocation(Current()).1;
      moves := MovesForDetection(kingRow, kingCol);
      assert moves == ValidMovesFor(s0, d) && d == DetectAtKing(s0);
      assert KingLocation(Current()) == CacheAfterValidMoves(s0);
      if SoleKingAtCache(s0) {
        CacheAfterRowsUnchanged(s0, 8);
        assert KingLocation(Current()) == KingLocation(s0);
        assert whiteKingLocation == s0.whiteKingLocation && blackKingLocation == s0.blackKingLocation;
      }
    }

    /**
     * The branches of `getValidMoves` once `inCheck`, `pins` and `checks` hold the
     * detector's answer for the king on (kingRow, kingCol).
     */
    method MovesForDetection(kingRow: int, kingCol: int) returns (moves: seq<Move>)
      requires OnBoard(kingRow, kingCol) && (kingRow, kingCol) == KingLocation(Current())
      requires forall c :: c in checks ==> OnBoard(c.row, c.col)
      modifies this`whiteKingLocation, this`blackKingLocation
      ensures moves == ValidMovesFor(old(Current()), Detection(inCheck, pins, checks))
      ensures KingLocation(Current()) ==
                if inCheck && |checks| != 1 then old(KingLocation(Current())) else CacheAfterRows(old(Current()), 8)
      ensures OtherKingLocation(Current()) == old(OtherKingLocation(Current()))
    {
      moves := [];
      if inCheck {
        if |checks| == 1 {
          moves := SingleCheckMoves(kingRow, kingCol);
        } else {
          moves := GetKingMoves(kingRow, kingCol, moves);
        }
      } else {
        moves := GetAllPossibleMoves();
      }
    }

    /**
     * The single-check branch of `getValidMoves`: every pseudo-legal move, less the
     * non-king moves that neither capture the checker nor block its ray.
     */
    method SingleCheckMoves(kingRow: int, kingCol: int) returns (moves: seq<Move>)
      requires |checks| == 1 && OnBoard(checks[0].row, checks[0].col)
      modifies this`whiteKingLocation, this`blackKingLocation
      ensures moves == Filter(AllPossibleMoves(old(Current()), pins), ValidSquares(board, kingRow, kingCol, checks[0]))
      ensures KingLocation(Current()) == CacheAfterRows(old(Current()), 8)
      ensures OtherKingLocation(Current()) == old(OtherKingLocation(Current()))
    {
      moves := GetAllPossibleMoves();
      var check := checks[0];
      var validSquares := SquaresAnswering(kingRow, kingCol, check);
      AllPossibleMovesDistinct(old(Current()), pins);
      moves := RemoveUnanswered(moves, validSquares);
    }

    /**
     * The squares a non-king move may end on to answer the single check `check`: the
     * checker's square for a knight, else the squares from the king toward the checker,
     * up to and including it.
     */
    method SquaresAnswering(kingRow: int, kingCol: int, check: Check) returns (validSquares: seq<(int, int)>)
      requires OnBoard(check.row, check.col)
      ensures validSquares == ValidSquares(board, kingRow, kingCol, check)
    {
      var pieceChecking := board[check.row][check.col];
      validSquares := [];
      if IsKind(pieceChecking, Knight) {
        validSquares := [(check.row, check.col)];
      } else {
        for i := 1 to 8
          invariant validSquares + SquaresToward(kingRow, kingCol, check, i) == SquaresToward(kingRow, kingCol, check, 1)
        {
          var validSquare := (kingRow + check.dr * i, kingCol + check.dc * i);
          assert validSquare == SlideSquare(kingRow, kingCol, (check.dr, check.dc), i);
          if validSquare != (check.row, check.col) {
            AppendAssociative(validSquares, [validSquare], SquaresToward(kingRow, kingCol, check, i + 1));
          }
          validSquares := validSquares + [validSquare];
          if validSquare == (check.row, check.col) {
            break;
          }
        }
      }
    }

    /**
     * The removal pass of `getValidMoves`: walking the list from the back, every move that
     * does not move the king and does not end on one of the squares is removed with
     * `list.remove`, which deletes the first equal move. In a list without repeated moves
     * that is the move at hand, and the pass keeps exactly the answering moves.
     */
    method RemoveUnanswered(all: seq<Move>, validSquares: seq<(int, int)>) returns (moves: seq<Move>)
      ensures NoRepeatedMoves(all) ==> moves == Filter(all, validSquares)
    {
      moves := all;
      var i := |moves| - 1;
      ghost var distinct := NoRepeatedMoves(all);
      ghost var kept: seq<Move> := [];
      assert all[|all|..] == [];
      while i >= 0
        invariant -1 <= i < |all| && i < |moves|
        invariant distinct ==> kept == Filter(all[i + 1..], validSquares)
        invariant distinct ==> moves == all[..i + 1] + kept
      {
        if distinct {
          assert all[..i + 1] == all[..i] + [all[i]];
          SplitAt(all[..i], all[i], kept);
          FilterFrom(all, validSquares, i);
          assert forall k :: 0 <= k < i ==> moves[k] == all[k];
          RemoveFirstAt(moves, i);
        }
        if !IsKind(moves[i].pieceMoved, King) {
          if (moves[i].endRow, moves[i].endCol) !in validSquares {
            moves := RemoveFirst(moves, moves[i]);
          }
        }
        if distinct && Answers(all[i], validSquares) {
          AppendAssociative(all[..i], [all[i]], kept);
          kept := [all[i]] + kept;
        }
        i := i - 1;
      }
      assert distinct ==> all[0..] == all;
    }
  }
}
