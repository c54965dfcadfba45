/**
 * The pseudo-legal move generators: for each kind of piece, the moves it has from its
 * square ignoring whether the own king is left in check, except that a piece pinned to
 * its king keeps to the pin's line. Each generator is a function of the position, the
 * pin on the piece's square (if any) and the square; the engine's methods append
 * exactly these lists to their accumulator.
 */
module Generator {
  import opened Wrappers
  import opened Seqs
  import opened Pieces
  import opened Moves
  import opened Detector
  import opened Position

  const ROOK_DIRECTIONS: seq<(int, int)> := [(-1, 0), (0, -1), (1, 0), (0, 1)]
  const BISHOP_DIRECTIONS: seq<(int, int)> := [(-1, -1), (1, -1), (-1, 1), (1, 1)]
  const KING_DIRECTIONS: seq<(int, int)> :=
    [(-1, -1), (1, -1), (-1, 1), (1, 1), (-1, 0), (0, -1), (1, 0), (0, 1)]

  // ---------------------------------------------------------------------------
  // Pins.

  /**
   * The direction of the pin recorded for square (r, c), searching the pin list from
   * its end as the generators do; None when the piece there is not pinned.
   */
  function PinDirection(pins: seq<Pin>, r: int, c: int): (d: Option<(int, int)>)
    ensures d.Some? <==> exists k :: 0 <= k < |pins| && pins[k].row == r && pins[k].col == c
    ensures d.Some? ==> Pin(r, c, d.value.0, d.value.1) in pins
  {
    if pins == [] then None
    else
      var n := |pins| - 1;
      if pins[n].row == r && pins[n].col == c then Some((pins[n].dr, pins[n].dc))
      else
        var d := PinDirection(pins[..n], r, c);
        assert forall k :: 0 <= k < n ==> pins[..n][k] == pins[k];
        assert d.Some? ==> Pin(r, c, d.value.0, d.value.1) in pins by {
          if d.Some? {
            var k :| 0 <= k < n && pins[..n][k] == Pin(r, c, d.value.0, d.value.1);
            assert pins[k] == pins[..n][k];
          }
        }
        d
  }

  /** A piece with this pin may move along d: it is not pinned, or d is the pin's line (either way along it). */
  predicate PinAllows(pin: Option<(int, int)>, d: (int, int)) {
    pin.None? || pin.value == d || pin.value == (-d.0, -d.1)
  }

  /** The square k steps from (r, c) in direction d. */
  function SlideSquare(r: int, c: int, d: (int, int), k: int): (int, int) {
    (r + d.0 * k, c + d.1 * k)
  }

  /** A unit step other than (0, 0): the shape of every ray direction. */
  predicate UnitStep(d: (int, int)) {
    -1 <= d.0 <= 1 && -1 <= d.1 <= 1 && d != (0, 0)
  }

  /** Along a unit step, different distances reach different squares. */
  lemma StepsDistinct(kr: int, kc: int, d: (int, int), i: int, i0: int)
    requires UnitStep(d) && i != i0
    ensures SlideSquare(kr, kc, d, i) != SlideSquare(kr, kc, d, i0)
  {
    if d.0 != 0 {
      assert d.0 * i != d.0 * i0 by {
        if d.0 == 1 {
        } else {
          assert d.0 == -1;
        }
      }
    } else {
      assert d.1 * i != d.1 * i0 by {
        if d.1 == 1 {
        } else {
          assert d.1 == -1;
        }
      }
    }
  }

  /** (er, ec) lies on the line through (r, c) with direction d, and is not (r, c) itself. */
  predicate OnLine(r: int, c: int, d: (int, int), er: int, ec: int) {
    exists k :: -8 < k < 8 && k != 0 && SlideSquare(r, c, d, k) == (er, ec)
  }

  lemma OnLineAt(r: int, c: int, d: (int, int), k: int, er: int, ec: int)
    requires -8 < k < 8 && k != 0 && SlideSquare(r, c, d, k) == (er, ec)
    ensures OnLine(r, c, d, er, ec)
  {
  }

  // ---------------------------------------------------------------------------
  // Pawns.

  /** The row a pawn of colour c starts on, from which it may advance two squares. */
  function PawnHome(c: Color): int {
    if c == White then 6 else 1
  }

  /** One-square advance onto an empty square, then a two-square advance from the home row. */
  function PawnAdvances(b: Board, color: Color, pin: Option<(int, int)>, r: int, c: int): seq<Move>
    requires OnBoard(r, c) && OnBoard(r + PawnForward(color), c)
  {
    var f := PawnForward(color);
    if b[r + f][c] == Empty && (pin.None? || pin.value == (f, 0)) then
      [NewMove((r, c), (r + f, c), b, false)]
      + (if r == PawnHome(color) && b[r + 2 * f][c] == Empty then [NewMove((r, c), (r + 2 * f, c), b, false)] else [])
    else []
  }

  /**
   * The diagonal capture towards column c + dc: an enemy piece there may be taken when
   * the pin allows exactly that direction; otherwise, if the square is the en-passant
   * target, an en-passant capture, whatever the pin.
   */
  function PawnCapture(b: Board, color: Color, pin: Option<(int, int)>, ep: Option<(int, int)>, r: int, c: int, dc: int): seq<Move>
    requires OnBoard(r, c) && OnBoard(r + PawnForward(color), c)
  {
    var f := PawnForward(color);
    var sq := (r + f, c + dc);
    if !OnBoard(sq.0, sq.1) then []
    else if HasColor(b[sq.0][sq.1], Opponent(color)) then
      if pin.None? || pin.value == (f, dc) then [NewMove((r, c), sq, b, false)] else []
    else if ep == Some(sq) then [NewMove((r, c), sq, b, true)]
    else []
  }

  /** The moves of the side to move's pawn on (r, c): advances, then the left and the right capture. */
  function PawnMoves(s: State, pin: Option<(int, int)>, r: int, c: int): seq<Move>
    requires OnBoard(r, c)
  {
    var color := SideToMove(s.whiteToMove);
    if !OnBoard(r + PawnForward(color), c) then []
    else
      PawnAdvances(s.board, color, pin, r, c)
      + PawnCapture(s.board, color, pin, s.enpassantPossible, r, c, -1)
      + PawnCapture(s.board, color, pin, s.enpassantPossible, r, c, 1)
  }

  // ---------------------------------------------------------------------------
  // Rooks, bishops and queens.

  /** The slide along d from distance i on: empty squares, up to and including the first enemy. */
  function SlideRay(b: Board, enemy: Color, r: int, c: int, d: (int, int), i: int): seq<Move>
    requires OnBoard(r, c) && 1 <= i <= 8
    decreases 8 - i
  {
    if i == 8 then []
    else
      var sq := SlideSquare(r, c, d, i);
      if !OnBoard(sq.0, sq.1) then []
      else if b[sq.0][sq.1] == Empty then [NewMove((r, c), sq, b, false)] + SlideRay(b, enemy, r, c, d, i + 1)
      else if HasColor(b[sq.0][sq.1], enemy) then [NewMove((r, c), sq, b, false)]
      else []
  }

  /** The slide along d, or nothing when the pin does not allow moving along d. */
  function SlideLine(b: Board, enemy: Color, pin: Option<(int, int)>, r: int, c: int, d: (int, int)): seq<Move>
    requires OnBoard(r, c)
  {
    if PinAllows(pin, d) then SlideRay(b, enemy, r, c, d, 1) else []
  }

  /** The slides along dirs[0..n-1] that the pin allows, in order. */
  function SlideMoves(b: Board, enemy: Color, pin: Option<(int, int)>, r: int, c: int, dirs: seq<(int, int)>, n: int): seq<Move>
    requires OnBoard(r, c) && 0 <= n <= |dirs|
  {
    if n == 0 then []
    else
      SlideMoves(b, enemy, pin, r, c, dirs, n - 1)
      + SlideLine(b, enemy, pin, r, c, dirs[n - 1])
  }

  function RookMoves(s: State, pin: Option<(int, int)>, r: int, c: int): seq<Move>
    requires OnBoard(r, c)
  {
    SlideMoves(s.board, Opponent(SideToMove(s.whiteToMove)), pin, r, c, ROOK_DIRECTIONS, 4)
  }

  function BishopMoves(s: State, pin: Option<(int, int)>, r: int, c: int): seq<Move>
    requires OnBoard(r, c)
  {
    SlideMoves(s.board, Opponent(SideToMove(s.whiteToMove)), pin, r, c, BISHOP_DIRECTIONS, 4)
  }

  // ---------------------------------------------------------------------------
  // Knights and kings.

  /** The square offset t leads to from (r, c). */
  function StepSquare(r: int, c: int, offsets: seq<(int, int)>, t: int): (int, int)
    requires 0 <= t < |offsets|
  {
    (r + offsets[t].0, c + offsets[t].1)
  }

  /** Offset t leads onto the board, onto a square without an allied piece that accept admits. */
  predicate StepAllowed(b: Board, ally: Color, r: int, c: int, offsets: seq<(int, int)>, accept: ((int, int)) -> bool, t: int)
    requires 0 <= t < |offsets|
  {
    var sq := StepSquare(r, c, offsets, t);
    OnBoard(sq.0, sq.1) && !HasColor(b[sq.0][sq.1], ally) && accept(sq)
  }

  /** The single-step moves by offsets[0..n-1] that StepAllowed admits, in offset order. */
  function StepMoves(b: Board, ally: Color, r: int, c: int, offsets: seq<(int, int)>, accept: ((int, int)) -> bool, n: int): seq<Move>
    requires OnBoard(r, c) && 0 <= n <= |offsets|
  {
    if n == 0 then []
    else
      StepMoves(b, ally, r, c, offsets, accept, n - 1)
      + (if StepAllowed(b, ally, r, c, offsets, accept, n - 1)
         then [NewMove((r, c), StepSquare(r, c, offsets, n - 1), b, false)] else [])
  }

  /** What the knight generator asks of a destination: nothing, but a pinned knight admits none. */
  function KnightFree(pinned: bool): ((int, int)) -> bool {
    (sq: (int, int)) => !pinned
  }

  /** Knight jumps onto squares without an allied piece; none at all when the knight is pinned. */
  function KnightMoves(b: Board, ally: Color, pinned: bool, r: int, c: int): seq<Move>
    requires OnBoard(r, c)
  {
    StepMoves(b, ally, r, c, KNIGHT_OFFSETS, KnightFree(pinned), 8)
  }

  /**
   * What the king generator asks of a destination: whether the detector, with the king
   * imagined on that square (the board itself unchanged), reports no check.
   */
  function KingProbe(b: Board, ally: Color): ((int, int)) -> bool {
    (sq: (int, int)) => !InCheckAt(b, sq.0, sq.1, ally)
  }

  /** King steps onto squares without an allied piece where it would not be in check. */
  function KingMoves(b: Board, ally: Color, r: int, c: int): seq<Move>
    requires OnBoard(r, c)
  {
    StepMoves(b, ally, r, c, KING_DIRECTIONS, KingProbe(b, ally), 8)
  }

  // ---------------------------------------------------------------------------
  // All pseudo-legal moves.

  /** The moves of the piece on (r, c) if it belongs to the side to move, by its kind. */
  function PieceMoves(s: State, pins: seq<Pin>, r: int, c: int): seq<Move>
    requires OnBoard(r, c)
  {
    var p := s.board[r][c];
    var side := SideToMove(s.whiteToMove);
    if !HasColor(p, side) then []
    else
      var pin := PinDirection(pins, r, c);
      match p.kind
      case Pawn => PawnMoves(s, pin, r, c)
      case Rook => RookMoves(s, pin, r, c)
      case Knight => KnightMoves(s.board, side, pin.Some?, r, c)
      case Bishop => BishopMoves(s, pin, r, c)
      case Queen => RookMoves(s, pin, r, c) + BishopMoves(s, pin, r, c)
      case King => KingMoves(s.board, side, r, c)
  }

  /** A king's moves are its king steps. */
  lemma KingPieceMoves(s: State, pins: seq<Pin>, r: int, c: int, m: Move)
    requires OnBoard(r, c) && m in PieceMoves(s, pins, r, c) && IsKind(s.board[r][c], King)
    ensures m in KingMoves(s.board, SideToMove(s.whiteToMove), r, c)
  {
  }

  /** The moves of the first n squares of row r, left to right. */
  function RowMoves(s: State, pins: seq<Pin>, r: int, n: int): seq<Move>
    requires 0 <= r < 8 && 0 <= n <= 8
  {
    if n == 0 then [] else RowMoves(s, pins, r, n - 1) + PieceMoves(s, pins, r, n - 1)
  }

  /** The moves of the first n rows, top to bottom. */
  function RowsMoves(s: State, pins: seq<Pin>, n: int): seq<Move>
    requires 0 <= n <= 8
  {
    if n == 0 then [] else RowsMoves(s, pins, n - 1) + RowMoves(s, pins, n - 1, 8)
  }

  /** Every pseudo-legal move of the side to move, square by square. */
  function AllPossibleMoves(s: State, pins: seq<Pin>): seq<Move> {
    RowsMoves(s, pins, 8)
  }

  // ---------------------------------------------------------------------------
  // What the generators produce.

  /** Square l on the slide along d is on the board and empty. */
  predicate EmptyAt(b: Board, r: int, c: int, d: (int, int), l: int) {
    var sq := SlideSquare(r, c, d, l);
    OnBoard(sq.0, sq.1) && b[sq.0][sq.1] == Empty
  }

  /**
   * Distance k is a destination of the slide along d started at distance lo: every
   * square before it is empty, and it is on the board and empty or held by the enemy.
   */
  predicate SlideTarget(b: Board, enemy: Color, r: int, c: int, d: (int, int), lo: int, k: int) {
    var sq := SlideSquare(r, c, d, k);
    lo <= k < 8 && (forall l :: lo <= l < k ==> EmptyAt(b, r, c, d, l))
    && OnBoard(sq.0, sq.1) && (b[sq.0][sq.1] == Empty || HasColor(b[sq.0][sq.1], enemy))
  }

  /** The slide from distance i on yields exactly one move to each of its destinations. */
  lemma {:induction false} SlideRayMembers(b: Board, enemy: Color, r: int, c: int, d: (int, int), i: int, m: Move)
    requires OnBoard(r, c) && 1 <= i <= 8
    ensures m in SlideRay(b, enemy, r, c, d, i) <==>
              exists k :: SlideTarget(b, enemy, r, c, d, i, k) && m == NewMove((r, c), SlideSquare(r, c, d, k), b, false)
    decreases 8 - i
  {
    if i < 8 {
      var sq := SlideSquare(r, c, d, i);
      if OnBoard(sq.0, sq.1) && b[sq.0][sq.1] == Empty {
        SlideRayMembers(b, enemy, r, c, d, i + 1, m);
        assert SlideTarget(b, enemy, r, c, d, i, i);
        assert EmptyAt(b, r, c, d, i);
        forall k | SlideTarget(b, enemy, r, c, d, i + 1, k)
          ensures SlideTarget(b, enemy, r, c, d, i, k)
        {
        }
        forall k | SlideTarget(b, enemy, r, c, d, i, k) && k != i
          ensures SlideTarget(b, enemy, r, c, d, i + 1, k)
        {
        }
      } else {
        assert !EmptyAt(b, r, c, d, i);
      }
    }
  }

  /** The slides along dirs[0..n-1], one part per direction. */
  function SlideLines(b: Board, enemy: Color, pin: Option<(int, int)>, r: int, c: int, dirs: seq<(int, int)>, n: int): (ls: seq<seq<Move>>)
    requires OnBoard(r, c) && 0 <= n <= |dirs|
    ensures |ls| == n && forall j :: 0 <= j < n ==> ls[j] == SlideLine(b, enemy, pin, r, c, dirs[j])
  {
    if n == 0 then [] else SlideLines(b, enemy, pin, r, c, dirs, n - 1) + [SlideLine(b, enemy, pin, r, c, dirs[n - 1])]
  }

  lemma {:induction false} SlideMovesConcat(b: Board, enemy: Color, pin: Option<(int, int)>, r: int, c: int, dirs: seq<(int, int)>, n: int)
    requires OnBoard(r, c) && 0 <= n <= |dirs|
    ensures SlideMoves(b, enemy, pin, r, c, dirs, n) == Concat(SlideLines(b, enemy, pin, r, c, dirs, n))
  {
    if n > 0 {
      SlideMovesConcat(b, enemy, pin, r, c, dirs, n - 1);
      ConcatSnoc(SlideLines(b, enemy, pin, r, c, dirs, n - 1), SlideLine(b, enemy, pin, r, c, dirs[n - 1]));
    }
  }

  lemma SlideMovesMembers(b: Board, enemy: Color, pin: Option<(int, int)>, r: int, c: int,
                          dirs: seq<(int, int)>, n: int, m: Move)
    requires OnBoard(r, c) && 0 <= n <= |dirs|
    ensures m in SlideMoves(b, enemy, pin, r, c, dirs, n) <==>
              exists j :: 0 <= j < n && m in SlideLine(b, enemy, pin, r, c, dirs[j])
  {
    SlideMovesConcat(b, enemy, pin, r, c, dirs, n);
    ConcatMembers(SlideLines(b, enemy, pin, r, c, dirs, n), m);
  }

  /**
   * Rook and bishop destinations, both ways: a move is generated exactly when it runs
   * along one of the piece's directions that the pin allows, over empty squares only,
   * onto an empty or enemy-held square; friendly squares are never targets.
   */
  lemma SlideMovesSpec(b: Board, enemy: Color, pin: Option<(int, int)>, r: int, c: int, dirs: seq<(int, int)>, m: Move)
    requires OnBoard(r, c)
    ensures m in SlideMoves(b, enemy, pin, r, c, dirs, |dirs|) <==>
              exists j, k :: 0 <= j < |dirs| && PinAllows(pin, dirs[j]) && SlideTarget(b, enemy, r, c, dirs[j], 1, k)
                             && m == NewMove((r, c), SlideSquare(r, c, dirs[j], k), b, false)
  {
    SlideMovesMembers(b, enemy, pin, r, c, dirs, |dirs|, m);
    forall j | 0 <= j < |dirs|
      ensures m in SlideLine(b, enemy, pin, r, c, dirs[j]) <==>
                PinAllows(pin, dirs[j]) && exists k :: SlideTarget(b, enemy, r, c, dirs[j], 1, k) && m == NewMove((r, c), SlideSquare(r, c, dirs[j], k), b, false)
    {
      SlideRayMembers(b, enemy, r, c, dirs[j], 1, m);
    }
  }

  /** A square k steps along a direction the pin allows lies on the pin's line. */
  lemma AlongPinLine(r: int, c: int, d: (int, int), e: (int, int), k: int)
    requires PinAllows(Some(d), e) && 1 <= k < 8
    ensures OnLine(r, c, d, SlideSquare(r, c, e, k).0, SlideSquare(r, c, e, k).1)
  {
    if d == e {
      assert SlideSquare(r, c, d, k) == SlideSquare(r, c, e, k);
    } else {
      assert (-e.0) * (-k) == e.0 * k && (-e.1) * (-k) == e.1 * k;
      assert SlideSquare(r, c, d, -k) == SlideSquare(r, c, e, k);
    }
  }

  /** A slide ends 1..7 steps along its direction. */
  lemma SlideRayEnds(b: Board, enemy: Color, r: int, c: int, e: (int, int), m: Move)
    requires OnBoard(r, c) && m in SlideRay(b, enemy, r, c, e, 1)
    ensures exists k :: 1 <= k < 8 && (m.endRow, m.endCol) == SlideSquare(r, c, e, k)
  {
    SlideRayMembers(b, enemy, r, c, e, 1, m);
    var k :| SlideTarget(b, enemy, r, c, e, 1, k) && m == NewMove((r, c), SlideSquare(r, c, e, k), b, false);
    assert (m.endRow, m.endCol) == SlideSquare(r, c, e, k);
  }

  /** A pinned slider stays on the line of its pin. */
  lemma SlideMovesConfined(b: Board, enemy: Color, d: (int, int), r: int, c: int, dirs: seq<(int, int)>, m: Move)
    requires OnBoard(r, c) && m in SlideMoves(b, enemy, Some(d), r, c, dirs, |dirs|)
    ensures OnLine(r, c, d, m.endRow, m.endCol)
  {
    SlideMovesMembers(b, enemy, Some(d), r, c, dirs, |dirs|, m);
    var j :| 0 <= j < |dirs| && m in SlideLine(b, enemy, Some(d), r, c, dirs[j]);
    var e := dirs[j];
    SlideRayEnds(b, enemy, r, c, e, m);
    var k :| 1 <= k < 8 && (m.endRow, m.endCol) == SlideSquare(r, c, e, k);
    AlongPinLine(r, c, d, e, k);
  }

  lemma {:induction false} StepMovesMembers(b: Board, ally: Color, r: int, c: int, offsets: seq<(int, int)>,
                                            accept: ((int, int)) -> bool, n: int, m: Move)
    requires OnBoard(r, c) && 0 <= n <= |offsets|
    ensures m in StepMoves(b, ally, r, c, offsets, accept, n) <==>
              exists t :: 0 <= t < n && StepAllowed(b, ally, r, c, offsets, accept, t)
                          && m == NewMove((r, c), StepSquare(r, c, offsets, t), b, false)
  {
    if n > 0 {
      StepMovesMembers(b, ally, r, c, offsets, accept, n - 1, m);
    }
  }

  /** One more offset either appends its move, when StepAllowed admits it, or adds nothing. */
  lemma StepMovesNext(b: Board, ally: Color, r: int, c: int, offsets: seq<(int, int)>,
                      accept: ((int, int)) -> bool, t: int)
    requires OnBoard(r, c) && 0 <= t < |offsets|
    ensures StepAllowed(b, ally, r, c, offsets, accept, t) ==>
              StepMoves(b, ally, r, c, offsets, accept, t + 1)
              == StepMoves(b, ally, r, c, offsets, accept, t) + [NewMove((r, c), StepSquare(r, c, offsets, t), b, false)]
    ensures !StepAllowed(b, ally, r, c, offsets, accept, t) ==>
              StepMoves(b, ally, r, c, offsets, accept, t + 1) == StepMoves(b, ally, r, c, offsets, accept, t)
  {
  }

  /**
   * A step move is the move by one of the offsets, t, onto an on-board square without an
   * allied piece that accept admits.
   */
  lemma StepMovesShape(b: Board, ally: Color, r: int, c: int, offsets: seq<(int, int)>,
                       accept: ((int, int)) -> bool, m: Move) returns (t: int)
    requires OnBoard(r, c) && m in StepMoves(b, ally, r, c, offsets, accept, |offsets|)
    ensures 0 <= t < |offsets| && (m.endRow, m.endCol) == StepSquare(r, c, offsets, t)
    ensures OnBoardMove(m) && (m.startRow, m.startCol) == (r, c) && m.pieceMoved == b[r][c] && !m.isEnpassantMove
    ensures !HasColor(b[m.endRow][m.endCol], ally) && accept((m.endRow, m.endCol))
  {
    StepMovesMembers(b, ally, r, c, offsets, accept, |offsets|, m);
    t :| 0 <= t < |offsets| && StepAllowed(b, ally, r, c, offsets, accept, t)
         && m == NewMove((r, c), StepSquare(r, c, offsets, t), b, false);
  }

  /** The king may step in direction t: onto an on-board square without an allied piece, where it would not be in check. */
  predicate KingStepSafe(b: Board, ally: Color, r: int, c: int, t: int)
    requires 0 <= t < 8
  {
    var sq := StepSquare(r, c, KING_DIRECTIONS, t);
    OnBoard(sq.0, sq.1) && !HasColor(b[sq.0][sq.1], ally) && !InCheckAt(b, sq.0, sq.1, ally)
  }

  /** The king's directions are the eight unit steps. */
  lemma KingDirectionsAreSteps(t: int)
    requires 0 <= t < 8
    ensures -1 <= KING_DIRECTIONS[t].0 <= 1 && -1 <= KING_DIRECTIONS[t].1 <= 1
    ensures KING_DIRECTIONS[t] != (0, 0)
  {
  }

  /**
   * King safety: every king move goes one step onto an on-board square without an
   * allied piece on which the detector reports no check.
   */
  lemma KingMovesSafe(b: Board, ally: Color, r: int, c: int, m: Move)
    requires OnBoard(r, c) && m in KingMoves(b, ally, r, c)
    ensures OnBoardMove(m) && (m.startRow, m.startCol) == (r, c) && m.pieceMoved == b[r][c] && !m.isEnpassantMove
    ensures Abs(m.endRow - r) <= 1 && Abs(m.endCol - c) <= 1 && (m.endRow, m.endCol) != (r, c)
    ensures !HasColor(b[m.endRow][m.endCol], ally) && !InCheckAt(b, m.endRow, m.endCol, ally)
  {
    var t := StepMovesShape(b, ally, r, c, KING_DIRECTIONS, KingProbe(b, ally), m);
    KingDirectionsAreSteps(t);
    var d := KING_DIRECTIONS[t];
    assert m.endRow == r + d.0 && m.endCol == c + d.1;
    assert KingProbe(b, ally)((m.endRow, m.endCol)) == !InCheckAt(b, m.endRow, m.endCol, ally);
  }

  /** The converse: every safe king step is generated. */
  lemma KingMovesComplete(b: Board, ally: Color, r: int, c: int, t: int)
    requires OnBoard(r, c) && 0 <= t < 8 && KingStepSafe(b, ally, r, c, t)
    ensures NewMove((r, c), StepSquare(r, c, KING_DIRECTIONS, t), b, false) in KingMoves(b, ally, r, c)
  {
    StepMovesMembers(b, ally, r, c, KING_DIRECTIONS, KingProbe(b, ally), 8, NewMove((r, c), StepSquare(r, c, KING_DIRECTIONS, t), b, false));
    assert StepAllowed(b, ally, r, c, KING_DIRECTIONS, KingProbe(b, ally), t);
  }

  /** Knight destinations, both ways: jumps onto on-board squares without an allied piece, unless the knight is pinned. */
  lemma KnightMovesSpec(b: Board, ally: Color, pinned: bool, r: int, c: int, m: Move)
    requires OnBoard(r, c)
    ensures m in KnightMoves(b, ally, pinned, r, c) <==>
              !pinned && exists t :: 0 <= t < 8 && OnBoard(StepSquare(r, c, KNIGHT_OFFSETS, t).0, StepSquare(r, c, KNIGHT_OFFSETS, t).1)
                                     && !HasColor(b[StepSquare(r, c, KNIGHT_OFFSETS, t).0][StepSquare(r, c, KNIGHT_OFFSETS, t).1], ally)
                                     && m == NewMove((r, c), StepSquare(r, c, KNIGHT_OFFSETS, t), b, false)
  {
    StepMovesMembers(b, ally, r, c, KNIGHT_OFFSETS, KnightFree(pinned), 8, m);
  }

  /** A pinned knight generates no move at all. */
  lemma PinnedKnightStays(b: Board, ally: Color, r: int, c: int)
    requires OnBoard(r, c)
    ensures KnightMoves(b, ally, true, r, c) == []
  {
    var ms := KnightMoves(b, ally, true, r, c);
    if ms != [] {
      KnightMovesSpec(b, ally, true, r, c, ms[0]);
    }
  }

  /**
   * The shape of a pawn move: it leaves (r, c) one row forward (or two from the home
   * row, straight ahead), never onto an allied piece except by en passant; a straight
   * advance crosses and lands on empty squares, a diagonal move other than en passant
   * lands on an enemy piece, and an en-passant capture lands on the en-passant target;
   * a pawn with a pin moves, except when capturing en passant, exactly in the pin's
   * direction, and so keeps to the pin's line.
   */
  predicate PawnMoveShape(b: Board, color: Color, pin: Option<(int, int)>, ep: Option<(int, int)>, r: int, c: int, m: Move)
    requires OnBoard(r, c)
  {
    var f := PawnForward(color);
    && OnBoardMove(m) && (m.startRow, m.startCol) == (r, c) && m.pieceMoved == b[r][c]
    && ((m.endRow == r + f && c - 1 <= m.endCol <= c + 1)
        || (r == PawnHome(color) && m.endRow == r + 2 * f && m.endCol == c))
    && (m.isEnpassantMove ==> ep == Some((m.endRow, m.endCol)) && m.endCol != c)
    && (!m.isEnpassantMove ==> !HasColor(b[m.endRow][m.endCol], color))
    && (!m.isEnpassantMove && m.endCol == c ==> b[r + f][c] == Empty && b[m.endRow][m.endCol] == Empty)
    && (!m.isEnpassantMove && m.endCol != c ==> HasColor(b[m.endRow][m.endCol], Opponent(color)))
    && (pin.Some? && !m.isEnpassantMove ==> pin.value == (f, m.endCol - c))
    && (pin.Some? && !m.isEnpassantMove ==> OnLine(r, c, pin.value, m.endRow, m.endCol))
  }

  lemma PawnAdvancesShape(b: Board, color: Color, pin: Option<(int, int)>, ep: Option<(int, int)>, r: int, c: int, m: Move)
    requires OnBoard(r, c) && OnBoard(r + PawnForward(color), c)
    requires m in PawnAdvances(b, color, pin, r, c)
    ensures PawnMoveShape(b, color, pin, ep, r, c, m)
  {
    var f := PawnForward(color);
    if pin.Some? {
      if m.endRow == r + f {
        OnLineAt(r, c, pin.value, 1, m.endRow, m.endCol);
      } else {
        OnLineAt(r, c, pin.value, 2, m.endRow, m.endCol);
      }
    }
  }

  lemma PawnCaptureShape(b: Board, color: Color, pin: Option<(int, int)>, ep: Option<(int, int)>, r: int, c: int, dc: int, m: Move)
    requires OnBoard(r, c) && OnBoard(r + PawnForward(color), c) && (dc == -1 || dc == 1)
    requires m in PawnCapture(b, color, pin, ep, r, c, dc)
    ensures PawnMoveShape(b, color, pin, ep, r, c, m)
  {
    if pin.Some? && !m.isEnpassantMove {
      OnLineAt(r, c, pin.value, 1, m.endRow, m.endCol);
    }
  }

  /**
   * The advance by k squares the engine allows: one square forward, or two from the home
   * row, onto an empty square with the square in front empty too; a pinned pawn advances
   * only when its pin points straight forward.
   */
  predicate PawnAdvanceAllowed(b: Board, color: Color, pin: Option<(int, int)>, r: int, c: int, k: int) {
    var f := PawnForward(color);
    && (k == 1 || (k == 2 && r == PawnHome(color)))
    && OnBoard(r + f, c) && OnBoard(r + k * f, c)
    && b[r + f][c] == Empty && b[r + k * f][c] == Empty
    && (pin.None? || pin.value == (f, 0))
  }

  /**
   * The normal capture towards column c + dc the engine allows: an enemy piece stands one
   * square diagonally forward, and a pinned pawn's pin points exactly that way.
   */
  predicate PawnCaptureAllowed(b: Board, color: Color, pin: Option<(int, int)>, r: int, c: int, dc: int) {
    var f := PawnForward(color);
    && (dc == -1 || dc == 1)
    && OnBoard(r + f, c) && OnBoard(r + f, c + dc)
    && HasColor(b[r + f][c + dc], Opponent(color))
    && (pin.None? || pin.value == (f, dc))
  }

  /**
   * The en-passant capture towards column c + dc the engine allows: the square one
   * diagonally forward holds no enemy piece and is the en-passant target. The pin is not
   * consulted.
   */
  predicate PawnEnPassantAllowed(b: Board, color: Color, ep: Option<(int, int)>, r: int, c: int, dc: int) {
    var f := PawnForward(color);
    && (dc == -1 || dc == 1)
    && OnBoard(r + f, c) && OnBoard(r + f, c + dc)
    && !HasColor(b[r + f][c + dc], Opponent(color))
    && ep == Some((r + f, c + dc))
  }

  lemma PawnAdvancesMembers(b: Board, color: Color, pin: Option<(int, int)>, r: int, c: int, m: Move)
    requires OnBoard(r, c) && OnBoard(r + PawnForward(color), c)
    ensures m in PawnAdvances(b, color, pin, r, c) <==>
              exists k :: PawnAdvanceAllowed(b, color, pin, r, c, k)
                          && m == NewMove((r, c), (r + k * PawnForward(color), c), b, false)
  {
    var f := PawnForward(color);
    if m in PawnAdvances(b, color, pin, r, c) {
      if m.endRow == r + f {
        assert PawnAdvanceAllowed(b, color, pin, r, c, 1);
      } else {
        assert PawnAdvanceAllowed(b, color, pin, r, c, 2);
      }
    }
  }

  lemma PawnCaptureMembers(b: Board, color: Color, pin: Option<(int, int)>, ep: Option<(int, int)>, r: int, c: int, dc: int, m: Move)
    requires OnBoard(r, c) && OnBoard(r + PawnForward(color), c) && (dc == -1 || dc == 1)
    ensures m in PawnCapture(b, color, pin, ep, r, c, dc) <==>
              (PawnCaptureAllowed(b, color, pin, r, c, dc)
               && m == NewMove((r, c), (r + PawnForward(color), c + dc), b, false))
              || (PawnEnPassantAllowed(b, color, ep, r, c, dc)
                  && m == NewMove((r, c), (r + PawnForward(color), c + dc), b, true))
  {
  }

  lemma PawnCapturesMembers(b: Board, color: Color, pin: Option<(int, int)>, ep: Option<(int, int)>, r: int, c: int, m: Move)
    requires OnBoard(r, c) && OnBoard(r + PawnForward(color), c)
    ensures m in PawnCapture(b, color, pin, ep, r, c, -1) + PawnCapture(b, color, pin, ep, r, c, 1) <==>
              (exists dc :: PawnCaptureAllowed(b, color, pin, r, c, dc)
                            && m == NewMove((r, c), (r + PawnForward(color), c + dc), b, false))
              || (exists dc :: PawnEnPassantAllowed(b, color, ep, r, c, dc)
                               && m == NewMove((r, c), (r + PawnForward(color), c + dc), b, true))
  {
    PawnCaptureMembers(b, color, pin, ep, r, c, -1, m);
    PawnCaptureMembers(b, color, pin, ep, r, c, 1, m);
    forall dc | PawnCaptureAllowed(b, color, pin, r, c, dc) || PawnEnPassantAllowed(b, color, ep, r, c, dc)
      ensures dc == -1 || dc == 1
    {
    }
  }

  /**
   * Pawn destinations, both ways: a pawn move is generated exactly when it is an allowed
   * advance, an allowed capture of an enemy piece, or an allowed en-passant capture.
   */
  lemma PawnMovesSpec(s: State, pin: Option<(int, int)>, r: int, c: int, m: Move)
    requires OnBoard(r, c)
    ensures var b, color := s.board, SideToMove(s.whiteToMove);
            m in PawnMoves(s, pin, r, c) <==>
              (exists k :: PawnAdvanceAllowed(b, color, pin, r, c, k)
                           && m == NewMove((r, c), (r + k * PawnForward(color), c), b, false))
              || (exists dc :: PawnCaptureAllowed(b, color, pin, r, c, dc)
                               && m == NewMove((r, c), (r + PawnForward(color), c + dc), b, false))
              || (exists dc :: PawnEnPassantAllowed(b, color, s.enpassantPossible, r, c, dc)
                               && m == NewMove((r, c), (r + PawnForward(color), c + dc), b, true))
  {
    var b, color, ep := s.board, SideToMove(s.whiteToMove), s.enpassantPossible;
    if OnBoard(r + PawnForward(color), c) {
      var advances := PawnAdvances(b, color, pin, r, c);
      var captures := PawnCapture(b, color, pin, ep, r, c, -1) + PawnCapture(b, color, pin, ep, r, c, 1);
      assert PawnMoves(s, pin, r, c) == advances + captures;
      PawnAdvancesMembers(b, color, pin, r, c, m);
      PawnCapturesMembers(b, color, pin, ep, r, c, m);
    }
  }

  /** Every move of the pawn generator has the shape of a pawn move. */
  lemma PawnMovesShape(s: State, pin: Option<(int, int)>, r: int, c: int, m: Move)
    requires OnBoard(r, c) && m in PawnMoves(s, pin, r, c)
    ensures PawnMoveShape(s.board, SideToMove(s.whiteToMove), pin, s.enpassantPossible, r, c, m)
  {
    var color := SideToMove(s.whiteToMove);
    var ep := s.enpassantPossible;
    if m in PawnAdvances(s.board, color, pin, r, c) {
      PawnAdvancesShape(s.board, color, pin, ep, r, c, m);
    } else if m in PawnCapture(s.board, color, pin, ep, r, c, -1) {
      PawnCaptureShape(s.board, color, pin, ep, r, c, -1, m);
    } else {
      PawnCaptureShape(s.board, color, pin, ep, r, c, 1, m);
    }
  }

  /** A slide starts on the slider's square and ends on the board, on an empty or enemy-held square. */
  lemma SlideMovesShape(b: Board, enemy: Color, pin: Option<(int, int)>, r: int, c: int, dirs: seq<(int, int)>, m: Move)
    requires OnBoard(r, c) && m in SlideMoves(b, enemy, pin, r, c, dirs, |dirs|)
    ensures OnBoardMove(m) && (m.startRow, m.startCol) == (r, c) && m.pieceMoved == b[r][c] && !m.isEnpassantMove
    ensures b[m.endRow][m.endCol] == Empty || HasColor(b[m.endRow][m.endCol], enemy)
  {
    SlideMovesSpec(b, enemy, pin, r, c, dirs, m);
    var j, k :| 0 <= j < |dirs| && PinAllows(pin, dirs[j]) && SlideTarget(b, enemy, r, c, dirs[j], 1, k)
                && m == NewMove((r, c), SlideSquare(r, c, dirs[j], k), b, false);
  }

  /**
   * Every generated move leaves (r, c) with the side to move's piece standing there,
   * lands on the board, and, unless it captures en passant (which only pawns do), not
   * on an allied piece.
   */
  lemma PieceMovesShape(s: State, pins: seq<Pin>, r: int, c: int, m: Move)
    requires OnBoard(r, c) && m in PieceMoves(s, pins, r, c)
    ensures OnBoardMove(m) && (m.startRow, m.startCol) == (r, c) && m.pieceMoved == s.board[r][c]
    ensures HasColor(m.pieceMoved, SideToMove(s.whiteToMove))
    ensures m.isEnpassantMove ==> IsKind(m.pieceMoved, Pawn)
    ensures !m.isEnpassantMove ==> !HasColor(s.board[m.endRow][m.endCol], SideToMove(s.whiteToMove))
  {
    var p := s.board[r][c];
    var side := SideToMove(s.whiteToMove);
    var pin := PinDirection(pins, r, c);
    var enemy := Opponent(side);
    match p.kind
    case Pawn =>
      PawnMovesShape(s, pin, r, c, m);
    case Rook =>
      SlideMovesShape(s.board, enemy, pin, r, c, ROOK_DIRECTIONS, m);
    case Knight =>
      KnightMovesSpec(s.board, side, pin.Some?, r, c, m);
    case Bishop =>
      SlideMovesShape(s.board, enemy, pin, r, c, BISHOP_DIRECTIONS, m);
    case Queen =>
      if m in RookMoves(s, pin, r, c) {
        SlideMovesShape(s.board, enemy, pin, r, c, ROOK_DIRECTIONS, m);
      } else {
        SlideMovesShape(s.board, enemy, pin, r, c, BISHOP_DIRECTIONS, m);
      }
    case King =>
      KingMovesSafe(s.board, side, r, c, m);
  }

  /**
   * Pin confinement: a pinned piece (other than the king, which is never pinned) moves
   * only along the line of its pin, except for an en-passant capture, which ignores the pin.
   */
  lemma PinnedPieceConfined(s: State, pins: seq<Pin>, r: int, c: int, m: Move)
    requires OnBoard(r, c) && m in PieceMoves(s, pins, r, c)
    requires PinDirection(pins, r, c).Some? && !IsKind(s.board[r][c], King) && !m.isEnpassantMove
    ensures OnLine(r, c, PinDirection(pins, r, c).value, m.endRow, m.endCol)
    ensures !IsKind(s.board[r][c], Knight)
  {
    var p := s.board[r][c];
    var side := SideToMove(s.whiteToMove);
    var pin := PinDirection(pins, r, c);
    var enemy := Opponent(side);
    match p.kind
    case Pawn =>
      PawnMovesShape(s, pin, r, c, m);
    case Rook =>
      SlideMovesConfined(s.board, enemy, pin.value, r, c, ROOK_DIRECTIONS, m);
    case Knight =>
      PinnedKnightStays(s.board, side, r, c);
    case Bishop =>
      SlideMovesConfined(s.board, enemy, pin.value, r, c, BISHOP_DIRECTIONS, m);
    case Queen =>
      if m in RookMoves(s, pin, r, c) {
        SlideMovesConfined(s.board, enemy, pin.value, r, c, ROOK_DIRECTIONS, m);
      } else {
        SlideMovesConfined(s.board, enemy, pin.value, r, c, BISHOP_DIRECTIONS, m);
      }
  }

  /** The moves of the first n squares of row r, one part per square. */
  function RowParts(s: State, pins: seq<Pin>, r: int, n: int): (ls: seq<seq<Move>>)
    requires 0 <= r < 8 && 0 <= n <= 8
    ensures |ls| == n && forall c :: 0 <= c < n ==> ls[c] == PieceMoves(s, pins, r, c)
  {
    if n == 0 then [] else RowParts(s, pins, r, n - 1) + [PieceMoves(s, pins, r, n - 1)]
  }

  /** The moves of the first n rows, one part per row. */
  function RowsParts(s: State, pins: seq<Pin>, n: int): (ls: seq<seq<Move>>)
    requires 0 <= n <= 8
    ensures |ls| == n && forall r :: 0 <= r < n ==> ls[r] == RowMoves(s, pins, r, 8)
  {
    if n == 0 then [] else RowsParts(s, pins, n - 1) + [RowMoves(s, pins, n - 1, 8)]
  }

  lemma {:induction false} RowMovesConcat(s: State, pins: seq<Pin>, r: int, n: int)
    requires 0 <= r < 8 && 0 <= n <= 8
    ensures RowMoves(s, pins, r, n) == Concat(RowParts(s, pins, r, n))
  {
    if n > 0 {
      RowMovesConcat(s, pins, r, n - 1);
      ConcatSnoc(RowParts(s, pins, r, n - 1), PieceMoves(s, pins, r, n - 1));
    }
  }

  lemma {:induction false} RowsMovesConcat(s: State, pins: seq<Pin>, n: int)
    requires 0 <= n <= 8
    ensures RowsMoves(s, pins, n) == Concat(RowsParts(s, pins, n))
  {
    if n > 0 {
      RowsMovesConcat(s, pins, n - 1);
      ConcatSnoc(RowsParts(s, pins, n - 1), RowMoves(s, pins, n - 1, 8));
    }
  }

  lemma RowMovesMembers(s: State, pins: seq<Pin>, r: int, n: int, m: Move)
    requires 0 <= r < 8 && 0 <= n <= 8
    ensures m in RowMoves(s, pins, r, n) <==> exists c :: 0 <= c < n && m in PieceMoves(s, pins, r, c)
  {
    RowMovesConcat(s, pins, r, n);
    ConcatMembers(RowParts(s, pins, r, n), m);
  }

  lemma RowsMovesMembers(s: State, pins: seq<Pin>, n: int, m: Move)
    requires 0 <= n <= 8
    ensures m in RowsMoves(s, pins, n) <==>
              exists r, c :: 0 <= r < n && 0 <= c < 8 && m in PieceMoves(s, pins, r, c)
  {
    RowsMovesConcat(s, pins, n);
    ConcatMembers(RowsParts(s, pins, n), m);
    forall r | 0 <= r < n
      ensures m in RowMoves(s, pins, r, 8) <==> exists c :: 0 <= c < 8 && m in PieceMoves(s, pins, r, c)
    {
      RowMovesMembers(s, pins, r, 8, m);
    }
  }

  /** The full pseudo-legal list holds exactly the moves each piece generates from its own square. */
  lemma AllPossibleMovesMembers(s: State, pins: seq<Pin>, m: Move)
    ensures m in AllPossibleMoves(s, pins) <==> OnBoardMove(m) && m in PieceMoves(s, pins, m.startRow, m.startCol)
  {
    RowsMovesMembers(s, pins, 8, m);
    if m in AllPossibleMoves(s, pins) {
      var r, c :| 0 <= r < 8 && 0 <= c < 8 && m in PieceMoves(s, pins, r, c);
      PieceMovesShape(s, pins, r, c, m);
    }
  }

  /** Every king move among the pseudo-legal moves is a step onto a square without an allied piece that is not attacked. */
  lemma AllPossibleKingMovesSafe(s: State, pins: seq<Pin>, m: Move)
    requires m in AllPossibleMoves(s, pins) && IsKind(m.pieceMoved, King)
    ensures OnBoardMove(m) && !m.isEnpassantMove
    ensures Abs(m.endRow - m.startRow) <= 1 && Abs(m.endCol - m.startCol) <= 1
    ensures !HasColor(s.board[m.endRow][m.endCol], SideToMove(s.whiteToMove))
    ensures !InCheckAt(s.board, m.endRow, m.endCol, SideToMove(s.whiteToMove))
  {
    AllPossibleMovesMembers(s, pins, m);
    PieceMovesShape(s, pins, m.startRow, m.startCol, m);
    KingPieceMoves(s, pins, m.startRow, m.startCol, m);
    KingMovesSafe(s.board, SideToMove(s.whiteToMove), m.startRow, m.startCol, m);
  }

  // ---------------------------------------------------------------------------
  // No generated move is repeated.

  /** The king's directions and the knight's jumps are eight different offsets each. */
  lemma OffsetsDistinct()
    ensures forall t1, t2 :: 0 <= t1 < t2 < 8 ==> KING_DIRECTIONS[t1] != KING_DIRECTIONS[t2]
    ensures forall t1, t2 :: 0 <= t1 < t2 < 8 ==> KNIGHT_OFFSETS[t1] != KNIGHT_OFFSETS[t2]
  {
  }

  /** Slides along two different unit steps never reach the same square. */
  lemma DirectionsApart(r: int, c: int, d1: (int, int), d2: (int, int), k1: int, k2: int)
    requires UnitStep(d1) && UnitStep(d2) && d1 != d2 && 1 <= k1 && 1 <= k2
    ensures SlideSquare(r, c, d1, k1) != SlideSquare(r, c, d2, k2)
  {
    assert d1.0 * k1 == (if d1.0 == 1 then k1 else if d1.0 == -1 then -k1 else 0);
    assert d1.1 * k1 == (if d1.1 == 1 then k1 else if d1.1 == -1 then -k1 else 0);
    assert d2.0 * k2 == (if d2.0 == 1 then k2 else if d2.0 == -1 then -k2 else 0);
    assert d2.1 * k2 == (if d2.1 == 1 then k2 else if d2.1 == -1 then -k2 else 0);
  }

  /** One slide reaches each of its squares once. */
  lemma {:induction false} SlideRayDistinct(b: Board, enemy: Color, r: int, c: int, d: (int, int), i: int)
    requires OnBoard(r, c) && 1 <= i <= 8 && UnitStep(d)
    ensures DistinctSquares(SlideRay(b, enemy, r, c, d, i))
    decreases 8 - i
  {
    if i < 8 {
      var sq := SlideSquare(r, c, d, i);
      if OnBoard(sq.0, sq.1) && b[sq.0][sq.1] == Empty {
        var first := NewMove((r, c), sq, b, false);
        var rest := SlideRay(b, enemy, r, c, d, i + 1);
        SlideRayDistinct(b, enemy, r, c, d, i + 1);
        forall y | y in rest ensures Squares(first) != Squares(y) {
          SlideRayMembers(b, enemy, r, c, d, i + 1, y);
          var k :| SlideTarget(b, enemy, r, c, d, i + 1, k) && y == NewMove((r, c), SlideSquare(r, c, d, k), b, false);
          StepsDistinct(r, c, d, i, k);
        }
        DistinctAppend([first], rest);
      }
    }
  }

  /** A move of the slides along dirs[0..n-1] goes 1 to 7 steps along one of them. */
  lemma SlideMovesEnds(b: Board, enemy: Color, pin: Option<(int, int)>, r: int, c: int, dirs: seq<(int, int)>, n: int, m: Move)
    requires OnBoard(r, c) && 0 <= n <= |dirs| && m in SlideMoves(b, enemy, pin, r, c, dirs, n)
    ensures (m.startRow, m.startCol) == (r, c)
    ensures exists j, k :: 0 <= j < n && 1 <= k < 8 && (m.endRow, m.endCol) == SlideSquare(r, c, dirs[j], k)
  {
    SlideMovesMembers(b, enemy, pin, r, c, dirs, n, m);
    var j :| 0 <= j < n && m in SlideLine(b, enemy, pin, r, c, dirs[j]);
    SlideRayEnds(b, enemy, r, c, dirs[j], m);
    SlideRayMembers(b, enemy, r, c, dirs[j], 1, m);
  }

  /** Different unit steps: the shape of the rook's and the bishop's directions. */
  predicate DistinctUnitSteps(dirs: seq<(int, int)>) {
    (forall j :: 0 <= j < |dirs| ==> UnitStep(dirs[j]))
    && forall j1, j2 :: 0 <= j1 < j2 < |dirs| ==> dirs[j1] != dirs[j2]
  }

  /** Slides along different unit steps reach each square once. */
  lemma {:induction false} SlideMovesDistinct(b: Board, enemy: Color, pin: Option<(int, int)>, r: int, c: int, dirs: seq<(int, int)>, n: int)
    requires OnBoard(r, c) && 0 <= n <= |dirs| && DistinctUnitSteps(dirs)
    ensures DistinctSquares(SlideMoves(b, enemy, pin, r, c, dirs, n))
  {
    if n > 0 {
      var init := SlideMoves(b, enemy, pin, r, c, dirs, n - 1);
      var line := SlideLine(b, enemy, pin, r, c, dirs[n - 1]);
      SlideMovesDistinct(b, enemy, pin, r, c, dirs, n - 1);
      if PinAllows(pin, dirs[n - 1]) {
        SlideRayDistinct(b, enemy, r, c, dirs[n - 1], 1);
      }
      forall x, y | x in init && y in line ensures Squares(x) != Squares(y) {
        SlideMovesEnds(b, enemy, pin, r, c, dirs, n - 1, x);
        var j, k :| 0 <= j < n - 1 && 1 <= k < 8 && (x.endRow, x.endCol) == SlideSquare(r, c, dirs[j], k);
        SlideRayEnds(b, enemy, r, c, dirs[n - 1], y);
        var k' :| 1 <= k' < 8 && (y.endRow, y.endCol) == SlideSquare(r, c, dirs[n - 1], k');
        DirectionsApart(r, c, dirs[j], dirs[n - 1], k, k');
      }
      DistinctAppend(init, line);
    }
  }

  /** Single steps by different offsets reach each square once. */
  lemma {:induction false} StepMovesDistinct(b: Board, ally: Color, r: int, c: int, offsets: seq<(int, int)>,
                                             accept: ((int, int)) -> bool, n: int)
    requires OnBoard(r, c) && 0 <= n <= |offsets|
    requires forall t1, t2 :: 0 <= t1 < t2 < |offsets| ==> offsets[t1] != offsets[t2]
    ensures DistinctSquares(StepMoves(b, ally, r, c, offsets, accept, n))
  {
    if n > 0 {
      StepMovesDistinct(b, ally, r, c, offsets, accept, n - 1);
      StepMovesNext(b, ally, r, c, offsets, accept, n - 1);
      if StepAllowed(b, ally, r, c, offsets, accept, n - 1) {
        var init := StepMoves(b, ally, r, c, offsets, accept, n - 1);
        var last := NewMove((r, c), StepSquare(r, c, offsets, n - 1), b, false);
        forall x | x in init ensures Squares(x) != Squares(last) {
          StepMovesMembers(b, ally, r, c, offsets, accept, n - 1, x);
        }
        DistinctAppend(init, [last]);
      }
    }
  }

  /** Advances stay on the pawn's column; a capture towards c + dc ends on that column. */
  lemma PawnPartEnds(b: Board, color: Color, pin: Option<(int, int)>, ep: Option<(int, int)>, r: int, c: int, x: Move)
    requires OnBoard(r, c) && OnBoard(r + PawnForward(color), c)
    ensures x in PawnAdvances(b, color, pin, r, c) ==> x.endCol == c
    ensures x in PawnCapture(b, color, pin, ep, r, c, -1) ==> x.endCol == c - 1
    ensures x in PawnCapture(b, color, pin, ep, r, c, 1) ==> x.endCol == c + 1
  {
  }

  /** A pawn's advances and captures reach each square once. */
  lemma PawnMovesDistinct(s: State, pin: Option<(int, int)>, r: int, c: int)
    requires OnBoard(r, c)
    ensures DistinctSquares(PawnMoves(s, pin, r, c))
  {
    var b, color, ep := s.board, SideToMove(s.whiteToMove), s.enpassantPossible;
    if OnBoard(r + PawnForward(color), c) {
      var advances := PawnAdvances(b, color, pin, r, c);
      var left := PawnCapture(b, color, pin, ep, r, c, -1);
      var right := PawnCapture(b, color, pin, ep, r, c, 1);
      forall x, y | x in advances && y in left ensures Squares(x) != Squares(y) {
        PawnPartEnds(b, color, pin, ep, r, c, x);
        PawnPartEnds(b, color, pin, ep, r, c, y);
      }
      DistinctAppend(advances, left);
      forall x, y | x in advances + left && y in right ensures Squares(x) != Squares(y) {
        PawnPartEnds(b, color, pin, ep, r, c, x);
        PawnPartEnds(b, color, pin, ep, r, c, y);
      }
      DistinctAppend(advances + left, right);
      assert PawnMoves(s, pin, r, c) == advances + left + right;
    }
  }

  /** A piece's generator reaches each square once. */
  lemma PieceMovesDistinct(s: State, pins: seq<Pin>, r: int, c: int)
    requires OnBoard(r, c)
    ensures DistinctSquares(PieceMoves(s, pins, r, c))
  {
    var p := s.board[r][c];
    var side := SideToMove(s.whiteToMove);
    if HasColor(p, side) {
      var pin := PinDirection(pins, r, c);
      var enemy := Opponent(side);
      assert DistinctUnitSteps(ROOK_DIRECTIONS) && DistinctUnitSteps(BISHOP_DIRECTIONS);
      OffsetsDistinct();
      match p.kind
      case Pawn =>
        PawnMovesDistinct(s, pin, r, c);
      case Rook =>
        SlideMovesDistinct(s.board, enemy, pin, r, c, ROOK_DIRECTIONS, 4);
      case Knight =>
        StepMovesDistinct(s.board, side, r, c, KNIGHT_OFFSETS, KnightFree(pin.Some?), 8);
      case Bishop =>
        SlideMovesDistinct(s.board, enemy, pin, r, c, BISHOP_DIRECTIONS, 4);
      case Queen =>
        QueenMovesDistinct(s, pin, r, c);
      case King =>
        StepMovesDistinct(s.board, side, r, c, KING_DIRECTIONS, KingProbe(s.board, side), 8);
    }
  }

  /** Steps along a rook direction keep the row or the column. */
  lemma StraightSlide(r: int, c: int, d: (int, int), k: int)
    requires d in ROOK_DIRECTIONS
    ensures SlideSquare(r, c, d, k).0 == r || SlideSquare(r, c, d, k).1 == c
  {
  }

  /** One or more steps along a bishop direction leave both the row and the column. */
  lemma DiagonalSlide(r: int, c: int, d: (int, int), k: int)
    requires d in BISHOP_DIRECTIONS && k >= 1
    ensures SlideSquare(r, c, d, k).0 != r && SlideSquare(r, c, d, k).1 != c
  {
    assert d.0 * k == k || d.0 * k == -k;
    assert d.1 * k == k || d.1 * k == -k;
  }

  /** A rook move ends on the rook's row or on its column. */
  lemma RookEndsStraight(s: State, pin: Option<(int, int)>, r: int, c: int, x: Move)
    requires OnBoard(r, c) && x in RookMoves(s, pin, r, c)
    ensures (x.startRow, x.startCol) == (r, c) && (x.endRow == r || x.endCol == c)
  {
    SlideMovesEnds(s.board, Opponent(SideToMove(s.whiteToMove)), pin, r, c, ROOK_DIRECTIONS, 4, x);
    var j, k :| 0 <= j < 4 && 1 <= k < 8 && (x.endRow, x.endCol) == SlideSquare(r, c, ROOK_DIRECTIONS[j], k);
    StraightSlide(r, c, ROOK_DIRECTIONS[j], k);
  }

  /** A bishop move leaves both the bishop's row and its column. */
  lemma BishopEndsDiagonal(s: State, pin: Option<(int, int)>, r: int, c: int, y: Move)
    requires OnBoard(r, c) && y in BishopMoves(s, pin, r, c)
    ensures (y.startRow, y.startCol) == (r, c) && y.endRow != r && y.endCol != c
  {
    SlideMovesEnds(s.board, Opponent(SideToMove(s.whiteToMove)), pin, r, c, BISHOP_DIRECTIONS, 4, y);
    var j, k :| 0 <= j < 4 && 1 <= k < 8 && (y.endRow, y.endCol) == SlideSquare(r, c, BISHOP_DIRECTIONS[j], k);
    DiagonalSlide(r, c, BISHOP_DIRECTIONS[j], k);
  }

  /** The queen's rook moves and bishop moves reach each square once between them. */
  lemma QueenMovesDistinct(s: State, pin: Option<(int, int)>, r: int, c: int)
    requires OnBoard(r, c)
    ensures DistinctSquares(RookMoves(s, pin, r, c) + BishopMoves(s, pin, r, c))
  {
    var enemy := Opponent(SideToMove(s.whiteToMove));
    assert DistinctUnitSteps(ROOK_DIRECTIONS) && DistinctUnitSteps(BISHOP_DIRECTIONS);
    SlideMovesDistinct(s.board, enemy, pin, r, c, ROOK_DIRECTIONS, 4);
    SlideMovesDistinct(s.board, enemy, pin, r, c, BISHOP_DIRECTIONS, 4);
    forall x, y | x in RookMoves(s, pin, r, c) && y in BishopMoves(s, pin, r, c) ensures Squares(x) != Squares(y) {
      RookEndsStraight(s, pin, r, c, x);
      BishopEndsDiagonal(s, pin, r, c, y);
    }
    DistinctAppend(RookMoves(s, pin, r, c), BishopMoves(s, pin, r, c));
  }

  /** The moves of the first n squares of a row are all different. */
  lemma {:induction false} RowMovesDistinct(s: State, pins: seq<Pin>, r: int, n: int)
    requires 0 <= r < 8 && 0 <= n <= 8
    ensures DistinctSquares(RowMoves(s, pins, r, n))
  {
    if n > 0 {
      var init := RowMoves(s, pins, r, n - 1);
      var last := PieceMoves(s, pins, r, n - 1);
      RowMovesDistinct(s, pins, r, n - 1);
      PieceMovesDistinct(s, pins, r, n - 1);
      forall x, y | x in init && y in last ensures Squares(x) != Squares(y) {
        RowMovesMembers(s, pins, r, n - 1, x);
        var c :| 0 <= c < n - 1 && x in PieceMoves(s, pins, r, c);
        PieceMovesShape(s, pins, r, c, x);
        PieceMovesShape(s, pins, r, n - 1, y);
      }
      DistinctAppend(init, last);
    }
  }

  /** The moves of the first n rows are all different. */
  lemma {:induction false} RowsMovesDistinct(s: State, pins: seq<Pin>, n: int)
    requires 0 <= n <= 8
    ensures DistinctSquares(RowsMoves(s, pins, n))
  {
    if n > 0 {
      var init := RowsMoves(s, pins, n - 1);
      var last := RowMoves(s, pins, n - 1, 8);
      RowsMovesDistinct(s, pins, n - 1);
      RowMovesDistinct(s, pins, n - 1, 8);
      forall x, y | x in init && y in last ensures Squares(x) != Squares(y) {
        RowsMovesMembers(s, pins, n - 1, x);
        var r, c :| 0 <= r < n - 1 && 0 <= c < 8 && x in PieceMoves(s, pins, r, c);
        PieceMovesShape(s, pins, r, c, x);
        RowMovesMembers(s, pins, n - 1, 8, y);
        var c' :| 0 <= c' < 8 && y in PieceMoves(s, pins, n - 1, c');
        PieceMovesShape(s, pins, n - 1, c', y);
      }
      DistinctAppend(init, last);
    }
  }

  /**
   * No move is generated twice: no two positions of the pseudo-legal list hold moves the
   * engine's move equality considers equal.
   */
  lemma AllPossibleMovesDistinct(s: State, pins: seq<Pin>)
    ensures NoRepeatedMoves(AllPossibleMoves(s, pins))
  {
    RowsMovesDistinct(s, pins, 8);
    forall m | m in AllPossibleMoves(s, pins) ensures OnBoardMove(m) {
      AllPossibleMovesMembers(s, pins, m);
    }
    DistinctSquaresNoRepeats(AllPossibleMoves(s, pins));
  }
}
