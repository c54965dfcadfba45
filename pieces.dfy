/**
 * Pieces and the 8x8 board.
 *
 * The engine encodes a piece as a two-letter code (colour letter, kind letter) and an
 * empty square as "--"; here a piece is a datatype value and the board a sequence of
 * eight rows of eight squares. Row 0 is Black's back rank, row 7 White's; column 0 is
 * file a.
 */
module Pieces {

  datatype Color = White | Black

  function Opponent(c: Color): (o: Color)
    ensures o != c
  {
    if c == White then Black else White
  }

  /** The colour whose turn it is, from the engine's `whiteToMove` flag. */
  function SideToMove(whiteToMove: bool): (c: Color)
    ensures (c == White) == whiteToMove
  {
    if whiteToMove then White else Black
  }

  /** The row step of a pawn of colour c: White moves up the board (towards row 0), Black down. */
  function PawnForward(c: Color): int {
    if c == White then -1 else 1
  }

  datatype Kind = Pawn | Knight | Bishop | Rook | Queen | King

  datatype Piece = Empty | Occupied(color: Color, kind: Kind)

  predicate HasColor(p: Piece, c: Color) {
    p.Occupied? && p.color == c
  }

  predicate IsKind(p: Piece, k: Kind) {
    p.Occupied? && p.kind == k
  }

  predicate OnBoard(r: int, c: int) {
    0 <= r < 8 && 0 <= c < 8
  }

  predicate IsBoard(b: seq<seq<Piece>>) {
    |b| == 8 && forall r :: 0 <= r < 8 ==> |b[r]| == 8
  }

  type Board = b: seq<seq<Piece>> | IsBoard(b) witness seq(8, _ => seq(8, _ => Empty))

  /** The board with square (r, c) overwritten by p, as `board[r][c] = p` does. */
  function Put(b: Board, r: int, c: int, p: Piece): (b': Board)
    requires OnBoard(r, c)
    ensures b'[r][c] == p
    ensures forall r', c' :: OnBoard(r', c') && (r', c') != (r, c) ==> b'[r'][c'] == b[r'][c']
  {
    b[r := b[r][c := p]]
  }

  /** Two boards are equal when they agree on every square. */
  lemma BoardExtensionality(a: Board, b: Board)
    requires forall r, c :: OnBoard(r, c) ==> a[r][c] == b[r][c]
    ensures a == b
  {
    forall r | 0 <= r < 8
      ensures a[r] == b[r]
    {
      assert forall c :: 0 <= c < 8 ==> a[r][c] == b[r][c] by {
        forall c | 0 <= c < 8 ensures a[r][c] == b[r][c] {
          assert OnBoard(r, c);
        }
      }
    }
  }
}
