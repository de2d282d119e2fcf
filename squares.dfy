/**
 * Coordinates of the 8x8 board and the cell queries shared by both
 * revisions of the engine. A square is a pair (x, y) of a file and a rank;
 * its flat index is y * 8 + x. The board value that the move generator
 * reads is the flat sequence of the 64 cells in that order.
 */
module Squares {
  import opened Wrappers
  import opened Pieces

  const BoardWidth: int := 8
  const BoardHeight: int := 8
  const BoardSize: int := 64

  type Square = (int, int)

  /** The 64 cells of a board, cell (x, y) at index y * 8 + x. */
  type BoardState = s: seq<Option<Piece>> | |s| == 64 witness seq(64, _ => None)

  /** The all-empty board. */
  const EmptyBoard: BoardState := seq(64, _ => None)

  predicate InBound(p: Square)
  {
    0 <= p.0 < BoardWidth && 0 <= p.1 < BoardHeight
  }

  function ToIndex1D(p: Square): int
  {
    p.1 * BoardWidth + p.0
  }

  function ToIndex2D(ind: int): Square
  {
    (ind % BoardWidth, ind / BoardWidth)
  }

  /** Flattening and unflattening are inverse on the board. */
  lemma IndexRoundTrip(p: Square, ind: int)
    ensures InBound(p) ==> 0 <= ToIndex1D(p) < BoardSize && ToIndex2D(ToIndex1D(p)) == p
    ensures 0 <= ind < BoardSize ==> InBound(ToIndex2D(ind)) && ToIndex1D(ToIndex2D(ind)) == ind
  {
  }

  /** Different squares of the board have different flat indices. */
  lemma ToIndex1DInjective(p: Square, q: Square)
    requires InBound(p) && InBound(q)
    ensures ToIndex1D(p) == ToIndex1D(q) <==> p == q
  {
  }

  function GetPiece(b: BoardState, p: Square): Option<Piece>
    requires InBound(p)
  {
    b[ToIndex1D(p)]
  }

  predicate IsEmptyOn(b: BoardState, p: Square)
    requires InBound(p)
  {
    GetPiece(b, p).None?
  }

  /** False on an empty cell. */
  predicate IsColorOn(b: BoardState, p: Square, c: Color)
    requires InBound(p)
  {
    GetPiece(b, p).Some? && GetPiece(b, p).value.color == c
  }

  /** A cell is empty, or holds a piece of exactly one of the two colours. */
  lemma CellCases(b: BoardState, p: Square, c: Color)
    requires InBound(p)
    ensures IsEmptyOn(b, p) <==> !IsColorOn(b, p, c) && !IsColorOn(b, p, EnemyColor(c))
    ensures !(IsColorOn(b, p, c) && IsColorOn(b, p, EnemyColor(c)))
  {
  }

  /** The board with one cell replaced. */
  function Put(b: BoardState, p: Square, v: Option<Piece>): (r: BoardState)
    requires InBound(p)
    ensures GetPiece(r, p) == v
  {
    b[ToIndex1D(p) := v]
  }

  /** Replacing one cell leaves every other cell as it was. */
  lemma PutOther(b: BoardState, p: Square, v: Option<Piece>, q: Square)
    requires InBound(p) && InBound(q) && q != p
    ensures GetPiece(Put(b, p, v), q) == GetPiece(b, q)
  {
    ToIndex1DInjective(p, q);
  }
}
