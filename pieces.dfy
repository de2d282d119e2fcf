/**
 * The piece model: a piece's type, its colour and whether it has moved.
 * Only a pawn carries the en-passant flag, as a payload of its type.
 * A piece is a copyable value held by value in the board cells, so the
 * mutators of the source (set the moved flag, promote, flip the pawn flag)
 * are modelled as functions that return the updated piece.
 */
module Pieces {
  import opened Wrappers

  datatype Color = White | Black

  datatype PieceType = Pawn(enPassant: bool) | Rook | Bishop | Knight | King | Queen

  datatype Piece = Piece(pieceType: PieceType, color: Color, hasMoved: bool)

  /** A fresh piece of the given type and colour that has not moved yet. */
  function NewPiece(t: PieceType, c: Color): (p: Piece)
    ensures p.pieceType == t && p.color == c && !p.hasMoved
  {
    Piece(t, c, false)
  }

  /** The opposing colour. */
  function EnemyColor(c: Color): (r: Color)
    ensures r != c
  {
    match c
    case White => Black
    case Black => White
  }

  lemma EnemyColorInvolution(c: Color)
    ensures EnemyColor(EnemyColor(c)) == c
    ensures EnemyColor(c) == (if c == White then Black else White)
  {
  }

  /** The piece with its moved flag replaced; type and colour are kept. */
  function SetHasMoved(p: Piece, hasMoved: bool): (r: Piece)
    ensures r.hasMoved == hasMoved
    ensures r.pieceType == p.pieceType && r.color == p.color
  {
    p.(hasMoved := hasMoved)
  }

  /**
   * Promotion of a pawn. None stands for the abort of the source: the piece
   * is not a pawn, or the requested type is King.
   */
  function Promote(p: Piece, promoteTo: PieceType): (r: Option<Piece>)
    ensures r.None? <==> !p.pieceType.Pawn? || promoteTo == King
    ensures r.Some? ==> r.value.pieceType == promoteTo
    ensures r.Some? ==> r.value.color == p.color && r.value.hasMoved == p.hasMoved
  {
    if !p.pieceType.Pawn? then None
    else if promoteTo == King then None
    else Some(p.(pieceType := promoteTo))
  }

  /** The lower-case letter of a piece type; the pawn flag does not show. */
  function TypeLetter(t: PieceType): char
  {
    match t
    case Pawn(_) => 'p'
    case Rook => 'r'
    case Bishop => 'b'
    case Knight => 'n'
    case King => 'k'
    case Queen => 'q'
  }

  /** Upper-casing of an ASCII lower-case letter; other characters are kept. */
  function ToUpper(c: char): char
  {
    if 'a' <= c <= 'z' then (c as int - 'a' as int + 'A' as int) as char else c
  }

  /** The letter of a piece: the type's letter, upper-cased for White. */
  function PieceLetter(p: Piece): char
  {
    if p.color == White then ToUpper(TypeLetter(p.pieceType)) else TypeLetter(p.pieceType)
  }

  /** The letter of a colour: 'w' for White, 'b' for Black. */
  function ColorLetter(c: Color): (r: char)
    ensures r == 'w' || r == 'b'
    ensures r == 'w' <==> c == White
  {
    match c
    case White => 'w'
    case Black => 'b'
  }

  /** Two types are of the same kind when they differ at most in the pawn flag. */
  predicate SameKind(s: PieceType, t: PieceType)
  {
    (s.Pawn? && t.Pawn?) || s == t
  }

  /**
   * A piece's letter determines its kind and its colour, and nothing more:
   * the moved flag and the pawn flag do not show.
   */
  lemma PieceLetterDecides(p: Piece, q: Piece)
    ensures PieceLetter(p) == PieceLetter(q) <==> SameKind(p.pieceType, q.pieceType) && p.color == q.color
  {
  }

  /** White letters are the upper-case ones, Black letters the lower-case ones. */
  lemma PieceLetterCase(p: Piece)
    ensures p.color == White <==> 'A' <= PieceLetter(p) <= 'Z'
    ensures p.color == Black <==> 'a' <= PieceLetter(p) <= 'z'
  {
  }

  /** Colour letters tell the colours apart. */
  lemma ColorLetterInjective(c: Color, d: Color)
    ensures ColorLetter(c) == ColorLetter(d) <==> c == d
  {
  }

  /**
   * Type equality is structural, so it compares the pawn payload: a flagged
   * pawn type is not equal to an unflagged one, though both are pawns.
   */
  lemma PawnPayloadDistinguishes(b: bool, c: bool)
    ensures Pawn(b) == Pawn(c) <==> b == c
    ensures SameKind(Pawn(b), Pawn(c))
  {
  }
}
