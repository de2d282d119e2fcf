/**
 * The initial-position string and the letter code it is written in: one
 * character per square in flat-index order, '-' for an empty square, a
 * piece letter otherwise (upper case for White, lower case for Black).
 * Any other character aborts the set-up.
 */
module Setup {
  import opened Wrappers
  import opened Pieces
  import opened Squares

  /** The standard opening position, rank 0 (Black's back rank) first. */
  const StandardSetup: string :=
    "rnbqkbnr" + "pppppppp" + "--------" + "--------" +
    "--------" + "--------" + "PPPPPPPP" + "RNBQKBNR"

  /** What one set-up character denotes. */
  datatype SetupCell = Blank | Placed(piece: Piece) | Invalid

  function IsLowercase(c: char): bool
  {
    'a' <= c <= 'z'
  }

  /** The type a letter names, in either case; None for any other character. */
  function LetterType(c: char): Option<PieceType>
  {
    if c == 'r' || c == 'R' then Some(Rook)
    else if c == 'n' || c == 'N' then Some(Knight)
    else if c == 'b' || c == 'B' then Some(Bishop)
    else if c == 'q' || c == 'Q' then Some(Queen)
    else if c == 'k' || c == 'K' then Some(King)
    else if c == 'p' || c == 'P' then Some(Pawn(false))
    else None
  }

  function ParseSetupChar(c: char): SetupCell
  {
    if c == '-' then Blank
    else match LetterType(c)
      case None => Invalid
      case Some(t) => Placed(NewPiece(t, if IsLowercase(c) then Black else White))
  }

  function CellOf(s: SetupCell): Option<Piece>
  {
    if s.Placed? then Some(s.piece) else None
  }

  /** The board a 64-character set-up string describes; None when it holds an invalid character. */
  function ParseSetup(s: string): Option<BoardState>
    requires |s| == BoardSize
  {
    if forall i | 0 <= i < |s| :: !ParseSetupChar(s[i]).Invalid? then
      Some(seq(64, i requires 0 <= i < 64 => CellOf(ParseSetupChar(s[i]))))
    else
      None
  }

  /**
   * Parsing succeeds iff every character is '-' or a piece letter; then the
   * character at index ind decides square (ind % 8, ind / 8): '-' leaves it
   * empty, an upper-case letter puts a White piece there, a lower-case one a
   * Black piece, and no piece has moved and no pawn is flagged.
   */
  lemma ParseSetupMeaning(s: string, ind: int)
    requires |s| == BoardSize && 0 <= ind < BoardSize
    ensures ParseSetup(s).None? <==> exists i :: 0 <= i < |s| && ParseSetupChar(s[i]).Invalid?
    ensures ParseSetup(s).Some? ==>
      var cell := GetPiece(ParseSetup(s).value, ToIndex2D(ind));
      && (s[ind] == '-' <==> cell.None?)
      && (cell.Some? ==> LetterType(s[ind]) == Some(cell.value.pieceType))
      && (cell.Some? ==> (cell.value.color == White <==> 'A' <= s[ind] <= 'Z'))
      && (cell.Some? ==> (cell.value.color == Black <==> 'a' <= s[ind] <= 'z'))
      && (cell.Some? ==> !cell.value.hasMoved && cell.value.pieceType != Pawn(true))
  {
    IndexRoundTrip((0, 0), ind);
  }

  /** The standard set-up string is well formed: 64 characters, each one accepted. */
  lemma StandardSetupValid()
    ensures |StandardSetup| == BoardSize
    ensures forall i :: 0 <= i < BoardSize ==> !ParseSetupChar(StandardSetup[i]).Invalid?
    ensures ParseSetup(StandardSetup).Some?
  {
  }

  /** Only '-' and the twelve piece letters are accepted. */
  lemma ValidSetupChars(c: char)
    ensures !ParseSetupChar(c).Invalid? <==> c in "-rnbqkpRNBQKP"
  {
  }

  /** Writing a fresh piece as a letter and parsing the letter gives the piece back. */
  lemma LetterRoundTrip(p: Piece)
    requires !p.hasMoved && p.pieceType != Pawn(true)
    ensures ParseSetupChar(PieceLetter(p)) == Placed(p)
  {
  }

  /** A parsed letter is the letter of the piece it produced. */
  lemma ParseThenLetter(c: char)
    requires ParseSetupChar(c).Placed?
    ensures PieceLetter(ParseSetupChar(c).piece) == c
  {
  }
}
