/**
 * The game object of the latest revision: an 8x8 board indexed [x, y], the
 * 8x8x8x8 legal-move table (legalMoves[x, y, tx, ty] says whether the piece
 * on (x, y) may go to (tx, ty)), the movable flags, and the turn fields.
 * Every method is proved against the rules of ChessRules, stated on Cells(),
 * the flat value of the board.
 */
module ChessGame {
  import opened Wrappers
  import opened Pieces
  import opened Squares
  import opened Setup
  import opened MoveCalculator
  import opened ChessRules
  import opened TurnCycle

  /** Square q comes before (x, y) in the order of the nested x-then-y loops. */
  predicate ScannedBefore(q: Square, x: int, y: int)
  {
    q.0 < x || (q.0 == x && q.1 < y)
  }

  /** The filtering loops' table after the squares before (x, y): filtered there, the candidates elsewhere. */
  predicate ScannedTable(moves: seq<bool>, cands: seq<bool>, filtered: seq<bool>, x: int, y: int)
  {
    && |moves| == BoardSize && |cands| == BoardSize && |filtered| == BoardSize
    && forall i :: 0 <= i < BoardSize ==> moves[i] == if ScannedBefore(ToIndex2D(i), x, y) then filtered[i] else cands[i]
  }

  /** Filtering square (x, y) of the scan moves the scan on to (x, y + 1). */
  lemma ScannedNext(moves: seq<bool>, cands: seq<bool>, filtered: seq<bool>, x: int, y: int)
    requires ScannedTable(moves, cands, filtered, x, y) && InBound((x, y))
    ensures 0 <= ToIndex1D((x, y)) < BoardSize && ToIndex2D(ToIndex1D((x, y))) == (x, y)
    ensures moves[ToIndex1D((x, y))] == cands[ToIndex1D((x, y))]
    ensures ScannedTable(moves[ToIndex1D((x, y)) := filtered[ToIndex1D((x, y))]], cands, filtered, x, y + 1)
  {
    forall i | 0 <= i < BoardSize
      ensures (ToIndex2D(i) == (x, y)) == (i == ToIndex1D((x, y)))
    {
      IndexRoundTrip((x, y), i);
    }
    IndexRoundTrip((x, y), 0);
  }

  /** A finished column of the scan is the start of the next one. */
  lemma ScannedColumn(moves: seq<bool>, cands: seq<bool>, filtered: seq<bool>, x: int)
    requires ScannedTable(moves, cands, filtered, x, BoardHeight)
    ensures ScannedTable(moves, cands, filtered, x + 1, 0)
  {
    forall i | 0 <= i < BoardSize
      ensures ToIndex2D(i).1 < BoardHeight
    {
      IndexRoundTrip((0, 0), i);
    }
  }

  /** The castling loop's king square after x steps of one file: the start square, then the transit square. */
  lemma StepSquare(from: Square, d: int, x: int)
    requires x == 0 || x == 1
    ensures (from.0 + d * x, from.1) == if x == 0 then from else TransitSquare(from, d)
  {
  }

  class Chess {
    const board: array2<Option<Piece>>
    const legalMoves: array4<bool>
    const isMovable: array2<bool>
    var selectedCell: Option<Square>
    var currentTurnColor: Color
    var turnState: TurnState
    var isMovesComputed: bool

    predicate Valid()
    {
      && board.Length0 == BoardWidth && board.Length1 == BoardHeight
      && legalMoves.Length0 == BoardWidth && legalMoves.Length1 == BoardHeight
      && legalMoves.Length2 == BoardWidth && legalMoves.Length3 == BoardHeight
      && isMovable.Length0 == BoardWidth && isMovable.Length1 == BoardHeight
    }

    /** The board as a flat value: cell (x, y) at index y * 8 + x. */
    function Cells(): BoardState
      requires Valid()
      reads board
    {
      seq(BoardSize, i requires 0 <= i < BoardSize reads board => board[i % BoardWidth, i / BoardWidth])
    }

    /** The legal-move table of the piece on (x, y), flattened like the board. */
    function Row(x: int, y: int): (r: seq<bool>)
      requires Valid() && 0 <= x < BoardWidth && 0 <= y < BoardHeight
      reads legalMoves
      ensures |r| == BoardSize
    {
      seq(BoardSize, i requires 0 <= i < BoardSize reads legalMoves => legalMoves[x, y, i % BoardWidth, i / BoardWidth])
    }

    lemma CellsAt(p: Square)
      requires Valid() && InBound(p)
      ensures GetPiece(Cells(), p) == board[p.0, p.1]
    {
      IndexRoundTrip(p, 0);
    }

    lemma RowAt(x: int, y: int, q: Square)
      requires Valid() && 0 <= x < BoardWidth && 0 <= y < BoardHeight && InBound(q)
      ensures 0 <= ToIndex1D(q) < BoardSize && Row(x, y)[ToIndex1D(q)] == legalMoves[x, y, q.0, q.1]
    {
      IndexRoundTrip(q, 0);
    }

    /**
     * The state invariant: the selection is on the board, and once the moves
     * are computed the table and the movable flags are those of the board.
     */
    ghost predicate Consistent()
      requires Valid()
      reads this, board, legalMoves, isMovable
    {
      && (selectedCell.Some? ==> InBound(selectedCell.value))
      && (isMovesComputed ==>
            && (forall x, y :: 0 <= x < BoardWidth && 0 <= y < BoardHeight ==>
                  Row(x, y) == LegalMovesOf(Cells(), (x, y), currentTurnColor))
            && (forall x, y :: 0 <= x < BoardWidth && 0 <= y < BoardHeight ==>
                  isMovable[x, y] == (true in Row(x, y))))
    }

    /** Some square is movable. */
    predicate AnyMovable()
      requires Valid()
      reads isMovable
    {
      exists x, y :: 0 <= x < BoardWidth && 0 <= y < BoardHeight && isMovable[x, y]
    }

    /** An empty board, White to move, nothing computed. */
    constructor ()
      ensures Valid() && Consistent() && Cells() == EmptyBoard
      ensures forall x, y :: 0 <= x < BoardWidth && 0 <= y < BoardHeight ==> Row(x, y) == NoMoves() && !isMovable[x, y]
      ensures selectedCell == None && currentTurnColor == White && turnState == Normal && !isMovesComputed
      ensures fresh(board) && fresh(legalMoves) && fresh(isMovable)
    {
      board := new Option<Piece>[BoardWidth, BoardHeight]((_, _) => None);
      legalMoves := new bool[BoardWidth, BoardHeight, BoardWidth, BoardHeight]((_, _, _, _) => false);
      isMovable := new bool[BoardWidth, BoardHeight]((_, _) => false);
      selectedCell := None;
      currentTurnColor := White;
      turnState := Normal;
      isMovesComputed := false;
      new;
      assert Cells() == EmptyBoard;
      forall x, y | 0 <= x < BoardWidth && 0 <= y < BoardHeight
        ensures Row(x, y) == NoMoves()
      {
        assert forall i :: 0 <= i < BoardSize ==> Row(x, y)[i] == NoMoves()[i];
      }
    }

    /** Writes one cell. */
    method SetCell(p: Square, v: Option<Piece>)
      requires Valid() && InBound(p)
      modifies board
      ensures Cells() == Put(old(Cells()), p, v)
    {
      board[p.0, p.1] := v;
      forall i | 0 <= i < BoardSize
        ensures Cells()[i] == Put(old(Cells()), p, v)[i]
      {
        IndexRoundTrip(p, i);
      }
    }

    /**
     * Places the pieces of the standard set-up string: a '-' leaves its
     * square as it was, a letter puts a fresh piece there. From an empty
     * board this is the parsed standard position.
     */
    method Init()
      requires Valid()
      modifies board
      ensures |StandardSetup| == BoardSize
      ensures forall i :: 0 <= i < BoardSize ==>
        Cells()[i] == if StandardSetup[i] == '-' then old(Cells())[i] else CellOf(ParseSetupChar(StandardSetup[i]))
      ensures old(Cells()) == EmptyBoard ==> Some(Cells()) == ParseSetup(StandardSetup)
    {
      StandardSetupValid();
      LoadSetup(StandardSetup);
    }

    /** The loop of Init over any well-formed set-up string. */
    method LoadSetup(setup: string)
      requires Valid() && |setup| == BoardSize && ParseSetup(setup).Some?
      modifies board
      ensures forall i :: 0 <= i < BoardSize ==>
        Cells()[i] == if setup[i] == '-' then old(Cells())[i] else CellOf(ParseSetupChar(setup[i]))
      ensures old(Cells()) == EmptyBoard ==> Cells() == ParseSetup(setup).value
    {
      for ind := 0 to BoardSize
        invariant forall i :: 0 <= i < BoardSize ==>
          Cells()[i] == if i < ind && setup[i] != '-' then CellOf(ParseSetupChar(setup[i])) else old(Cells())[i]
      {
        var curr := setup[ind];
        if curr == '-' {
          continue;
        }
        PlaceLetter(ind, curr);
      }
      if old(Cells()) == EmptyBoard {
        assert forall i :: 0 <= i < BoardSize ==> Cells()[i] == ParseSetup(setup).value[i];
      }
    }

    /** Puts the fresh piece that letter c names on the square of flat index ind. */
    method PlaceLetter(ind: int, c: char)
      requires Valid() && 0 <= ind < BoardSize && ParseSetupChar(c).Placed?
      modifies board
      ensures Cells() == old(Cells())[ind := Some(ParseSetupChar(c).piece)]
    {
      var pieceType := LetterType(c);
      var color := if IsLowercase(c) then Black else White;
      var (x, y) := ToIndex2D(ind);
      IndexRoundTrip((0, 0), ind);
      SetCell((x, y), Some(NewPiece(pieceType.value, color)));
    }

    /**
     * The en-passant step of a move: the capture square, and the mover with
     * its flag set after a two-rank advance.
     */
    method MoveEnPassant(from: Square, to: Square, srcPiece: Piece) returns (piece: Piece, attackingPosition: Square)
      requires Valid() && InBound(from) && InBound(to)
      ensures piece == FlagDoubleStep(from, to, srcPiece)
      ensures attackingPosition == AttackingPosition(Cells(), from, to, srcPiece)
    {
      piece, attackingPosition := srcPiece, to;
      if !srcPiece.pieceType.Pawn? {
        return;
      }
      if from.0 != to.0 {
        CellsAt((to.0, from.1));
        var enPassantTarget := board[to.0, from.1];
        if enPassantTarget.Some? && enPassantTarget.value.color != srcPiece.color &&
           enPassantTarget.value.pieceType == Pawn(true) {
          attackingPosition := (to.0, from.1);
        }
      } else if AbsDiff(from.1, to.1) == 2 {
        piece := srcPiece.(pieceType := Pawn(true));
      }
    }

    /** The castling step of a move: relocates the corner rook when a king moves two files. */
    method MoveCastling(from: Square, to: Square, srcPiece: Piece)
      requires Valid() && InBound(from) && InBound(to) && CastleRook(Cells(), from, to, srcPiece).Some?
      modifies board
      ensures Cells() == CastleRook(old(Cells()), from, to, srcPiece).value
    {
      var isCastling := srcPiece.pieceType == King && AbsDiff(from.0, to.0) == 2;
      if !isCastling {
        return;
      }
      var rookX := if to.0 > from.0 then BoardWidth - 1 else 0;
      var rookNewX := if to.0 > from.0 then to.0 - 1 else to.0 + 1;
      CellsAt((rookX, from.1));
      var rook := board[rookX, from.1].value;
      SetCell((rookX, from.1), None);
      rook := SetHasMoved(rook, true);
      SetCell((rookNewX, from.1), Some(rook));
    }

    /** Moves the piece on from to to, as MoveSpec says. */
    method MovePiece(from: Square, to: Square)
      requires Valid() && InBound(from) && InBound(to) && MoveSpec(Cells(), from, to).Some?
      modifies board
      ensures Cells() == MoveSpec(old(Cells()), from, to).value
    {
      CellsAt(from);
      var src := board[from.0, from.1];
      var srcPiece := src.value;
      srcPiece := SetHasMoved(srcPiece, true);
      var attackingPosition;
      srcPiece, attackingPosition := MoveEnPassant(from, to, srcPiece);
      MoveCastling(from, to, srcPiece);
      SetCell(from, None);
      SetCell(attackingPosition, None);
      SetCell(to, Some(srcPiece));
    }

    /** Copies a saved board value back into the board. */
    method RestoreBoard(saved: BoardState)
      requires Valid()
      modifies board
      ensures Cells() == saved
    {
      for x := 0 to BoardWidth
        invariant forall a, c :: 0 <= a < x && 0 <= c < BoardHeight ==> board[a, c] == saved[c * BoardWidth + a]
      {
        for y := 0 to BoardHeight
          invariant forall a, c :: 0 <= a < x && 0 <= c < BoardHeight ==> board[a, c] == saved[c * BoardWidth + a]
          invariant forall c :: 0 <= c < y ==> board[x, c] == saved[c * BoardWidth + x]
        {
          board[x, y] := saved[y * BoardWidth + x];
        }
      }
      forall i | 0 <= i < BoardSize
        ensures Cells()[i] == saved[i]
      {
        IndexRoundTrip((0, 0), i);
      }
    }

    /**
     * The king search of the nested loops. The break leaves only the row
     * loop, so a king in a later column replaces one found earlier.
     */
    method FindKing(color: Color) returns (kingsPosition: Option<Square>)
      requires Valid()
      ensures kingsPosition == ChessKing(Cells(), color)
    {
      ghost var b := Cells();
      kingsPosition := None;
      for x := 0 to BoardWidth
        invariant kingsPosition == KingScan(KingSquares(b, color), x)
      {
        var row := FindKingInColumn(x, color);
        if row.Some? {
          kingsPosition := Some((x, row.value));
        }
      }
    }

    /** The row loop of the king search: the first row of column x holding a king of colour color. */
    method FindKingInColumn(x: int, color: Color) returns (row: Option<int>)
      requires Valid() && 0 <= x < BoardWidth
      ensures row == ColumnKing(KingSquares(Cells(), color), x, 0)
    {
      ghost var kings := KingSquares(Cells(), color);
      for y := 0 to BoardHeight
        invariant ColumnKing(kings, x, 0) == ColumnKing(kings, x, y)
      {
        CellsAt((x, y));
        if board[x, y].Some? && board[x, y].value.color == color && board[x, y].value.pieceType == King {
          return Some(y);
        }
        ColumnKingSkip(kings, x, y);
      }
      row := None;
    }

    /** Whether the king of colour color is attacked: the found king's square in the enemy's attack table. */
    method IsInCheck(color: Color) returns (r: bool)
      requires Valid() && ChessInCheck(Cells(), color).Some?
      ensures r == ChessInCheck(Cells(), color).value
    {
      ghost var b := Cells();
      var kingsPosition := FindKing(color);
      ChessKingFacts(b, color);
      var k := kingsPosition.value;
      var enemyColor := EnemyColor(color);
      var enemyAttacks := GetAllAttacks(Cells(), enemyColor);
      IndexRoundTrip(k, 0);
      r := enemyAttacks[ToIndex1D(k)];
      assert Cells() == b;
    }

    /**
     * One simulation of the filters: plays from -> to on the board, asks
     * whether the side to move is then in check, and writes the saved board
     * back.
     */
    method Simulate(from: Square, to: Square, boardSaved: BoardState) returns (inCheck: bool)
      requires Valid() && InBound(from) && InBound(to) && Cells() == boardSaved
      requires SimulatedCheck(boardSaved, from, to, currentTurnColor).Some?
      modifies board
      ensures Cells() == boardSaved
      ensures inCheck == SimulatedCheck(boardSaved, from, to, currentTurnColor).value
    {
      MovePiece(from, to);
      inCheck := IsInCheck(currentTurnColor);
      RestoreBoard(boardSaved);
    }

    /** Writes a flat table into the row of (x, y) and leaves the other rows alone. */
    method StoreRow(x: int, y: int, moves: seq<bool>)
      requires Valid() && 0 <= x < BoardWidth && 0 <= y < BoardHeight && |moves| == BoardSize
      modifies legalMoves
      ensures Row(x, y) == moves
      ensures forall a, c :: 0 <= a < BoardWidth && 0 <= c < BoardHeight && (a, c) != (x, y) ==> Row(a, c) == old(Row(a, c))
    {
      for tx := 0 to BoardWidth
        invariant forall d, e :: 0 <= d < tx && 0 <= e < BoardHeight ==> legalMoves[x, y, d, e] == moves[e * BoardWidth + d]
        invariant forall a, c, d, e ::
          (0 <= a < BoardWidth && 0 <= c < BoardHeight && 0 <= d < BoardWidth && 0 <= e < BoardHeight && (a, c) != (x, y)) ==>
          legalMoves[a, c, d, e] == old(legalMoves[a, c, d, e])
      {
        for ty := 0 to BoardHeight
          invariant forall d, e :: 0 <= d < tx && 0 <= e < BoardHeight ==> legalMoves[x, y, d, e] == moves[e * BoardWidth + d]
          invariant forall e :: 0 <= e < ty ==> legalMoves[x, y, tx, e] == moves[e * BoardWidth + tx]
          invariant forall a, c, d, e ::
            (0 <= a < BoardWidth && 0 <= c < BoardHeight && 0 <= d < BoardWidth && 0 <= e < BoardHeight && (a, c) != (x, y)) ==>
            legalMoves[a, c, d, e] == old(legalMoves[a, c, d, e])
        {
          legalMoves[x, y, tx, ty] := moves[ty * BoardWidth + tx];
        }
      }
      forall i | 0 <= i < BoardSize
        ensures Row(x, y)[i] == moves[i]
      {
        IndexRoundTrip((0, 0), i);
      }
      forall a, c | 0 <= a < BoardWidth && 0 <= c < BoardHeight && (a, c) != (x, y)
        ensures Row(a, c) == old(Row(a, c))
      {
        assert forall i :: 0 <= i < BoardSize ==> Row(a, c)[i] == old(Row(a, c))[i];
      }
    }

    /**
     * One side of the castling filter: a marked destination two files away
     * is simulated with the king on its start square and on the transit
     * square, and cleared if either leaves the side to move in check. The
     * flag castling stands for the source's mutable reference into the
     * table's destination entry.
     */
    method CastleSide(from: Square, xDir: int, moves: seq<bool>, boardSaved: BoardState) returns (result: seq<bool>)
      requires Valid() && InBound(from) && |moves| == BoardSize && Cells() == boardSaved
      requires xDir == -1 || xDir == 1
      requires CastleDefinedOn(boardSaved, from, currentTurnColor, moves, xDir)
      modifies board
      ensures Cells() == boardSaved
      ensures result == CastleClear(boardSaved, from, currentTurnColor, moves, xDir)
    {
      result := moves;
      var castlingDst := (from.0 + xDir * 2, from.1);
      if InBound(castlingDst) && moves[ToIndex1D(castlingDst)] {
        var castling := CastlePathSafe(from, xDir, boardSaved);
        if !castling {
          result := moves[ToIndex1D(castlingDst) := false];
        }
      }
    }

    /**
     * The simulation loop of one castling side, entered with the flag set:
     * the flag is cleared when the king is in check on its start square or
     * on the transit square.
     */
    method CastlePathSafe(from: Square, xDir: int, boardSaved: BoardState) returns (castling: bool)
      requires Valid() && InBound(from) && Cells() == boardSaved
      requires (xDir == -1 || xDir == 1) && InBound(TransitSquare(from, xDir))
      requires SimulatedCheck(boardSaved, from, from, currentTurnColor).Some?
      requires SimulatedCheck(boardSaved, from, TransitSquare(from, xDir), currentTurnColor).Some?
      modifies board
      ensures Cells() == boardSaved
      ensures castling == !(SimulatedCheck(boardSaved, from, from, currentTurnColor) == Some(true) ||
                            SimulatedCheck(boardSaved, from, TransitSquare(from, xDir), currentTurnColor) == Some(true))
    {
      castling := true;
      ghost var inCheckAtStart := SimulatedCheck(boardSaved, from, from, currentTurnColor) == Some(true);
      ghost var inCheckInTransit := SimulatedCheck(boardSaved, from, TransitSquare(from, xDir), currentTurnColor) == Some(true);
      for x := 0 to 2
        invariant Cells() == boardSaved
        invariant castling == (!(x > 0 && inCheckAtStart) && !(x > 1 && inCheckInTransit))
      {
        var to := (from.0 + xDir * x, from.1);
        StepSquare(from, xDir, x);
        var inCheck := Simulate(from, to, boardSaved);
        if inCheck {
          castling := false;
        }
      }
    }

    /** The castling filter: both sides for a king, nothing for any other piece. */
    method EliminateCastlingIllegalMoves(from: Square, moves: seq<bool>, boardSaved: BoardState) returns (result: seq<bool>)
      requires Valid() && InBound(from) && |moves| == BoardSize && Cells() == boardSaved
      requires GetPiece(boardSaved, from).Some?
      requires GetPiece(boardSaved, from).value.pieceType == King ==> CastleDefined(boardSaved, from, currentTurnColor, moves)
      modifies board
      ensures Cells() == boardSaved
      ensures result == CastleFilter(boardSaved, from, currentTurnColor, moves)
    {
      result := moves;
      CellsAt(from);
      if board[from.0, from.1].value.pieceType != King {
        return;
      }
      CastleClearOther(boardSaved, from, currentTurnColor, moves);
      var xDirs := [-1, 1];
      for k := 0 to 2
        invariant Cells() == boardSaved && |result| == BoardSize
        invariant result == if k == 0 then moves
                            else if k == 1 then CastleClear(boardSaved, from, currentTurnColor, moves, -1)
                            else CastleClear(boardSaved, from, currentTurnColor, CastleClear(boardSaved, from, currentTurnColor, moves, -1), 1)
      {
        result := CastleSide(from, xDirs[k], result, boardSaved);
      }
    }

    /**
     * The simulate-then-restore filter of the piece on from: every marked
     * destination is played on the board and cleared if it leaves the
     * mover's colour in check; then the castling filter runs and the result
     * is written back into the table.
     */
    method EliminateIllegalMoves(from: Square)
      requires Valid() && InBound(from) && GetPiece(Cells(), from).Some?
      requires GeneralDefined(Cells(), from, currentTurnColor, Row(from.0, from.1))
      requires GetPiece(Cells(), from).value.pieceType == King ==>
        CastleDefined(Cells(), from, currentTurnColor, GeneralFilter(Cells(), from, currentTurnColor, Row(from.0, from.1)))
      modifies board, legalMoves
      ensures Cells() == old(Cells())
      ensures Row(from.0, from.1) ==
        CastleFilter(old(Cells()), from, currentTurnColor, GeneralFilter(old(Cells()), from, currentTurnColor, old(Row(from.0, from.1))))
      ensures forall a, c :: 0 <= a < BoardWidth && 0 <= c < BoardHeight && (a, c) != from ==> Row(a, c) == old(Row(a, c))
    {
      var moves := Row(from.0, from.1);
      var boardSaved := Cells();
      ghost var cands := moves;
      ghost var c := currentTurnColor;
      ghost var filtered := GeneralFilter(boardSaved, from, c, cands);
      for toX := 0 to BoardWidth
        invariant Cells() == boardSaved
        invariant ScannedTable(moves, cands, filtered, toX, 0)
        modifies board
      {
        for toY := 0 to BoardHeight
          invariant Cells() == boardSaved
          invariant ScannedTable(moves, cands, filtered, toX, toY)
          modifies board
        {
          ScannedNext(moves, cands, filtered, toX, toY);
          moves := FilterTarget(from, (toX, toY), boardSaved, moves);
        }
        ScannedColumn(moves, cands, filtered, toX);
      }
      assert moves == filtered;
      moves := EliminateCastlingIllegalMoves(from, moves, boardSaved);
      StoreRow(from.0, from.1, moves);
    }

    /** One target of the general filter: drops it from moves when simulating it leaves the mover in check. */
    method FilterTarget(from: Square, to: Square, boardSaved: BoardState, moves: seq<bool>) returns (r: seq<bool>)
      requires Valid() && InBound(from) && InBound(to) && Cells() == boardSaved && |moves| == BoardSize
      requires moves[ToIndex1D(to)] ==> SimulatedCheck(boardSaved, from, to, currentTurnColor).Some?
      modifies board
      ensures Cells() == boardSaved
      ensures r == moves[ToIndex1D(to) := moves[ToIndex1D(to)] && SimulatedCheck(boardSaved, from, to, currentTurnColor) == Some(false)]
    {
      r := moves;
      if moves[ToIndex1D(to)] {
        var inCheck := Simulate(from, to, boardSaved);
        if inCheck {
          r := moves[ToIndex1D(to) := false];
        }
      }
    }

    /** Clears the whole legal-move table. */
    method ResetLegalMoves()
      requires Valid()
      modifies legalMoves
      ensures forall x, y :: 0 <= x < BoardWidth && 0 <= y < BoardHeight ==> Row(x, y) == NoMoves()
    {
      for x := 0 to BoardWidth
        invariant forall a, c :: 0 <= a < x && 0 <= c < BoardHeight ==> Row(a, c) == NoMoves()
      {
        for y := 0 to BoardHeight
          invariant forall a, c :: 0 <= a < x && 0 <= c < BoardHeight ==> Row(a, c) == NoMoves()
          invariant forall c :: 0 <= c < y ==> Row(x, c) == NoMoves()
        {
          StoreRow(x, y, NoMoves());
        }
      }
    }

    /**
     * The table of one piece of the side to move: its generated moves into a
     * fresh table, stored in the row, then filtered in place.
     */
    method ComputeRow(x: int, y: int)
      requires Valid() && 0 <= x < BoardWidth && 0 <= y < BoardHeight
      requires IsColorOn(Cells(), (x, y), currentTurnColor) && ComputeDefined(Cells(), currentTurnColor)
      modifies board, legalMoves
      ensures Cells() == old(Cells())
      ensures Row(x, y) == LegalMovesOf(Cells(), (x, y), currentTurnColor)
      ensures forall a, c :: 0 <= a < BoardWidth && 0 <= c < BoardHeight && (a, c) != (x, y) ==> Row(a, c) == old(Row(a, c))
    {
      ghost var b := Cells();
      assert RowDefined(b, (x, y), currentTurnColor);
      var moves := new bool[BoardSize](_ => false);
      assert moves[..] == NoMoves();
      GetMoves(Cells(), (x, y), moves);
      AccumulatedFromEmpty(moves[..], PseudoMoves(b, (x, y)));
      StoreRow(x, y, moves[..]);
      EliminateIllegalMoves((x, y));
    }

    /**
     * The inner loop of the computation, over the squares of column x: each
     * piece of the side to move gets its table, the other rows of the column
     * stay empty.
     */
    method ComputeColumn(x: int)
      requires Valid() && 0 <= x < BoardWidth && ComputeDefined(Cells(), currentTurnColor)
      requires forall c :: 0 <= c < BoardHeight ==> Row(x, c) == NoMoves()
      modifies board, legalMoves
      ensures Cells() == old(Cells())
      ensures forall c :: 0 <= c < BoardHeight ==> Row(x, c) == LegalMovesOf(Cells(), (x, c), currentTurnColor)
      ensures forall a, c :: 0 <= a < BoardWidth && 0 <= c < BoardHeight && a != x ==> Row(a, c) == old(Row(a, c))
    {
      ghost var b := Cells();
      for y := 0 to BoardHeight
        invariant Cells() == b
        invariant forall c :: 0 <= c < y ==> Row(x, c) == LegalMovesOf(b, (x, c), currentTurnColor)
        invariant forall c :: y <= c < BoardHeight ==> Row(x, c) == NoMoves()
        invariant forall a, c :: 0 <= a < BoardWidth && 0 <= c < BoardHeight && a != x ==> Row(a, c) == old(Row(a, c))
      {
        label Head:
        if IsColorOn(Cells(), (x, y), currentTurnColor) {
          ComputeRow(x, y);
        } else {
          assert LegalMovesOf(b, (x, y), currentTurnColor) == NoMoves();
        }
        forall c | 0 <= c < y + 1
          ensures Row(x, c) == LegalMovesOf(b, (x, c), currentTurnColor)
        {
          if c < y {
            assert Row(x, c) == old@Head(Row(x, c));
          }
        }
      }
    }

    /**
     * Recomputes the table for the side to move: each of its pieces gets its
     * generated moves, filtered for self-check and castling; every other row
     * is empty, and the board is as before.
     */
    method ComputeEachLegalMoves()
      requires Valid() && ComputeDefined(Cells(), currentTurnColor)
      modifies board, legalMoves
      ensures Cells() == old(Cells())
      ensures forall x, y :: 0 <= x < BoardWidth && 0 <= y < BoardHeight ==>
        Row(x, y) == LegalMovesOf(Cells(), (x, y), currentTurnColor)
    {
      ResetLegalMoves();
      ghost var b := Cells();
      for x := 0 to BoardWidth
        invariant Cells() == b
        invariant forall a, c :: 0 <= a < BoardWidth && 0 <= c < BoardHeight ==>
          Row(a, c) == if a < x then LegalMovesOf(b, (a, c), currentTurnColor) else NoMoves()
      {
        ComputeColumn(x);
      }
    }

    /**
     * The post-move sweep: the opponent's pawns lose their en-passant flag,
     * and a pawn on its far rank becomes a queen.
     */
    method PostMoveUpdate()
      requires Valid()
      modifies board
      ensures Cells() == PostMoveSpec(old(Cells()), currentTurnColor)
    {
      ghost var b := Cells();
      for x := 0 to BoardWidth
        invariant forall i :: 0 <= i < BoardSize ==>
          Cells()[i] == if ScannedBefore(ToIndex2D(i), x, 0) then PostMoveCell(b[i], i / BoardWidth, currentTurnColor) else b[i]
      {
        for y := 0 to BoardHeight
          invariant forall i :: 0 <= i < BoardSize ==>
            Cells()[i] == if ScannedBefore(ToIndex2D(i), x, y) then PostMoveCell(b[i], i / BoardWidth, currentTurnColor) else b[i]
        {
          forall i | 0 <= i < BoardSize
            ensures (ToIndex2D(i) == (x, y)) == (i == ToIndex1D((x, y)))
          {
            IndexRoundTrip((x, y), i);
          }
          CellsAt((x, y));
          var cell := board[x, y];
          if cell.None? {
            continue;
          }
          var piece := cell.value;
          if piece.color == EnemyColor(currentTurnColor) && piece.pieceType.Pawn? {
            piece := piece.(pieceType := Pawn(false));
          }
          var promotionableRow := if piece.color == White then 0 else BoardHeight - 1;
          if piece.pieceType.Pawn? && y == promotionableRow {
            piece := Promote(piece, Queen).value;
          }
          SetCell((x, y), Some(piece));
        }
      }
      assert forall i :: 0 <= i < BoardSize ==> Cells()[i] == PostMoveSpec(b, currentTurnColor)[i];
    }

    /**
     * Passes the turn: the colour flips, the selection is cleared, the state
     * is Check iff the new side's king is attacked, and the cache is invalid.
     */
    method ChangeTurn()
      requires Valid() && ChessInCheck(Cells(), EnemyColor(currentTurnColor)).Some?
      modifies this
      ensures currentTurnColor == EnemyColor(old(currentTurnColor)) && selectedCell == None
      ensures turnState == StateOnTurnChange(ChessInCheck(Cells(), currentTurnColor).value)
      ensures !isMovesComputed
    {
      var nextColor := EnemyColor(currentTurnColor);
      var inCheck := IsInCheck(nextColor);
      currentTurnColor := nextColor;
      selectedCell := None;
      turnState := if inCheck then Check else Normal;
      isMovesComputed := false;
    }

    /** Marks each square movable iff its table has some legal move. */
    method ComputeIsMovable()
      requires Valid()
      modifies isMovable
      ensures forall x, y :: 0 <= x < BoardWidth && 0 <= y < BoardHeight ==> isMovable[x, y] == (true in Row(x, y))
    {
      for x := 0 to BoardWidth
        invariant forall a, c :: 0 <= a < x && 0 <= c < BoardHeight ==> isMovable[a, c] == (true in Row(a, c))
      {
        for y := 0 to BoardHeight
          invariant forall a, c :: 0 <= a < x && 0 <= c < BoardHeight ==> isMovable[a, c] == (true in Row(a, c))
          invariant forall c :: 0 <= c < y ==> isMovable[x, c] == (true in Row(x, c))
        {
          isMovable[x, y] := true in Row(x, y);
        }
      }
    }

    /** A click on cell plays the selected piece there. */
    predicate PlaysMove(cell: Option<Square>)
      requires Valid()
      reads this, legalMoves
    {
      cell.Some? && InBound(cell.value) && selectedCell.Some? && InBound(selectedCell.value) &&
      legalMoves[selectedCell.value.0, selectedCell.value.1, cell.value.0, cell.value.1]
    }

    /**
     * The computing frame: the table and the movable flags of the side to
     * move, and mate or stalemate when nothing can move.
     */
    method ComputeTurn()
      requires Valid() && (selectedCell.Some? ==> InBound(selectedCell.value))
      requires HasKing(Cells(), currentTurnColor)
      modifies this, board, legalMoves, isMovable
      ensures Valid() && Consistent() && isMovesComputed
      ensures Cells() == old(Cells()) && currentTurnColor == old(currentTurnColor) && selectedCell == old(selectedCell)
      ensures turnState == StateAfterCompute(old(turnState), AnyMovable())
    {
      ComputeDefinedWithKing(Cells(), currentTurnColor);
      ComputeEachLegalMoves();
      ComputeIsMovable();
      isMovesComputed := true;
      if !AnyMovable() {
        turnState := if turnState == Check then Checkmate else Stalemate;
      }
    }

    /**
     * The playing click: the selected piece moves to target, the post-move
     * sweep runs and the turn passes.
     */
    method PlayMove(from: Square, target: Square)
      requires Valid() && Consistent() && isMovesComputed && InBound(from) && InBound(target)
      requires legalMoves[from.0, from.1, target.0, target.1]
      requires MoveSpec(Cells(), from, target).Some? ==>
        HasKing(PostMoveSpec(MoveSpec(Cells(), from, target).value, currentTurnColor), EnemyColor(currentTurnColor))
      modifies this, board
      ensures Valid() && Consistent()
      ensures MoveSpec(old(Cells()), from, target).Some?
      ensures Cells() == PostMoveSpec(MoveSpec(old(Cells()), from, target).value, old(currentTurnColor))
      ensures currentTurnColor == EnemyColor(old(currentTurnColor)) && selectedCell == None && !isMovesComputed
      ensures ChessInCheck(Cells(), currentTurnColor).Some?
      ensures turnState == StateOnTurnChange(ChessInCheck(Cells(), currentTurnColor).value)
    {
      ghost var b := Cells();
      RowAt(from.0, from.1, target);
      assert LegalMovesOf(b, from, currentTurnColor)[ToIndex1D(target)];
      assert IsColorOn(b, from, currentTurnColor);
      LegalRowExact(b, from, currentTurnColor, target);
      MovePiece(from, target);
      PostMoveUpdate();
      ChessInCheckFacts(Cells(), EnemyColor(currentTurnColor));
      ChangeTurn();
    }

    /**
     * One frame of the game. While the moves are not computed it computes
     * them and the movable flags, and ends the game in mate or stalemate when
     * nothing can move. Otherwise a press on an already decoded cell either
     * plays the selected piece there (move, sweep, turn change), or selects
     * that cell; a press off the board clears the selection.
     */
    method Update(pressed: bool, cell: Option<Square>)
      requires Valid() && Consistent()
      requires cell.Some? ==> InBound(cell.value)
      requires !isMovesComputed ==> HasKing(Cells(), currentTurnColor)
      requires isMovesComputed && pressed && PlaysMove(cell) ==>
        var from := selectedCell.value;
        MoveSpec(Cells(), from, cell.value).Some? ==>
          HasKing(PostMoveSpec(MoveSpec(Cells(), from, cell.value).value, currentTurnColor), EnemyColor(currentTurnColor))
      modifies this, board, legalMoves, isMovable
      ensures Valid() && Consistent()
      ensures !old(isMovesComputed) ==>
        && isMovesComputed && Cells() == old(Cells()) && currentTurnColor == old(currentTurnColor)
        && selectedCell == old(selectedCell)
        && turnState == StateAfterCompute(old(turnState), AnyMovable())
      ensures old(isMovesComputed) && !pressed ==>
        && isMovesComputed && Cells() == old(Cells()) && currentTurnColor == old(currentTurnColor)
        && selectedCell == old(selectedCell) && turnState == old(turnState)
      ensures old(isMovesComputed) && pressed && !old(PlaysMove(cell)) ==>
        && isMovesComputed && Cells() == old(Cells()) && currentTurnColor == old(currentTurnColor)
        && selectedCell == cell && turnState == old(turnState)
      ensures old(isMovesComputed) && pressed && old(PlaysMove(cell)) ==>
        && MoveSpec(old(Cells()), old(selectedCell).value, cell.value).Some?
        && Cells() == PostMoveSpec(MoveSpec(old(Cells()), old(selectedCell).value, cell.value).value, old(currentTurnColor))
        && currentTurnColor == EnemyColor(old(currentTurnColor)) && selectedCell == None && !isMovesComputed
        && ChessInCheck(Cells(), currentTurnColor).Some?
        && turnState == StateOnTurnChange(ChessInCheck(Cells(), currentTurnColor).value)
    {
      if !isMovesComputed {
        ComputeTurn();
        return;
      }
      if !pressed {
        return;
      }
      if cell.None? {
        selectedCell := None;
        return;
      }
      var target := cell.value;
      var isMovableMove := selectedCell.Some? && legalMoves[selectedCell.value.0, selectedCell.value.1, target.0, target.1];
      if isMovableMove {
        PlayMove(selectedCell.value, target);
      } else {
        selectedCell := cell;
      }
    }
  }
}
