/**
 * The game object of the earlier revision: a flat board of 64 cells, a
 * legal-move table with one row of 64 entries per source square (row src,
 * entry dst says whether the piece on src may go to dst), the movable flags
 * and the turn fields. Every method is proved against the folds of
 * BoardRules, stated on Cells(), the value of the board.
 */
module BoardGame {
  import opened Wrappers
  import opened Pieces
  import opened Squares
  import opened Setup
  import opened MoveCalculator
  import opened ChessRules
  import opened BoardRules
  import opened TurnCycle

  class Board {
    const boardState: array<Option<Piece>>
    const legalMoves: array<seq<bool>>
    const isMovable: array<bool>
    var selectedCell: Option<Square>
    var currentTurnColor: Color
    var turnState: TurnState
    var isMovesComputed: bool
    /** The board the last computation of the table started from. */
    ghost var computedOn: BoardState

    predicate Valid()
      reads legalMoves
    {
      && boardState.Length == BoardSize && legalMoves.Length == BoardSize && isMovable.Length == BoardSize
      && forall src :: 0 <= src < BoardSize ==> |legalMoves[src]| == BoardSize
    }

    /** The board as a value. */
    function Cells(): BoardState
      requires Valid()
      reads legalMoves, boardState
    {
      boardState[..]
    }

    /**
     * The state invariant: the selection is on the board, and once the moves
     * are computed the table and the board are what the computation from
     * computedOn gives, and the movable flags are those of the table.
     */
    ghost predicate Consistent()
      requires Valid()
      reads this, boardState, legalMoves, isMovable
    {
      && (selectedCell.Some? ==> InBound(selectedCell.value))
      && (isMovesComputed ==>
            && BoardAfter(computedOn, currentTurnColor, BoardSize) == Some(Cells())
            && (forall src :: 0 <= src < BoardSize ==> RowAfter(computedOn, currentTurnColor, src) == Some(legalMoves[src]))
            && (forall src :: 0 <= src < BoardSize ==> isMovable[src] == (true in legalMoves[src])))
    }

    /**
     * Whatever the undos did, a marked entry of the table belongs to a square
     * that holds a piece of the side to move on the current board.
     */
    lemma MarkedSourceHolds(src: int, dst: int)
      requires Valid() && Consistent() && isMovesComputed && 0 <= src < BoardSize && 0 <= dst < BoardSize
      requires legalMoves[src][dst]
      ensures IsColorOn(Cells(), ToIndex2D(src), currentTurnColor)
    {
      MarkedRowSource(computedOn, currentTurnColor, src, dst);
    }

    /**
     * When the side to move had a king and every undo of the computation was
     * exact, the board is the one it started from and each row is the legal
     * table of its source there.
     */
    lemma ComputedTableIsLegal()
      requires Valid() && Consistent() && isMovesComputed
      requires HasKing(computedOn, currentTurnColor) && ExactSourceUndos(computedOn, currentTurnColor)
      ensures Cells() == computedOn
      ensures forall src :: 0 <= src < BoardSize ==> legalMoves[src] == FlatLegalRow(Cells(), currentTurnColor, src)
    {
      ExactFiltersWithKing(computedOn, currentTurnColor);
      ComputeExact(computedOn, currentTurnColor, BoardSize);
      forall src | 0 <= src < BoardSize
        ensures legalMoves[src] == FlatLegalRow(computedOn, currentTurnColor, src)
      {
        ComputeExact(computedOn, currentTurnColor, src);
      }
    }

    /** An empty board, White to move, nothing computed. */
    constructor ()
      ensures Valid() && Consistent() && Cells() == EmptyBoard
      ensures forall src :: 0 <= src < BoardSize ==> legalMoves[src] == NoMoves() && !isMovable[src]
      ensures selectedCell == None && currentTurnColor == White && turnState == Normal && !isMovesComputed
      ensures fresh(boardState) && fresh(legalMoves) && fresh(isMovable)
    {
      boardState := new Option<Piece>[BoardSize](_ => None);
      legalMoves := new seq<bool>[BoardSize](_ => NoMoves());
      isMovable := new bool[BoardSize](_ => false);
      selectedCell := None;
      currentTurnColor := White;
      turnState := Normal;
      isMovesComputed := false;
      computedOn := EmptyBoard;
      new;
      assert Cells() == EmptyBoard;
    }

    /**
     * Places the pieces of the standard set-up string: a '-' leaves its
     * square as it was, a letter puts a fresh piece there. From an empty
     * board this is the parsed standard position.
     */
    method Init()
      requires Valid()
      modifies boardState
      ensures Valid()
      ensures |StandardSetup| == BoardSize
      ensures forall i :: 0 <= i < BoardSize ==>
        Cells()[i] == if StandardSetup[i] == '-' then old(Cells())[i] else CellOf(ParseSetupChar(StandardSetup[i]))
      ensures old(Cells()) == EmptyBoard ==> Some(Cells()) == ParseSetup(StandardSetup)
    {
      StandardSetupValid();
      LoadSetup(StandardSetup);
    }

    /** The loop of Init over any well-formed set-up string. */
    method LoadSetup(setup: string)
      requires Valid() && |setup| == BoardSize && ParseSetup(setup).Some?
      modifies boardState
      ensures Valid()
      ensures forall i :: 0 <= i < BoardSize ==>
        Cells()[i] == if setup[i] == '-' then old(Cells())[i] else CellOf(ParseSetupChar(setup[i]))
      ensures old(Cells()) == EmptyBoard ==> Cells() == ParseSetup(setup).value
    {
      for pos := 0 to BoardSize
        invariant forall i :: 0 <= i < BoardSize ==>
          boardState[i] == if i < pos && setup[i] != '-' then CellOf(ParseSetupChar(setup[i])) else old(boardState[i])
      {
        var curr := setup[pos];
        if curr == '-' {
          continue;
        }
        var pieceType := LetterType(curr);
        var color := if IsLowercase(curr) then Black else White;
        boardState[pos] := Some(NewPiece(pieceType.value, color));
      }
      if old(Cells()) == EmptyBoard {
        assert forall i :: 0 <= i < BoardSize ==> Cells()[i] == ParseSetup(setup).value[i];
      }
    }

    /**
     * Moves the piece on from to to, as FlatMove says, and returns the old
     * content of the square it captured on together with that square.
     */
    method MovePiece(from: Square, to: Square) returns (eliminated: Option<Piece>, eliminatedPosition: Square)
      requires Valid() && InBound(from) && InBound(to) && !IsEmptyOn(Cells(), from)
      modifies boardState
      ensures Valid()
      ensures FlatMove(old(Cells()), from, to) == Some(Capture(Cells(), eliminated, eliminatedPosition))
    {
      ghost var b := Cells();
      var from1D := ToIndex1D(from);
      var to1D := ToIndex1D(to);
      var src := boardState[from1D];
      var srcPiece := SetHasMoved(src.value, true);
      eliminated := boardState[to1D];
      eliminatedPosition := to;
      if srcPiece.pieceType.Pawn? {
        if from.0 != to.0 {
          var enPassantTarget := boardState[ToIndex1D((to.0, from.1))];
          if enPassantTarget.Some? && enPassantTarget.value.color != srcPiece.color &&
             enPassantTarget.value.pieceType == Pawn(true) {
            eliminated := enPassantTarget;
            eliminatedPosition := (to.0, from.1);
          }
        } else if AbsDiff(from.1, to.1) == 2 {
          srcPiece := srcPiece.(pieceType := Pawn(true));
        }
      }
      assert eliminatedPosition == AttackingPosition(b, from, to, SetHasMoved(src.value, true));
      boardState[from1D] := None;
      boardState[ToIndex1D(eliminatedPosition)] := None;
      boardState[to1D] := Some(srcPiece);
    }

    /** The king search: the first flat index holding a king of colour color. */
    method FindKing(color: Color) returns (kingsPosition: Option<int>)
      requires Valid()
      ensures kingsPosition == FlatKing(Cells(), color)
    {
      ghost var kings := FlatKings(Cells(), color);
      for pos1D := 0 to BoardSize
        invariant FirstKing(kings, pos1D) == FlatKing(Cells(), color)
      {
        if boardState[pos1D].Some? && boardState[pos1D].value.color == color && boardState[pos1D].value.pieceType == King {
          return Some(pos1D);
        }
      }
      kingsPosition := None;
    }

    /** Whether the king of colour color is attacked: the found king's index in the enemy's attack table. */
    method IsInCheck(color: Color) returns (r: bool)
      requires Valid() && FlatKing(Cells(), color).Some?
      ensures r == FlatInCheck(Cells(), color).value
    {
      var kingsPosition := FindKing(color);
      var k := kingsPosition.value;
      var enemyColor := EnemyColor(color);
      var enemyMoves := GetAllAttacks(Cells(), enemyColor);
      r := enemyMoves[k];
    }

    /**
     * One candidate of the filter of the piece on src: a marked destination
     * is played, tested for check and undone by writing back three cells.
     */
    method FilterCandidate(src: int, dst: int, moves: seq<bool>) returns (r: seq<bool>)
      requires Valid() && 0 <= src < BoardSize && 0 <= dst < BoardSize && |moves| == BoardSize && moves[dst]
      requires FilterStep(Cells(), ToIndex2D(src), currentTurnColor, moves, dst).Some?
      modifies boardState
      ensures Valid()
      ensures FilterStep(old(Cells()), ToIndex2D(src), currentTurnColor, moves, dst) == Some((Cells(), r))
    {
      ghost var b := Cells();
      var from := ToIndex2D(src);
      var to := ToIndex2D(dst);
      IndexRoundTrip(from, src);
      IndexRoundTrip(to, dst);
      assert FlatSimulatedCheck(b, from, to, currentTurnColor).Some?;
      var originalSrc := boardState[src];
      var eliminated, eliminatedPosition := MovePiece(from, to);
      var inCheck := IsInCheck(currentTurnColor);
      r := if inCheck then moves[dst := false] else moves;
      boardState[src] := originalSrc;
      boardState[dst] := None;
      boardState[ToIndex1D(eliminatedPosition)] := eliminated;
      assert Cells() == UndoOf(b, from, to);
    }

    /**
     * The filter of the piece on src: its row is copied out, every marked
     * destination is played, tested and undone in index order, and the
     * filtered copy is written back; the other rows stay as they were.
     */
    method EliminateIllegalMoves(src: int)
      requires Valid() && 0 <= src < BoardSize
      requires FilterFrom(Cells(), ToIndex2D(src), currentTurnColor, legalMoves[src], 0).Some?
      modifies boardState, legalMoves
      ensures Valid()
      ensures FilterFrom(old(Cells()), ToIndex2D(src), currentTurnColor, old(legalMoves[src]), 0) == Some((Cells(), legalMoves[src]))
      ensures forall s :: 0 <= s < BoardSize && s != src ==> legalMoves[s] == old(legalMoves[s])
    {
      var moves := legalMoves[src];
      ghost var from := ToIndex2D(src);
      ghost var b := Cells();
      ghost var cands := moves;
      for dst := 0 to BoardSize
        invariant Valid() && |moves| == BoardSize
        invariant FilterFrom(Cells(), from, currentTurnColor, moves, dst) == FilterFrom(b, from, currentTurnColor, cands, 0)
        modifies boardState
      {
        if !moves[dst] {
          continue;
        }
        ghost var before := Cells();
        var next := FilterCandidate(src, dst, moves);
        FilterFromUnfold(before, from, currentTurnColor, moves, dst, (Cells(), next));
        moves := next;
      }
      legalMoves[src] := moves;
    }

    /** Clears the whole legal-move table. */
    method ResetLegalMoves()
      requires Valid()
      modifies legalMoves
      ensures Valid()
      ensures forall src :: 0 <= src < BoardSize ==> legalMoves[src] == NoMoves()
    {
      for src := 0 to BoardSize
        invariant forall s :: 0 <= s < BoardSize ==> legalMoves[s] == if s < src then NoMoves() else old(legalMoves[s])
      {
        legalMoves[src] := NoMoves();
      }
    }

    /**
     * The table of one piece of the side to move: its generated moves, into
     * a fresh table stored in its empty row, then filtered.
     */
    method ComputeSource(pos1D: int)
      requires Valid() && 0 <= pos1D < BoardSize && IsColorOn(Cells(), ToIndex2D(pos1D), currentTurnColor)
      requires legalMoves[pos1D] == NoMoves() && SourceStep(Cells(), currentTurnColor, pos1D).Some?
      modifies boardState, legalMoves
      ensures Valid()
      ensures SourceStep(old(Cells()), currentTurnColor, pos1D) == Some((Cells(), legalMoves[pos1D]))
      ensures forall s :: 0 <= s < BoardSize && s != pos1D ==> legalMoves[s] == old(legalMoves[s])
    {
      var pos2D := ToIndex2D(pos1D);
      IndexRoundTrip(pos2D, pos1D);
      var moves := new bool[BoardSize](_ => false);
      assert moves[..] == NoMoves();
      GetMoves(Cells(), pos2D, moves);
      AccumulatedFromEmpty(moves[..], PseudoMoves(Cells(), pos2D));
      legalMoves[pos1D] := moves[..];
      EliminateIllegalMoves(pos1D);
    }

    /**
     * Recomputes the table for the side to move: the sources are worked on
     * in index order, each on the board the earlier filters left, as
     * BoardAfter and RowAfter say; a square without a piece of that side
     * keeps an empty row.
     */
    method ComputeEachLegalMoves()
      requires Valid() && ComputeDefinedFlat(Cells(), currentTurnColor)
      modifies boardState, legalMoves
      ensures Valid()
      ensures BoardAfter(old(Cells()), currentTurnColor, BoardSize) == Some(Cells())
      ensures forall src :: 0 <= src < BoardSize ==> RowAfter(old(Cells()), currentTurnColor, src) == Some(legalMoves[src])
    {
      ResetLegalMoves();
      ghost var b := Cells();
      for pos1D := 0 to BoardSize
        invariant Valid()
        invariant BoardAfter(b, currentTurnColor, pos1D) == Some(Cells())
        invariant forall s :: 0 <= s < pos1D ==> RowAfter(b, currentTurnColor, s) == Some(legalMoves[s])
        invariant forall s :: pos1D <= s < BoardSize ==> legalMoves[s] == NoMoves()
      {
        SourceDefined(b, currentTurnColor, pos1D);
        ghost var before := Cells();
        label Head:
        var pos2D := ToIndex2D(pos1D);
        IndexRoundTrip(pos2D, pos1D);
        if boardState[pos1D].None? || boardState[pos1D].value.color != currentTurnColor {
          assert !IsColorOn(Cells(), pos2D, currentTurnColor);
          AfterStep(b, currentTurnColor, pos1D, (before, NoMoves()));
        } else {
          ComputeSource(pos1D);
          AfterStep(b, currentTurnColor, pos1D, (Cells(), legalMoves[pos1D]));
        }
        forall s | 0 <= s < pos1D + 1
          ensures RowAfter(b, currentTurnColor, s) == Some(legalMoves[s])
        {
          if s < pos1D {
            assert legalMoves[s] == old@Head(legalMoves[s]);
          }
        }
      }
    }

    /** The post-move sweep: the opponent's pawns lose their en-passant flag. */
    method PostMoveUpdate()
      requires Valid()
      modifies boardState
      ensures Valid()
      ensures Cells() == FlatPostMove(old(Cells()), currentTurnColor)
    {
      for pos1D := 0 to BoardSize
        invariant forall i :: 0 <= i < BoardSize ==>
          boardState[i] == if i < pos1D then FlatPostMoveCell(old(boardState[i]), currentTurnColor) else old(boardState[i])
      {
        var cell := boardState[pos1D];
        if cell.None? {
          continue;
        }
        var piece := cell.value;
        if piece.color == EnemyColor(currentTurnColor) && piece.pieceType.Pawn? {
          boardState[pos1D] := Some(piece.(pieceType := Pawn(false)));
        }
      }
      assert forall i :: 0 <= i < BoardSize ==> Cells()[i] == FlatPostMove(old(Cells()), currentTurnColor)[i];
    }

    /**
     * Passes the turn: the colour flips, the selection is cleared, the state
     * is Check iff the new side's king is attacked, and the cache is invalid.
     */
    method ChangeTurn()
      requires Valid() && FlatKing(Cells(), EnemyColor(currentTurnColor)).Some?
      modifies this
      ensures currentTurnColor == EnemyColor(old(currentTurnColor)) && selectedCell == None
      ensures turnState == StateOnTurnChange(FlatInCheck(Cells(), currentTurnColor).value)
      ensures !isMovesComputed
    {
      currentTurnColor := EnemyColor(currentTurnColor);
      selectedCell := None;
      var inCheck := IsInCheck(currentTurnColor);
      turnState := if inCheck then Check else Normal;
      isMovesComputed := false;
    }

    /** Marks each source movable iff its row has some legal move. */
    method ComputeIsMovable()
      requires Valid()
      modifies isMovable
      ensures forall src :: 0 <= src < BoardSize ==> isMovable[src] == (true in legalMoves[src])
    {
      for pos := 0 to BoardSize
        invariant forall s :: 0 <= s < pos ==> isMovable[s] == (true in legalMoves[s])
      {
        isMovable[pos] := true in legalMoves[pos];
      }
    }

    /** A click on cell plays the selected piece there. */
    predicate PlaysMove(cell: Option<Square>)
      requires Valid()
      reads this, legalMoves
    {
      cell.Some? && InBound(cell.value) && selectedCell.Some? && InBound(selectedCell.value) &&
      legalMoves[ToIndex1D(selectedCell.value)][ToIndex1D(cell.value)]
    }

    /**
     * The computing frame: the table and the movable flags of the side to
     * move, and mate or stalemate when nothing can move.
     */
    method ComputeTurn()
      requires Valid() && (selectedCell.Some? ==> InBound(selectedCell.value))
      requires HasKing(Cells(), currentTurnColor)
      modifies this, boardState, legalMoves, isMovable
      ensures Valid() && Consistent() && isMovesComputed
      ensures computedOn == old(Cells()) && currentTurnColor == old(currentTurnColor) && selectedCell == old(selectedCell)
      ensures turnState == StateAfterCompute(old(turnState), true in isMovable[..])
    {
      FlatComputeDefinedWithKing(Cells(), currentTurnColor);
      computedOn := Cells();
      ComputeEachLegalMoves();
      ComputeIsMovable();
      isMovesComputed := true;
      if !(true in isMovable[..]) {
        turnState := if turnState == Check then Checkmate else Stalemate;
      }
    }

    /**
     * The playing click: the selected piece moves to target, the post-move
     * sweep runs and the turn passes.
     */
    method PlayMove(from: Square, target: Square)
      requires Valid() && Consistent() && isMovesComputed && InBound(from) && InBound(target)
      requires legalMoves[ToIndex1D(from)][ToIndex1D(target)]
      requires FlatMove(Cells(), from, target).Some? ==>
        HasKing(FlatPostMove(FlatMove(Cells(), from, target).value.board, currentTurnColor), EnemyColor(currentTurnColor))
      modifies this, boardState
      ensures Valid() && Consistent()
      ensures FlatMove(old(Cells()), from, target).Some?
      ensures Cells() == FlatPostMove(FlatMove(old(Cells()), from, target).value.board, old(currentTurnColor))
      ensures currentTurnColor == EnemyColor(old(currentTurnColor)) && selectedCell == None && !isMovesComputed
      ensures FlatInCheck(Cells(), currentTurnColor).Some?
      ensures turnState == StateOnTurnChange(FlatInCheck(Cells(), currentTurnColor).value)
    {
      IndexRoundTrip(from, ToIndex1D(from));
      MarkedSourceHolds(ToIndex1D(from), ToIndex1D(target));
      var _, _ := MovePiece(from, target);
      PostMoveUpdate();
      FlatKingFacts(Cells(), EnemyColor(currentTurnColor));
      ChangeTurn();
    }

    /**
     * One frame of the game. While the moves are not computed it computes
     * them and the movable flags, and ends the game in mate or stalemate when
     * nothing can move. Otherwise a press on an already decoded cell either
     * plays the selected piece there (move, sweep, turn change), or selects
     * that cell; a press off the board clears the selection.
     */
    method Update(pressed: bool, cell: Option<Square>)
      requires Valid() && Consistent()
      requires cell.Some? ==> InBound(cell.value)
      requires !isMovesComputed ==> HasKing(Cells(), currentTurnColor)
      requires isMovesComputed && pressed && PlaysMove(cell) ==>
        var from := selectedCell.value;
        FlatMove(Cells(), from, cell.value).Some? ==>
          HasKing(FlatPostMove(FlatMove(Cells(), from, cell.value).value.board, currentTurnColor), EnemyColor(currentTurnColor))
      modifies this, boardState, legalMoves, isMovable
      ensures Valid() && Consistent()
      ensures !old(isMovesComputed) ==>
        && isMovesComputed && computedOn == old(Cells()) && currentTurnColor == old(currentTurnColor)
        && selectedCell == old(selectedCell)
        && turnState == StateAfterCompute(old(turnState), true in isMovable[..])
      ensures old(isMovesComputed) && !pressed ==>
        && isMovesComputed && Cells() == old(Cells()) && currentTurnColor == old(currentTurnColor)
        && selectedCell == old(selectedCell) && turnState == old(turnState)
        && computedOn == old(computedOn) && legalMoves[..] == old(legalMoves[..]) && isMovable[..] == old(isMovable[..])
      ensures old(isMovesComputed) && pressed && !old(PlaysMove(cell)) ==>
        && isMovesComputed && Cells() == old(Cells()) && currentTurnColor == old(currentTurnColor)
        && selectedCell == cell && turnState == old(turnState)
        && computedOn == old(computedOn) && legalMoves[..] == old(legalMoves[..]) && isMovable[..] == old(isMovable[..])
      ensures old(isMovesComputed) && pressed && old(PlaysMove(cell)) ==>
        && FlatMove(old(Cells()), old(selectedCell).value, cell.value).Some?
        && Cells() == FlatPostMove(FlatMove(old(Cells()), old(selectedCell).value, cell.value).value.board, old(currentTurnColor))
        && currentTurnColor == EnemyColor(old(currentTurnColor)) && selectedCell == None && !isMovesComputed
        && FlatInCheck(Cells(), currentTurnColor).Some?
        && turnState == StateOnTurnChange(FlatInCheck(Cells(), currentTurnColor).value)
    {
      if !isMovesComputed {
        ComputeTurn();
        return;
      }
      if !pressed {
        return;
      }
      if cell.None? {
        selectedCell := None;
        return;
      }
      var target := cell.value;
      var isMovableMove := selectedCell.Some? && legalMoves[ToIndex1D(selectedCell.value)][ToIndex1D(target)];
      if isMovableMove {
        PlayMove(selectedCell.value, target);
      } else {
        selectedCell := cell;
      }
    }
  }
}
