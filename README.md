# rust-chess rules engine in Dafny

This project models the rules engine of a two-player chess program written in
Rust. It covers the pieces, the pseudo-legal move generator, and two revisions
of the board object. The latest revision (`src/chess.rs`) keeps an 8x8 `[x][y]`
grid and an 8x8x8x8 legal-move table. The earlier revision (`src/board.rs`)
keeps a flat 64-cell array and a 64x64 table. Drawing, mouse decoding and the
application shell are not modelled.

The modules follow the program's structure:

| module | file | models |
|---|---|---|
| `Wrappers` | wrappers.dfy | the `Option` type the model uses for a fatal abort |
| `Pieces` | pieces.dfy | `src/piece.rs`: piece value, promotion, enemy colour, letter encodings |
| `Squares` | squares.dfy | index conversion, bounds, and the cell queries both revisions share |
| `Setup` | setup.dfy | the initial-position string and its letter code, read by both `init`s |
| `MoveCalculator` | move_calculator.dfy | `src/move_calculator.rs`: each rule as a set-valued function, characterised by lemmas, and as the in-place method that marks a `array<bool>` table; also the attack union the check tests use |
| `TurnCycle` | turn.dfy | the Normal / Check / Checkmate / Stalemate cycle |
| `ChessRules` | chess_rules.dfy | the latest revision's rules as functions of a board value: move, king search, check test, both filters, post-move sweep |
| `ChessGame` | chess_game.dfy | class `Chess`: the latest revision's mutable state (`array2` board, `array4` table, `array2` movable flags), each method proved against `ChessRules` |
| `BoardRules` | board_rules.dfy | the earlier revision's rules: move with capture report, three-cell undo, flat king search, the filter and the whole computation as folds |
| `BoardGame` | board_game.dfy | class `Board`: the earlier revision's mutable state (flat `array` board, one row per source square), each method proved against `BoardRules` |

A board value is the flat sequence of 64 cells, with cell (x, y) at index
y * 8 + x. The generator reads this value; `Chess.Cells()` flattens the grid
into it. A fatal `panic!`/`expect` of the source is the result `None` of a
specification function. The method that would hit it requires the function to
be `Some`, because the source demands that of its callers.

Where the source's own comments promise more than its code does, the model
follows the code:

- Both revisions mark the undo of a trial move "recover the original state"
  (`src/chess.rs:306`, `src/board.rs:238`). The latest revision does so: it
  copies the whole board back. The earlier revision writes back only three
  cells, which can lose a piece. `BoardRules.UndoExact` states exactly when
  three cells are enough.
- Both king searches are marked "find king of the given color"
  (`src/chess.rs:362`, `src/board.rs:250`). The latest revision's search
  breaks only its inner loop (`src/chess.rs:369`), so with several kings of
  one colour it finds the one in the last column holding a king.
  `ChessRules.ChessKingFacts` states this, and `BoardRules.KingSearchesAgree`
  shows that both searches find the king when a colour has exactly one.
- The post-move sweep of the latest revision, marked "update promotion"
  (`src/chess.rs:397-407`), always turns a pawn on its far rank into a Queen.
  No state lets a player choose the piece. The earlier revision never
  promotes.
- The generator's own signature (`get_moves(pos, &Board, moves)`) matches
  neither caller. `src/chess.rs` calls it as `get_pseudo_legal_moves` and
  `get_all_attacks`; `src/board.rs` calls it as `get_moves(&board_state, pos,
  moves)`. The model has one generator, `MoveCalculator.GetMoves` over the
  board value, and one attack union, `MoveCalculator.GetAllAttacks`. Both
  revisions use them.

## Model

| member | source | states |
|---|---|---|
| Pieces.NewPiece | src/piece.rs:15-21 | a new piece has the given type and colour and has not moved |
| Pieces.SetHasMoved | src/piece.rs:45-47 | only the moved flag changes; type and colour are kept |
| Pieces.Promote | src/piece.rs:49-59 | aborts exactly on a non-pawn or a King target; otherwise the type becomes the target and colour and moved flag are kept |
| Pieces.EnemyColor | src/piece.rs:111-118 | the enemy colour is never the colour itself |
| Pieces.EnemyColorInvolution | src/piece.rs:111-118 | flipping twice gives the colour back; White and Black swap |
| Pieces.ColorLetter | src/piece.rs:120-131 | White prints as 'w' and Black as 'b' |
| Pieces.ColorLetterInjective | src/piece.rs:120-131 | the two colours print differently |
| Pieces.PieceLetterDecides | src/piece.rs:62-103 | two pieces print the same letter iff they have the same kind and colour; the moved and pawn flags do not show |
| Pieces.PieceLetterCase | src/piece.rs:62-76 | White pieces print upper-case letters, Black pieces lower-case ones |
| Pieces.PawnPayloadDistinguishes | src/piece.rs:78-86 | derived type equality compares the pawn's en-passant payload, though both are pawns |
| Squares.IndexRoundTrip | src/chess.rs:163-169 | flattening and unflattening are inverse for every on-board square and every index in [0, 64) |
| Squares.ToIndex1DInjective | src/board.rs:56-62 | distinct on-board squares have distinct flat indices |
| Squares.CellCases | src/board.rs:123-134 | a cell is empty iff it holds neither colour, and never holds both; the colour test is false on an empty cell |
| Squares.Put | src/board.rs:193-195 | writing a cell makes it hold the written value |
| Squares.PutOther | src/board.rs:193-195 | writing a cell leaves every other cell alone |
| Setup.ParseSetupMeaning | src/chess.rs:60-93 | set-up parsing fails iff some character is invalid; otherwise the character at index ind decides square (ind % 8, ind / 8): '-' empty, upper case White, lower case Black, the type its letter names, not moved, no pawn flag |
| Setup.ValidSetupChars | src/chess.rs:74-83 | exactly '-' and the twelve piece letters are accepted |
| Setup.StandardSetupValid | src/chess.rs:61-69 | the standard position string has 64 characters, all accepted, so parsing it succeeds |
| Setup.LetterRoundTrip | src/piece.rs:62-103 | printing a fresh piece as a letter and parsing the letter gives the piece back |
| Setup.ParseThenLetter | src/chess.rs:74-89 | a parsed piece prints as the letter it was parsed from |
| TurnCycle.StateOnTurnChange | src/chess.rs:416-420 | after a turn change the state is Check iff the new side's king is attacked, Normal otherwise |
| TurnCycle.StateAfterCompute | src/chess.rs:127-133 | with a movable piece the state is kept; with none, Checkmate iff it was Check and Stalemate otherwise |
| TurnCycle.TurnOutcome | src/chess.rs:116-135 | over a whole turn the game ends exactly when nothing can move: mate iff in check, stalemate otherwise |
| MoveCalculator.AccumulatedFromEmpty | src/move_calculator.rs:3-15 | marking a set into the all-false table gives that set's table |
| MoveCalculator.AccumulatedTrans | src/move_calculator.rs:122-123 | marking two sets one after the other marks their union |
| MoveCalculator.MarkOne | src/move_calculator.rs:39 | setting one entry marks exactly that square |
| MoveCalculator.PawnExact | src/move_calculator.rs:17-61 | a pawn marks the square ahead iff it is on the board and empty, the square two ahead iff the pawn has not moved and both are empty, a forward diagonal iff an enemy stands there, and nothing else; ahead is -1 for White and +1 for Black |
| MoveCalculator.KnightExact | src/move_calculator.rs:63-96 | a knight marks exactly the (1, 2) and (2, 1) jumps that are on the board and not own-held |
| MoveCalculator.KnightJumpOffsets | src/move_calculator.rs:69-78 | the eight listed offsets are exactly the (1, 2) and (2, 1) jumps |
| MoveCalculator.OffsetMember | src/move_calculator.rs:86-95 | a square is marked by an offset loop iff it is open and one of the offsets away |
| MoveCalculator.KingExact | src/move_calculator.rs:126-156 | a king marks exactly its on-board, not own-held neighbours; nothing two files away, so no castling |
| MoveCalculator.RayAdvance | src/move_calculator.rs:167-185 | one ray step: off the board the ray is done; an empty square is marked and the ray goes on; an occupied square is marked iff enemy-held and ends the ray |
| MoveCalculator.RayExact | src/move_calculator.rs:158-186 | a ray marks exactly the squares k >= 1 steps away that are on the board, not own-held, and have only empty squares before them |
| MoveCalculator.RaySound | src/move_calculator.rs:171-179 | every square of a ray is on the board, is not the origin, and is not own-held |
| MoveCalculator.RaysFromMember | src/move_calculator.rs:202-204 | a union of rays holds a square iff one of its rays does |
| MoveCalculator.DirectionsSplit | src/move_calculator.rs:194 | the eight unit directions split into the four orthogonal and the four diagonal ones |
| MoveCalculator.OrthogonalExact | src/move_calculator.rs:188-205 | orthogonal moves are the union of the rays along ranks and files |
| MoveCalculator.DiagonalExact | src/move_calculator.rs:207-224 | diagonal moves are the union of the four diagonal rays |
| MoveCalculator.QueenExact | src/move_calculator.rs:116-124 | a queen's moves are the union of the rays in all eight directions |
| MoveCalculator.PseudoMovesSound | src/move_calculator.rs:3-15 | every generated square is on the board, is not the origin, and is not own-held; an empty source generates nothing |
| MoveCalculator.UnionPrefixMember | src/board.rs:266-277 | the union of the first n sets holds a square iff one of them does |
| MoveCalculator.AttacksBelowMember | src/board.rs:266-277 | the attack union of the first n indices holds a square iff a piece of the colour there generates it |
| MoveCalculator.AttacksMember | src/board.rs:263-279 | a square is attacked by a colour iff some piece of that colour generates it |
| MoveCalculator.Mark | src/move_calculator.rs:39 | the table gains exactly the marked square |
| MoveCalculator.GetMoves | src/move_calculator.rs:3-15 | marks exactly the piece's generated squares on top of what the table held; only sets entries; an empty square leaves the table unchanged |
| MoveCalculator.GetPawnMoves | src/move_calculator.rs:17-61 | marks exactly the pawn's advance and capture squares on top of the table |
| MoveCalculator.TryPawnCapture | src/move_calculator.rs:52-60 | marks the forward diagonal iff an enemy stands there |
| MoveCalculator.GetKnightMoves | src/move_calculator.rs:63-96 | marks exactly the knight's open jump squares |
| MoveCalculator.MarkIfOpen | src/move_calculator.rs:89-94 | marks a square iff it is on the board and empty or enemy-held |
| MoveCalculator.GetBishopMoves | src/move_calculator.rs:98-105 | marks exactly the diagonal rays |
| MoveCalculator.GetRookMoves | src/move_calculator.rs:107-114 | marks exactly the orthogonal rays |
| MoveCalculator.GetQueenMoves | src/move_calculator.rs:116-124 | marks exactly the diagonal and the orthogonal rays |
| MoveCalculator.TryKingSquare | src/move_calculator.rs:146-153 | marks one neighbour iff it is open |
| MoveCalculator.GetKingMoves | src/move_calculator.rs:126-156 | marks exactly the king's open neighbours |
| MoveCalculator.VisitRaySquare | src/move_calculator.rs:175-184 | reports whether the square is empty; marks it iff it is empty or enemy-held |
| MoveCalculator.GetMovesInDirection | src/move_calculator.rs:158-186 | marks exactly the ray from the square in the direction |
| MoveCalculator.GetOrthogonalMoves | src/move_calculator.rs:188-205 | marks exactly the four orthogonal rays |
| MoveCalculator.GetDiagonalMoves | src/move_calculator.rs:207-224 | marks exactly the four diagonal rays |
| MoveCalculator.GetAllAttacks | src/board.rs:263-277 | a fresh table whose entry i is set iff some piece of the colour generates square i |
| ChessRules.MoveFatal | src/chess.rs:201-235 | a move aborts exactly when its source is empty or a castling king's corner is empty |
| ChessRules.MoveMover | src/chess.rs:201-217 | afterwards the destination holds the mover, same colour and kind, moved, flagged iff it was flagged or just advanced two ranks; the source is empty unless it is the destination |
| ChessRules.MoveEnPassant | src/chess.rs:244-255 | a pawn moving to another file beside a flagged enemy pawn on (to.x, from.y) removes that pawn |
| ChessRules.MoveCastling | src/chess.rs:219-235 | a king moving two files takes the corner rook (file 7 or 0) to the square beside its destination, marked moved, and empties the corner |
| ChessRules.MoveFrame | src/chess.rs:201-235 | a move changes no square but its source, destination, capture square and the castling rook's two squares |
| ChessRules.MoveInPlace | src/chess.rs:345-348 | moving the king onto its own square only marks it moved |
| ChessRules.ColumnKingFacts | src/chess.rs:364-371 | the row loop finds a king iff its column has one from the start row on, and finds the first |
| ChessRules.KingScanIsKing | src/chess.rs:363-372 | the search result is one of the kings |
| ChessRules.KingScanLast | src/chess.rs:363-372 | no king stands in a later column than the result, or above it in its column |
| ChessRules.KingScanComplete | src/chess.rs:363-372 | the search finds nothing only when no column holds a king |
| ChessRules.ChessKingFacts | src/chess.rs:360-374 | the search finds a king iff the colour has one; the one found is in the last column with such a king, first row there |
| ChessRules.ChessKingUnique | src/chess.rs:360-374 | with a single king the search finds it |
| ChessRules.ChessInCheckFacts | src/chess.rs:359-380 | the check test aborts iff the colour has no king; otherwise true iff some enemy piece generates the found king's square |
| ChessRules.GeneralFilterFacts | src/chess.rs:291-309 | a candidate survives the simulate-and-restore loop iff it was a candidate and the simulated move leaves the mover not in check |
| ChessRules.CastleClearFacts | src/chess.rs:330-356 | one side's castling test only clears entries, only its own destination, and clears a marked one iff the king is in check on its start or transit square |
| ChessRules.CastleClearOther | src/chess.rs:330-337 | the left side's test leaves the right destination alone |
| ChessRules.CastleClearUnmarked | src/chess.rs:339-341 | a side whose destination is unmarked changes nothing |
| ChessRules.CastleFilterFacts | src/chess.rs:317-357 | the castling filter only clears entries, only the two castling destinations, and for a king clears a marked one iff it is in check on the start or transit square; other pieces are untouched |
| ChessRules.KingTableNoCastle | src/move_calculator.rs:132-155 | the generated and filtered king table never marks a square two files away |
| ChessRules.CastleFilterInert | src/chess.rs:311-312 | on a generated table the castling filter changes nothing |
| ChessRules.LegalRowExact | src/chess.rs:276-314 | a piece's legal table marks exactly its generated squares after which the mover is not in check |
| ChessRules.MoveKeepsKing | src/chess.rs:300-302 | a trial move of a generated or castling square keeps the mover's king, so the check test cannot abort |
| ChessRules.ComputeDefinedWithKing | src/chess.rs:265-285 | when the side to move has a king, every row it computes runs without an abort |
| ChessRules.MovableExact | src/chess.rs:425-435 | a square is movable iff it holds a piece of the side to move with a generated move that does not leave its king in check |
| ChessRules.PostMoveFacts | src/chess.rs:382-410 | the sweep keeps occupancy, colour and moved flag; a pawn on its far rank (0 for White, 7 for Black) becomes a Queen; the opponent's other pawns lose their flag; nothing else changes |
| ChessGame.ScannedNext | src/chess.rs:291-297 | filtering square (x, y) of the nested scan moves its invariant on to (x, y + 1) |
| ChessGame.ScannedColumn | src/chess.rs:291-292 | a finished column of the scan starts the next one |
| ChessGame.StepSquare | src/chess.rs:345-346 | step 0 of the castling loop tries the start square, step 1 the transit square |
| ChessGame.Chess.CellsAt | src/chess.rs:175-186 | the flat value's cell (x, y) is the grid's board[x][y] |
| ChessGame.Chess.RowAt | src/chess.rs:279 | the flat row's entry (tx, ty) is legal_moves[x][y][tx][ty] |
| ChessGame.Chess.constructor | src/chess.rs:43-58 | an empty board, empty table, no movable square, White to move, state Normal, nothing computed |
| ChessGame.Chess.Init | src/chess.rs:60-98 | every letter of the standard string puts the fresh piece it names on its square; from an empty board the result is the parsed standard position |
| ChessGame.Chess.LoadSetup | src/chess.rs:71-93 | the set-up loop for any well-formed string: '-' leaves the square, a letter places its piece |
| ChessGame.Chess.PlaceLetter | src/chess.rs:85-92 | the letter's fresh piece is written to square (ind % 8, ind / 8) |
| ChessGame.Chess.SetCell | src/chess.rs:214-216 | one grid cell is written; the rest of the board is kept |
| ChessGame.Chess.MoveEnPassant | src/chess.rs:237-262 | gives the capture square and the mover flagged after a two-rank advance |
| ChessGame.Chess.MoveCastling | src/chess.rs:219-235 | relocates the corner rook exactly as the castling rule says |
| ChessGame.Chess.MovePiece | src/chess.rs:201-217 | the board becomes the move's result, as ChessRules.MoveSpec characterises |
| ChessGame.Chess.RestoreBoard | src/chess.rs:307 | the saved board value is back |
| ChessGame.Chess.FindKing | src/chess.rs:360-372 | returns the king the nested search finds |
| ChessGame.Chess.FindKingInColumn | src/chess.rs:364-371 | returns the first row of the column with a king of the colour |
| ChessGame.Chess.IsInCheck | src/chess.rs:359-380 | the result is the check test's answer |
| ChessGame.Chess.Simulate | src/chess.rs:300-307 | gives whether the trial move leaves the mover in check, and the board is back as saved |
| ChessGame.Chess.FilterTarget | src/chess.rs:293-307 | one target is kept iff it was marked and its trial move is safe; the board is back as saved |
| ChessGame.Chess.StoreRow | src/chess.rs:314 | the row of (x, y) becomes the table; every other row is kept |
| ChessGame.Chess.CastlePathSafe | src/chess.rs:345-355 | the castling flag survives iff the king is safe on its start and transit squares; the board is back as saved |
| ChessGame.Chess.CastleSide | src/chess.rs:330-356 | one castling side as ChessRules.CastleClear; the board is back as saved |
| ChessGame.Chess.EliminateCastlingIllegalMoves | src/chess.rs:317-357 | the table after the castling filter; the board is back as saved |
| ChessGame.Chess.EliminateIllegalMoves | src/chess.rs:287-315 | the row becomes both filters applied to the candidates; the board is unchanged; no other row changes |
| ChessGame.Chess.ResetLegalMoves | src/chess.rs:267 | every row is empty |
| ChessGame.Chess.ComputeRow | src/chess.rs:276-282 | the row of one piece of the side to move becomes its legal table; the board and other rows are kept |
| ChessGame.Chess.ComputeColumn | src/chess.rs:271-283 | each row of the column becomes its legal table or stays empty; other columns are kept |
| ChessGame.Chess.ComputeEachLegalMoves | src/chess.rs:265-285 | every row is the legal table of its square for the side to move (empty for other squares); the board is unchanged |
| ChessGame.Chess.PostMoveUpdate | src/chess.rs:382-410 | the board becomes the post-move sweep of ChessRules.PostMoveFacts |
| ChessGame.Chess.ChangeTurn | src/chess.rs:412-423 | the colour flips, the selection clears, the state is Check iff the new side is in check, the cache is invalidated |
| ChessGame.Chess.ComputeIsMovable | src/chess.rs:425-435 | a square is movable iff its row has a marked entry |
| ChessGame.Chess.ComputeTurn | src/chess.rs:117-137 | needs only a king of the side to move; the table and flags become those of the board, the board is kept, and the state becomes mate or stalemate when nothing is movable |
| ChessGame.Chess.PlayMove | src/chess.rs:147-152 | a legal click moves the piece, sweeps, and passes the turn with the new side's check state |
| ChessGame.Chess.Update | src/chess.rs:116-161 | one frame: computes the table when it is stale; otherwise a press plays a legal move, selects the cell, or clears the selection off the board; the state invariant is kept |
| BoardRules.FlatMoveFacts | src/board.rs:157-198 | the move aborts iff the source is empty; otherwise it reports the old content of its capture square (the destination or, for en passant, (to.x, from.y)); the mover is on the destination, moved, same kind and colour; source and capture square are empty unless they are the destination; no other cell changes |
| BoardRules.UndoExact | src/board.rs:231-241 | the three-cell undo restores the board iff the destination was empty or was itself the capture square |
| BoardRules.UndoCell | src/board.rs:238-241 | after the undo every cell except the destination is restored; the destination is restored only when it was the capture square, else emptied |
| BoardRules.FirstKingFacts | src/board.rs:251-258 | the search finds nothing iff no king is there, and otherwise the least index with a king |
| BoardRules.FlatKingFacts | src/board.rs:248-260 | the flat search aborts iff the colour has no king; otherwise it finds the king of least flat index |
| BoardRules.FlatInCheckFacts | src/board.rs:247-280 | the check test aborts iff there is no king; otherwise true iff some enemy piece generates the found king's square |
| BoardRules.KingSearchesAgree | src/board.rs:247-280 | with a single king both revisions' searches find it and their check tests agree |
| BoardRules.FlatFilterFacts | src/board.rs:219-245 | tested on the board itself, a candidate is kept iff its move leaves the mover not in check |
| BoardRules.ClearCandidate | src/board.rs:235 | clearing a candidate keeps the undos exact and the tests defined |
| BoardRules.FilterStepExact | src/board.rs:230-241 | with exact undos one step gives the board back and keeps the entry iff the move is safe |
| BoardRules.FilterFromExact | src/board.rs:219-245 | when every undo is exact the filter leaves the board as it was and keeps exactly the safe candidates |
| BoardRules.FilterStepFrame | src/board.rs:230-241 | one step changes at most entry i of the table, which it may only clear, and cell i of the board, which it may only empty |
| BoardRules.FilterFromFrame | src/board.rs:219-245 | whatever the undos do, the filter only clears entries, keeps those before its start, and changes cells only by emptying marked destinations |
| BoardRules.FilterStepKept | src/board.rs:234-236 | an entry a step keeps was a candidate whose move left the mover not in check |
| BoardRules.FilterKeptSafe | src/board.rs:219-245 | whatever the undos do, a kept entry was a candidate, and its move on the board the filter had reached left the mover not in check |
| BoardRules.BoardAfterPrefix | src/board.rs:206-216 | a computation that reaches source n reached every earlier one and gave it a 64-entry table |
| BoardRules.SourceKeepsOwn | src/board.rs:206-245 | whatever the undos do, one source's work leaves every cell held by the side to move as it was |
| BoardRules.BoardAfterKeepsOwn | src/board.rs:206-216 | a cell held by the side to move when a source is reached keeps its piece to the end of the computation |
| BoardRules.MarkedRowSource | src/board.rs:206-245 | a source with a marked entry held a piece of the side to move, and still holds it once the computation ends |
| BoardRules.FlatMoveKeepsKing | src/board.rs:228-236 | with a king of the mover on the board, a trial move onto a square the mover does not hold is defined and so is its check test: the king stays, or moves with the mover |
| BoardRules.FilterStepReady | src/board.rs:222-242 | one candidate of a filter whose source holds the mover, with a king on the board and no own-held marked destination, runs without an abort and keeps all three facts |
| BoardRules.FilterFromReady | src/board.rs:222-244 | such a filter loop runs to its end without an abort, whatever the undos do |
| BoardRules.SourceDefinedWithKing | src/board.rs:206-215 | with a king of the side to move, a source's work runs without an abort and leaves that king on the board |
| BoardRules.BoardAfterWithKing | src/board.rs:206-216 | with a king of the side to move, the computation reaches every source and a king of that side stays on the board |
| BoardRules.FlatComputeDefinedWithKing | src/board.rs:200-260 | whenever the side to move has a king, the whole computation runs without an abort, whatever the undos do |
| BoardRules.ExactFiltersWithKing | src/board.rs:219-245 | with a king of the side to move, exact undos alone make every filter exact and defined |
| BoardRules.SourceDefined | src/board.rs:206-216 | a computation that runs to the end can work on each source |
| BoardRules.SourceExact | src/board.rs:207-215 | with exact undos, a source's work leaves the board and yields its legal table |
| BoardRules.ComputeExact | src/board.rs:200-217 | when every filter has exact undos the computation leaves the board unchanged and gives every source its legal table |
| BoardRules.FlatPostMoveFacts | src/board.rs:282-296 | the sweep clears the flag of the opponent's pawns, keeping colour and moved flag, and changes no other cell or piece; nothing is promoted |
| BoardGame.Board.constructor | src/board.rs:39-54 | an empty board, empty table, no movable square, White to move, state Normal, nothing computed |
| BoardGame.Board.ComputedTableIsLegal | src/board.rs:200-245 | when the side to move had a king and every undo of the last computation was exact, the board is the one it started from and each row is its source's legal table |
| BoardGame.Board.Init | src/board.rs:80-117 | every letter of the standard string puts the fresh piece it names on its index; from an empty board the result is the parsed standard position |
| BoardGame.Board.LoadSetup | src/board.rs:91-112 | the set-up loop for any well-formed string: '-' leaves the cell, a letter places its piece |
| BoardGame.Board.MovePiece | src/board.rs:157-198 | the board and the returned captured piece and square are the move's result, as BoardRules.FlatMoveFacts characterises |
| BoardGame.Board.FindKing | src/board.rs:250-258 | returns the least flat index with a king of the colour, or none |
| BoardGame.Board.IsInCheck | src/board.rs:247-280 | the result is the check test's answer |
| BoardGame.Board.FilterCandidate | src/board.rs:227-241 | one candidate is played, tested and undone by three writes, as one filter step |
| BoardGame.Board.EliminateIllegalMoves | src/board.rs:219-245 | the board and row become what the filter loop yields; no other row changes |
| BoardGame.Board.ResetLegalMoves | src/board.rs:203 | every row is empty |
| BoardGame.Board.ComputeSource | src/board.rs:213-215 | one source of the side to move gets its generated, filtered table; other rows are kept |
| BoardGame.Board.ComputeEachLegalMoves | src/board.rs:200-217 | the board and every row become what the computation over the sources in index order yields |
| BoardGame.Board.PostMoveUpdate | src/board.rs:282-296 | the board becomes the sweep of BoardRules.FlatPostMoveFacts |
| BoardGame.Board.ChangeTurn | src/board.rs:298-309 | the colour flips, the selection clears, the state is Check iff the new side is in check, the cache is invalidated |
| BoardGame.Board.ComputeIsMovable | src/board.rs:311-315 | a source is movable iff its row has a marked entry |
| BoardGame.Board.ComputeTurn | src/board.rs:318-338 | needs only a king of the side to move; the table and flags become the computation's, and the state becomes mate or stalemate when nothing is movable |
| BoardGame.Board.MarkedSourceHolds | src/board.rs:344-352 | a marked table entry belongs to a square that holds a piece of the side to move on the current board |
| BoardGame.Board.PlayMove | src/board.rs:347-354 | a click on a marked entry always finds a piece to move; it moves it, sweeps, and passes the turn with the new side's check state |
| BoardGame.Board.Update | src/board.rs:317-363 | one frame: computes the table when it is stale; otherwise a press plays a marked move, selects the cell, or clears the selection off the board; a frame that does not play keeps the board, the colour, the state, the table and what it was computed on; the state invariant is kept |

## Left out

- Drawing, sprite lookup and console printing (`draw*`, `Piece::get_image`, `print`): graphics and output only.
- Mouse decoding (`try_select_cell`): float geometry. `Update` takes the pressed flag and the already decoded cell as parameters.
- `src/game.rs` and `src/main.rs` are not part of this model: asset loading, the event handler and the window loop.
- The piece getters are field reads of the `Piece` datatype. `get_piece_type_mut` and the in-place mutators become value updates (`SetHasMoved`, `Promote`, record update of the pawn flag).
- Castling and en-passant candidates are not generated by the generator, so none are invented. The filters of the latest revision run over whatever table they are given.
- A `panic!`/`expect` is a `None` result, or a precondition on the method that would reach it. Examples are an empty source square, a colour without a king, an empty castling corner, an invalid set-up letter and an invalid promotion.
- Rust's `usize`/`i32` arithmetic is modelled by unbounded integers. All indices the engine forms are bounds-checked first or lie on the board, so no wrap-around arises.
- The generator writes into a fresh table rather than into the table row the source has just reset. The row is all-false at that point, so the two are the same; the model stores the result into the row.
- ChessGame.Chess.CastleSide: the source holds a mutable reference into the table's destination entry. The model keeps that entry as a local flag and writes it back.
- BoardGame.Board.ComputeEachLegalMoves: it does not claim that the board is unchanged or that each row is its legal table. The three-cell undo can lose a piece when an en-passant capture lands on an occupied destination, and later candidates see that board. The contract ties the result to the folds `BoardAfter` and `RowAfter`; `BoardRules.ComputeExact` and `BoardGame.Board.ComputedTableIsLegal` give the stronger statement when every undo is exact.
- BoardGame.Board.EliminateIllegalMoves: for the same reason, the board is not claimed unchanged in general. `BoardRules.FilterFromFrame` bounds what can change, and `BoardRules.FilterKeptSafe` says what a kept entry means.
- ChessGame.Chess.PlayMove and BoardGame.Board.PlayMove require the opponent to still have a king after the move. The source's check test would abort otherwise.
- A pending-promotion choice does not exist in the code; promotion is automatic (latest revision) or absent (earlier revision).
