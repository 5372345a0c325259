# Chess engine core in Dafny

This project models the core of a browser chess application written in JavaScript. It covers:

- the board and its squares;
- the pieces and their type tags;
- the movement strategies of the six piece kinds, including castling, en passant and promotion;
- the four kinds of move command (plain, castling, en passant, promotion), with execute, undo and redo;
- the move history with its undo/redo stacks and the two FEN clocks;
- the piece manager that registers pieces by owner;
- the game state with its mementos;
- the move handler that turns clicks and drags into moves and detects check, checkmate and stalemate;
- FEN export (the FEN generator) and FEN import (the board's `initializeBoardFromFEN`).

The model has two layers:

- **Values.** A position is a value (`Positions.Position`): an arena of pieces plus an 8×8 grid of indices into it. The piece objects the source shares by reference become indices into that arena. Move generation, execute/undo/redo, the history's bookkeeping, the FEN writer and reader, and the end-of-game verdict are functions on these values. Lemmas state their laws:
  - undo restores what execute changed;
  - redo after undo and undo after redo give the history back;
  - a non-castling legal move is one whose trial position, built as `wouldResultInCheck` builds it, leaves the mover's king unattacked; a castling move is offered only when the king is not in check and the two squares next to it on that side are empty and unattacked before the move; no lemma speaks of the king's safety on the board after the real `execute`;
  - castling is offered exactly when its conditions hold;
  - the FEN placement read back gives the grid that was written;
  - the piece manager lists each player's pieces in board order, and finds the square of the first king listed.
- **Classes.** The stateful objects of the source are classes whose methods update their fields: `Board.ChessBoard`, `History.MoveHistory`, `PieceManagers.PieceManager`, `GameStates.GameState` and `Handlers.MoveHandler`. Each method is proved against the value-level function for its operation, in the form `Snap() == F(old(Snap()), …)` or `W() == Played(old(W()), m)`.

Nothing outside the model's core is modelled: the GUI, the DOM, the Stockfish engine and its worker, timers, and the controllers that call the core. A promotion dialog, a click and a drag appear only as method calls with their arguments.

## Model

| member | source | states |
|---|---|---|
| Squares.FromNotation | public/chess/model/board/Square.js:20-24 | the column is the file letter's index and the row the rank digit's index, each -1 exactly when the character is missing or not in its legend |
| Squares.ToString | public/chess/model/board/Square.js:34-36 | an in-range square is written as two characters, a file letter then a rank digit |
| Squares.Equals | public/chess/model/board/Square.js:26-32 | true exactly when the other object is a square with the same row and column |
| Squares.NotationRoundTrip | public/chess/model/board/Square.js:20-36 | reading back the notation of an in-range square gives its row and column |
| Squares.NotationInjective | public/chess/model/board/Square.js:34-36 | two in-range squares with the same notation are the same square |
| Players.Player.Copy | public/chess/model/player/Player.js:25-27 | the copy `equals` the original |
| Players.Player.Equals | public/chess/model/player/Player.js:29-42 | true exactly when the other object is a player of the same colour and type |
| Players.EqualsNeedsSameColor | public/chess/model/player/Player.js:29-42 | players of different colours are never `equals`, in either direction |
| Pieces.Construct | public/chess/model/pieces/ChessPiece.js:8-14 | a new piece is alive, on the given square, owned by the given player, of the given type; only kings and rooks carry a moved flag, and it starts false |
| Pieces.NewKing | public/chess/model/pieces/King.js:9-11 | a live king with the moved flag, not yet moved |
| Pieces.NewRook | public/chess/model/pieces/Rook.js:9-11 | a live rook with the moved flag, not yet moved |
| Pieces.NewBishop | public/chess/model/pieces/Bishop.js:8-15 | a live bishop without a moved flag |
| Pieces.NewKnight | public/chess/model/pieces/Knight.js:8-15 | a live knight without a moved flag |
| Pieces.NewQueen | public/chess/model/pieces/Queen.js:8-10 | a live queen without a moved flag |
| Pieces.NewPawn | public/chess/model/pieces/Pawn.js:8-10 | a live pawn without a moved flag |
| Pieces.WithSquare | public/chess/model/pieces/ChessPiece.js:40-42 | only the square changes |
| Pieces.WithAlive | public/chess/model/pieces/ChessPiece.js:60-70 | only the alive flag changes |
| Pieces.WithHasMoved | public/chess/model/pieces/PieceWithMoveStatus.js:8-10 | only the moved flag changes, and only on a piece that has one |
| Pieces.Copy | public/chess/model/pieces/ChessPiece.js:72-81 | same square, player, type and alive flag, but a plain piece: no moved flag and an instance of no piece class |
| Pieces.PromotePiece | public/chess/model/pieces/PiecePromotion.js:7-20 | succeeds exactly for the four tokens QUEEN, ROOK, BISHOP, KNIGHT, giving a new live piece of that type on the square; any other token fails with "Invalid piece type for promotion" |
| Pieces.GeneratedTokensPromote | public/chess/model/pieces/movementstrategy/PawnMovementStrategy.js:170-180 | every token the pawn strategy attaches to a promotion is accepted by `promotePiece` |
| Positions.EmptyGrid | public/chess/model/board/ChessBoard.js:41-47 | eight rows of eight empty cells |
| Positions.IsEmpty | public/chess/model/board/ChessBoard.js:272-274 | true exactly when the cell is on the board and holds no piece (a column off the row reads `undefined`, which is not empty) |
| Positions.IsOccupied | public/chess/model/board/ChessBoard.js:362-365 | the negation of `isEmpty` on a board square |
| Positions.IsOccupiedByOpponent | public/chess/model/board/ChessBoard.js:367-370 | true exactly when the cell holds a piece whose owner is not `equals` the given player |
| Positions.SetCell | public/chess/model/board/ChessBoard.js:264-266 | the one cell now holds the value; every other cell and every piece is unchanged |
| Positions.AddPiece | public/chess/model/board/ChessBoard.js:280-285 | the cell at the piece's square holds it; no other cell changes |
| Positions.RemovePiece | public/chess/model/board/ChessBoard.js:287-292 | the cell at the piece's square is cleared; no other cell changes |
| Positions.CopyPosition | public/chess/model/board/ChessBoard.js:372-387 | the same grid over a copy of every piece |
| Moves.NewMove | public/chess/model/moves/Move.js:2-10 | a plain move with the given piece, squares and captured piece, flagged neither promotion nor capture |
| Moves.NewCastlingMove | public/chess/model/moves/CastlingMove.js:4-9 | a castling move of the king with the rook's two squares, capturing nothing |
| Moves.NewEnPassantMove | public/chess/model/moves/EnPassantMove.js:5-15 | an en passant move that names the captured pawn and its square |
| Moves.NewPromotionMove | public/chess/model/moves/PromotionMove.js:5-17 | a promotion of the pawn with the token and no promoted piece yet, flagged as a promotion |
| Moves.SetPromotionType | public/chess/model/moves/PromotionMove.js:19-21 | only the token changes |
| Moves.Relocate | public/chess/model/pieces/ChessPiece.js:40-42 | the piece's square changes, the grid does not |
| Moves.SetAlive | public/chess/model/pieces/ChessPiece.js:60-70 | the piece's alive flag changes, the grid does not |
| Moves.MarkMoved | public/chess/model/moves/Move.js:22-24 | the moved flag is set when the piece has one; otherwise nothing changes |
| Moves.Shift | public/chess/model/moves/Move.js:18-20 | the piece stands on the new square, its old cell is empty, every other cell is unchanged |
| Moves.TakeCaptured | public/chess/model/moves/Move.js:13-17 | with a captured piece, it is killed and its cell cleared; without one nothing changes |
| Moves.BaseExecute | public/chess/model/moves/Move.js:12-25 | the move is flagged as a capture exactly when it captured something; it always succeeds |
| Moves.CastlingExecute | public/chess/model/moves/CastlingMove.js:11-17 | always succeeds and leaves the move as the base execute does |
| Moves.PromotionExecute | public/chess/model/moves/PromotionMove.js:35-50 | succeeds exactly for the four promotion tokens; on success a new piece takes the next arena slot and the move names it; on failure only the capture has happened |
| Moves.Execute | public/chess/model/moves/Move.js:12-25 | only a promotion can fail; a successful execute keeps the squares, the captured piece and the promotion flag of the move |
| Moves.Undo | public/chess/model/moves/Move.js:27-36 | a valid board with the same pieces; what it restores is stated by the MoveLaws lemmas |
| Moves.PromotionRedo | public/chess/model/moves/PromotionMove.js:66-71 | always succeeds, and the move's piece becomes the promoted piece |
| Moves.Redo | public/chess/model/moves/Move.js:38-40 | always succeeds on a valid board with the same pieces |
| Moves.CopyMove | public/chess/model/moves/Move.js:66-85 | a plain move with the same piece, squares, captured piece and flags |
| Moves.CopyExecutesPlainly | public/chess/model/moves/Move.js:66-85 | executing a copied move does what the base `execute` does, whatever the original's kind |
| MoveLaws.PlainExecuteEffect | public/chess/model/moves/Move.js:12-25 | after a plain move the piece stands on the end square, the start cell is empty, a captured piece is dead, and every other cell is as it was |
| MoveLaws.PlainUndoRestores | public/chess/model/moves/Move.js:12-36 | undo right after execute gives the board back exactly, except that the mover keeps the moved flag execute set |
| MoveLaws.QuietUndoCells | public/chess/model/moves/Move.js:27-30 | undoing a non-capturing move restores every cell |
| MoveLaws.QuietUndoPieces | public/chess/model/moves/Move.js:27-30 | undoing a non-capturing move restores every piece record, the moved flag aside |
| MoveLaws.CaptureUndoCells | public/chess/model/moves/Move.js:27-36 | undoing a capture restores every cell, the captured piece back on the end square |
| MoveLaws.CaptureUndoPieces | public/chess/model/moves/Move.js:27-36 | undoing a capture revives the captured piece and restores every piece record, the moved flag aside |
| MoveLaws.CastlingExecuteCells | public/chess/model/moves/CastlingMove.js:11-17 | after castling, king and rook stand on their end squares, both start cells are empty, every other cell is as it was |
| MoveLaws.CastlingExecutePieces | public/chess/model/moves/CastlingMove.js:11-17 | castling moves the king and the rook, flags both as moved, and changes no other piece |
| MoveLaws.CastlingUndoCells | public/chess/model/moves/CastlingMove.js:19-25 | undoing a castling move restores every cell |
| MoveLaws.CastlingUndoPieces | public/chess/model/moves/CastlingMove.js:19-25 | undoing a castling move puts king and rook back, the rook flagged as not moved |
| MoveLaws.CastlingUndoRestores | public/chess/model/moves/CastlingMove.js:11-25 | undo right after castling gives the board back, the king's moved flag aside |
| MoveLaws.CastlingRedoRepeats | public/chess/model/moves/CastlingMove.js:27-32 | redo after undo of a castling move gives exactly the board and move execute gave, the rook's second relocation included |
| MoveLaws.CastlingExecuteIgnoresKingFlag | public/chess/model/moves/CastlingMove.js:11-17 | castling does not depend on the king's moved flag, which it sets anyway |
| MoveLaws.RookShiftIdle | public/chess/model/moves/CastlingMove.js:29-31 | the extra rook relocation in redo changes nothing, since the rook already stands on its end square |
| MoveLaws.EnPassantUndoCells | public/chess/model/moves/EnPassantMove.js:17-27 | undoing an en passant capture restores every cell, the captured pawn back beside the end square |
| MoveLaws.EnPassantUndoPieces | public/chess/model/moves/EnPassantMove.js:17-27 | undoing an en passant capture revives the captured pawn and restores every piece record |
| MoveLaws.EnPassantUndoRestores | public/chess/model/moves/EnPassantMove.js:17-27 | undo right after an en passant capture gives the board back, exactly when the mover has no moved flag |
| MoveLaws.PromotionExecuteCells | public/chess/model/moves/PromotionMove.js:35-50 | a promotion adds one piece in the next arena slot on the end square, empties the start cell, keeps every other cell |
| MoveLaws.PromotionUndoGrid | public/chess/model/moves/PromotionMove.js:52-64 | undoing a promotion restores every cell, the pawn back and any captured piece on the end square |
| MoveLaws.PromotionUndoSlots | public/chess/model/moves/PromotionMove.js:52-64 | undoing a promotion restores every old piece record; the promoted piece stays in the arena |
| MoveLaws.PromotionUndoRestores | public/chess/model/moves/PromotionMove.js:35-64 | undo right after a promotion gives the board back exactly, plus the promoted piece left off the grid |
| MoveLaws.PromotionRedoRevivesCaptured | public/chess/model/moves/PromotionMove.js:66-71 | redo after undo puts the promoted piece back as execute did, but a captured piece stays alive |
| MoveLaws.PromotionRedoFrom | public/chess/model/moves/PromotionMove.js:66-71 | redo on the board undo left gives the board execute left, a captured piece alive again |
| MoveCommands.ExecuteBase | public/chess/model/moves/Move.js:12-25 | the board object's grid and pieces change exactly as `Moves.BaseExecute` says, and the move returned is its move |
| MoveCommands.ExecuteCastling | public/chess/model/moves/CastlingMove.js:11-17 | the board changes exactly as `Moves.CastlingExecute` says |
| MoveCommands.ExecutePromotion | public/chess/model/moves/PromotionMove.js:35-50 | the board, the move and the success flag are those of `Moves.PromotionExecute` |
| MoveCommands.Execute | public/chess/model/moves/Move.js:12-25 | `move.execute()` dispatched on the kind of move: board, move and success flag are those of `Moves.Execute` |
| MoveCommands.UndoBase | public/chess/model/moves/Move.js:27-36 | the board changes exactly as the base undo says |
| MoveCommands.UndoCastling | public/chess/model/moves/CastlingMove.js:19-25 | the board changes exactly as the castling undo says |
| MoveCommands.UndoEnPassant | public/chess/model/moves/EnPassantMove.js:17-27 | the board changes exactly as the en passant undo says |
| MoveCommands.UndoPromotion | public/chess/model/moves/PromotionMove.js:52-64 | the board changes exactly as the promotion undo says |
| MoveCommands.Undo | public/chess/model/moves/Move.js:27-36 | `move.undo()` dispatched on the kind of move: the board becomes `Moves.Undo` of the old board |
| MoveCommands.RedoPromotion | public/chess/model/moves/PromotionMove.js:66-71 | the board and move are those of `Moves.PromotionRedo` |
| MoveCommands.Redo | public/chess/model/moves/Move.js:38-40 | `move.redo()` dispatched on the kind of move: board and move are those of `Moves.Redo` |
| Board.MajorPieceType | public/chess/model/board/ChessBoard.js:227-243 | the back-rank piece map: column 4 holds the king, and columns 0 and 7 (and only they) hold rooks |
| Board.StartLayout | public/chess/model/board/ChessBoard.js:49-77 | the opening layout: ranks 2-5 are empty; each occupied square mirrors a piece of the same kind belonging to the other player; when player1 is white its pieces occupy exactly ranks 6-7 and its king starts on e1 |
| Board.MarkAllMoved | public/chess/model/board/ChessBoard.js:152-161 | marking every king and rook as moved changes no square and keeps the number of pieces |
| Board.UnmarkKingAndRook | public/chess/model/board/ChessBoard.js:163-173 | unmarking a king and a rook changes no square and keeps the number of pieces |
| Board.CastlingFlags | public/chess/model/board/ChessBoard.js:119-150 | applying a castling field changes no square and keeps the number of pieces |
| Board.CastlingFlagsMeaning | public/chess/model/board/ChessBoard.js:119-150 | after a castling field is applied, every piece with a moved flag is marked unmoved exactly when the field restores it: a K/Q/k/q letter whose king or rook stands on its home square; pieces without a moved flag that are not kings or rooks are untouched |
| Board.ImportFen | public/chess/model/board/ChessBoard.js:79-117 | a successful FEN import yields a valid position that keeps every piece already registered |
| Board.FinishImport | public/chess/model/board/ChessBoard.js:109-117 | the fields after the placement: a successful finish keeps the piece count; a missing castling field or an en passant field other than "-" is an error |
| Board.FinishState | public/chess/model/board/ChessBoard.js:109-161 | the position left behind by the finish, success or failure: no square changes; on success it is the imported position; with no castling field every king and rook has been marked moved before the error |
| Board.ImportState | public/chess/model/board/ChessBoard.js:79-117 | the position left behind by a FEN import, success or failure; on success it is the imported position |
| Board.ImportStopsAt | public/chess/model/board/ChessBoard.js:79-107 | when rank j is the first that fails to read, the import fails with that rank's message and leaves the ranks above j as read, rank j as far as it was read, and the ranks below j empty |
| Board.ChessBoard.constructor | public/chess/model/board/ChessBoard.js:28-33 | a fresh 8x8 board with every square empty and no piece manager |
| Board.ChessBoard.PlacePiece | public/chess/model/board/ChessBoard.js:264-266 | exactly one square changes, to the given value |
| Board.ChessBoard.AddPiece | public/chess/model/board/ChessBoard.js:280-285 | the board becomes `Positions.AddPiece` of the old one |
| Board.ChessBoard.RemovePiece | public/chess/model/board/ChessBoard.js:287-292 | the board becomes `Positions.RemovePiece` of the old one |
| Board.ChessBoard.ClearBoard | public/chess/model/board/ChessBoard.js:41-47 | every square becomes empty; the pieces are untouched |
| Board.ChessBoard.PlaceRow | public/chess/model/board/ChessBoard.js:245-262 | one rank is filled with the given player's major pieces or pawns; earlier pieces and other ranks are untouched |
| Board.ChessBoard.InitializeBoard | public/chess/model/board/ChessBoard.js:49-77 | every square of the opening layout holds the piece `StartCell` names; the other squares are untouched |
| Board.ChessBoard.InitializePieceManager | public/chess/model/board/ChessBoard.js:354-356 | a fresh piece manager holding the registry built from the board |
| Board.ChessBoard.Init | public/chess/model/board/ChessBoard.js:35-39 | the board holds exactly the opening layout and a fresh piece manager built from it |
| Board.ChessBoard.MarkAllKingsAndRooksAsMoved | public/chess/model/board/ChessBoard.js:152-161 | the board becomes `MarkAllMoved` of the old one |
| Board.ChessBoard.MarkKingAndRookAsNotMoved | public/chess/model/board/ChessBoard.js:163-173 | the board becomes `UnmarkKingAndRook` of the old one |
| Board.ChessBoard.SetCastlingFlags | public/chess/model/board/ChessBoard.js:119-150 | the board becomes `CastlingFlags` of the old one |
| Board.ChessBoard.ReadRank | public/chess/model/board/ChessBoard.js:96-106 | reading one rank reports an error exactly when `ScanFrom` fails, with its message; the board ends as far as the rank was read |
| Board.ChessBoard.ReadRanks | public/chess/model/board/ChessBoard.js:94-107 | reading all ranks reports an error exactly when `ScanRowsFrom` fails, with its message; the board ends as far as the ranks were read |
| Board.ChessBoard.FinishFen | public/chess/model/board/ChessBoard.js:109-117 | the finish succeeds exactly when `FinishImport` does, with its context and a fresh piece manager; on failure the message is `FinishImport`'s and the piece manager is unchanged; the board ends as `FinishState` says |
| Board.ChessBoard.InitializeBoardFromFEN | public/chess/model/board/ChessBoard.js:79-117 | the import succeeds exactly when `ImportFen` does, with its position, its context and a fresh piece manager; on failure the message is `ImportFen`'s and the piece manager is unchanged; the board ends as `ImportState` says |
| Board.ChessBoard.IsEmpty | public/chess/model/board/ChessBoard.js:272-274 | agrees with `Positions.IsEmpty` on the board's contents |
| Board.ChessBoard.GetPieceAt | public/chess/model/board/ChessBoard.js:276-278 | the piece on the given square |
| Board.ChessBoard.IsOccupiedByOpponent | public/chess/model/board/ChessBoard.js:367-370 | agrees with `Positions.IsOccupiedByOpponent` on the board's contents |
| Board.ChessBoard.IsKingInCheck | public/chess/model/board/ChessBoard.js:294-305 | agrees with `Attacks.KingInCheck` on the board and its registry |
| Board.ChessBoard.IsSquareAttackedByOpponent | public/chess/model/board/ChessBoard.js:307-338 | agrees with `Attacks.SquareAttackedByOpponent` on the board and its registry |
| Board.ChessBoard.Copy | public/chess/model/board/ChessBoard.js:372-387 | a fresh board whose contents are `CopyPosition` of the original, with a fresh piece manager built from it |
| FenPlacement.Split | public/chess/model/board/ChessBoard.js:82-94 | `String.prototype.split` on one character: at least one part, and no part contains the separator |
| FenPlacement.SplitJoin | public/chess/model/board/ChessBoard.js:82-94 | splitting parts joined by a separator that none of them contains gives the parts back |
| FenPlacement.DigitChar | public/chess/model/board/ChessBoard.js:98-99 | each count 0-9 has a digit character that `parseInt` reads back as that count |
| FenPlacement.Lower | public/chess/model/board/ChessBoard.js:200 | `toLowerCase` on one character: A-Z move to a-z, the Kelvin sign becomes `k`, every other character is unchanged |
| FenPlacement.KindOf | public/chess/model/board/ChessBoard.js:202-217 | a character names a piece kind exactly when it is one of `kqrbnpKQRBNP` or the Kelvin sign, which names an upper-case king |
| FenPlacement.Letter | public/chess/utils/FENGenerator.js:7-14 | every kind and colour has a letter that is no digit and no `/`, that reads back as that kind, and that is upper case exactly for white |
| FenPlacement.FenToPiece | public/chess/model/board/ChessBoard.js:198-218 | a piece is built exactly when the character names a kind: that kind, on the given square, owned by the white player when the character is upper case and by the black player otherwise; any other character is the error "Invalid FEN character: " followed by the character |
| FenPlacement.ScanChar | public/chess/model/board/ChessBoard.js:97-105 | one character of a rank: a successful step leaves a valid position that keeps every registered piece |
| FenPlacement.ScanFrom | public/chess/model/board/ChessBoard.js:96-106 | one rank read from a column: a successful read leaves a valid position that keeps every registered piece |
| FenPlacement.ScanRowsFrom | public/chess/model/board/ChessBoard.js:94-107 | all ranks read from a row: a successful read leaves a valid position that keeps every registered piece |
| FenPlacement.ScanFromLeft | public/chess/model/board/ChessBoard.js:96-106 | the position left when a rank is read, success or failure: only that rank changes, and on success it is the position read |
| FenPlacement.ScanRowsLeft | public/chess/model/board/ChessBoard.js:94-107 | the position left when the ranks are read, success or failure: only the ranks read change, and on success it is the position read |
| FenPlacement.ScanRowsStopsAt | public/chess/model/board/ChessBoard.js:94-107 | when rank j is the first that fails, the whole read fails with its message; the ranks before it stay as read, rank j stays as far as it was read, and nothing else changes |
| FenWriter.Ranks | public/chess/utils/FENGenerator.js:17-39 | the eight rank texts, one per board row, each the run-length text of that row's pieces |
| FenWriter.PlacementRanks | public/chess/utils/FENGenerator.js:17-39 | the placement field splits at `/` into exactly the eight rank texts; each rank is eight squares wide, uses only piece letters and digits 1-8, never puts two counts side by side, and the field holds no space |
| FenWriter.PlacementRoundTrip | public/chess/utils/FENGenerator.js:17-39 | reading the generated placement back with the board's own FEN reader succeeds and puts a piece of the same kind and colour on every square, and leaves the others empty |
| FenWriter.RightIs | public/chess/utils/FENGenerator.js:57-79 | each castling letter is written exactly when that side's king and that rook stand unmoved on their home squares |
| FenWriter.CastlingFieldLetters | public/chess/utils/FENGenerator.js:54-96 | the castling field is the letters written, or `-` exactly when no right holds |
| FenWriter.ActiveColorRoundTrip | public/chess/utils/FENGenerator.js:42 | reading the active colour back picks the player of the current player's colour |
| FenWriter.DigitsRoundTrip | public/chess/utils/FENGenerator.js:47-48 | the decimal text of a clock reads back as that number and has no leading zero |
| FenWriter.TargetOf | public/chess/model/moves/MoveHistory.js:62-77 | the en passant target, when there is one, lies on the board |
| FenWriter.FenRecordFields | public/chess/utils/FENGenerator.js:4-51 | the generated record splits at spaces into exactly its six fields |
| FenWriter.FenRecordImport | public/chess/utils/FENGenerator.js:4-51 | importing a generated record succeeds exactly when there is no en passant target; it then restores every piece's kind and colour and returns the record's active colour and clocks |
| FenWriter.FinishRecord | public/chess/model/board/ChessBoard.js:109-117 | the fields after the placement of a generated record are accepted exactly when there is no en passant target, and then apply the record's castling field and return its colour and clocks |
| FenWriter.CastlingFlagsKeepGlyphs | public/chess/model/board/ChessBoard.js:119-150 | applying a castling field changes no square's piece kind or colour |
| FenWriter.CheckSide | public/chess/utils/FENGenerator.js:57-79 | appends exactly the letters of one side's rights |
| FenWriter.GenerateCastlingAvailability | public/chess/utils/FENGenerator.js:54-96 | returns the castling field of the board |
| FenWriter.AppendRank | public/chess/utils/FENGenerator.js:18-35 | appends exactly the run-length text of one rank |
| FenWriter.PiecePlacement | public/chess/utils/FENGenerator.js:16-39 | builds exactly the placement field of the board |
| FenWriter.ToFen | public/chess/utils/FENGenerator.js:4-51 | builds exactly the FEN record of the board, the move history's clocks and target, and the current player |
| GameStates.File | public/chess/model/game/GameState.js:132-143 | filing one captured piece appends it to at most one player's list, or to neither |
| GameStates.Distribute | public/chess/model/game/GameState.js:131-145 | sorting the captured pieces only appends to the two lists, and by at most one entry per captured piece |
| GameStates.DistributeMembers | public/chess/model/game/GameState.js:131-145 | after sorting, a piece is in player1's (player2's) list exactly when it was there before or it is a captured piece owned by player1 (player2) |
| GameStates.DistributeNoDup | public/chess/model/game/GameState.js:131-145 | sorting never puts a piece into a list twice |
| GameStates.DistributeSettled | public/chess/model/game/GameState.js:131-145 | when every captured piece is already filed, sorting changes nothing |
| GameStates.DistributeIdempotent | public/chess/model/game/GameState.js:131-145 | sorting twice gives the same lists as sorting once |
| GameStates.AddCapturedFiles | public/chess/model/game/GameState.js:114-117 | adding a capture to settled lists appends that one piece to its owner's list, unless it is already there, and changes nothing else |
| GameStates.RemovedPieceComesBack | public/chess/model/game/GameState.js:119-145 | a piece removed from the players' lists but still in the captured list is filed again by the next sort |
| GameStates.Active | public/chess/model/game/GameState.js:67-76 | the player chosen for an active colour is one of the two, and when their colours differ it is white exactly when white is to move |
| GameStates.Splice | public/chess/model/game/GameState.js:120-128 | `indexOf` then `splice(index, 1)`: the list is the one `PieceRegistry.RemoveFirst` gives, so by `PieceRegistry.RemoveFirstDropsFirst` it is the part before the first occurrence of the piece followed by the part after it, or unchanged when the piece is absent |
| GameStates.GameState.constructor | public/chess/model/game/GameState.js:6-17 | the board holds the opening layout with a fresh piece manager; white moves first; no piece is captured; the game is neither over nor locked, and the engine strength is -1 |
| GameStates.GameState.Init | public/chess/model/game/GameState.js:19-33 | the board is reset to the opening layout, white is to move and the capture lists are empty; the flags are untouched |
| GameStates.GameState.CreateMemento | public/chess/model/game/GameState.js:35-45 | the snapshot holds the current and opposing players, both players and all three capture lists |
| GameStates.GameState.RestoreFromMemento | public/chess/model/game/GameState.js:47-55 | after restoring, taking a snapshot gives the restored one back; the flags are untouched |
| GameStates.GameState.SwapPlayers | public/chess/model/game/GameState.js:57-61 | the current and opposing players trade places and nothing else changes |
| GameStates.GameState.SetCurrentPlayerFromFEN | public/chess/model/game/GameState.js:67-76 | the current player becomes the one of the FEN's active colour, the other one opposes it, and nothing else changes |
| GameStates.GameState.LockBoard | public/chess/model/game/GameState.js:90-92 | the board becomes locked and nothing else changes |
| GameStates.GameState.UnlockBoard | public/chess/model/game/GameState.js:94-96 | the board becomes unlocked and nothing else changes |
| GameStates.GameState.SetGameOver | public/chess/model/game/GameState.js:110-112 | the game-over flag takes the given value and nothing else changes |
| GameStates.GameState.AddCapturedPiece | public/chess/model/game/GameState.js:114-117 | the piece is appended to the captured list, and the players' lists become the sort of the new captured list |
| GameStates.GameState.RemoveCapturedPiece | public/chess/model/game/GameState.js:119-129 | the first occurrence of the piece leaves each player's list; the captured list is kept |
| GameStates.GameState.UpdateCapturedPieces | public/chess/model/game/GameState.js:131-145 | the players' lists become the sort of the captured list; nothing else changes |
| History.QuietRun | public/chess/model/moves/MoveHistory.js:123-133 | the half-move clock from the history: the number of moves since the last capture or pawn move, counted back from the end |
| History.QuietRunUnique | public/chess/model/moves/MoveHistory.js:123-133 | any count with that property is the half-move clock |
| History.KeptCounts | public/chess/model/moves/MoveHistory.js:79-107 | the clocks read from the history do not depend on how the moved pieces have moved since, only on their kinds and owners |
| History.ExecuteKeeps | public/chess/model/moves/Move.js:12-25 | executing any move keeps every piece's kind and owner and the number of pieces |
| History.UndoKeeps | public/chess/model/moves/MoveHistory.js:28-36 | resetting the moved flag and undoing any move keeps every piece's kind and owner |
| History.RedoKeeps | public/chess/model/moves/MoveHistory.js:38-46 | setting the moved flag and redoing any move keeps every piece's kind and owner |
| History.RedoSettled | public/chess/model/moves/PromotionMove.js:66-71 | redoing a move that has been executed once gives back the same move |
| History.ExecuteSettles | public/chess/model/moves/PromotionMove.js:35-50 | a move returned by a successful execution is settled: redoing it changes nothing about it |
| History.MakeMoveStep | public/chess/model/moves/MoveHistory.js:14-26 | an executed move is appended to the history and clears the redo list; when `execute` throws, the log is left as it was |
| History.UndoStep | public/chess/model/moves/MoveHistory.js:28-36 | an undo moves the last move of the history onto the redo list, keeps the total number of moves, and does nothing on an empty history |
| History.RedoStep | public/chess/model/moves/MoveHistory.js:38-46 | a redo moves the last undone move back onto the history, keeps the total number of moves, and does nothing on an empty redo list |
| History.MakeMoveConsistent | public/chess/model/moves/MoveHistory.js:14-26 | making a move keeps the clocks equal to what the history says |
| History.UndoConsistent | public/chess/model/moves/MoveHistory.js:28-36 | undoing keeps the clocks equal to what the history says |
| History.RedoConsistent | public/chess/model/moves/MoveHistory.js:38-46 | redoing keeps the clocks equal to what the history says |
| History.UndoLog | public/chess/model/moves/MoveHistory.js:79-92 | undoing the last move takes one off the half-move clock, or recounts it from the history after a capture or pawn move, and takes one off the move number after a black move |
| History.RedoLog | public/chess/model/moves/MoveHistory.js:94-107 | redoing a move appends it and resets the half-move clock after a capture or pawn move or adds one, and adds one to the move number after a black move |
| History.UndoThenRedo | public/chess/model/moves/MoveHistory.js:28-46 | undo then redo gives back the same log |
| History.RedoThenUndo | public/chess/model/moves/MoveHistory.js:28-46 | redo then undo gives back the same log |
| History.MakeThenUndo | public/chess/model/moves/MoveHistory.js:14-36 | a move then an undo gives back the log with only that move on the redo list |
| History.PromotionAdvancesClock | public/chess/model/moves/MoveHistory.js:14-26 | a quiet promotion does not reset the half-move clock, because the promoted piece is no longer a pawn when the clock is read |
| History.UndoForgetsEarlierMoves | public/chess/model/moves/MoveHistory.js:109-114 | undoing a plain move always marks its piece as never moved, even if it had moved before |
| History.EnPassantTarget | public/chess/model/moves/MoveHistory.js:62-77 | there is a target exactly after a pawn's two-square move; it is the square the pawn passed over |
| History.EnPassantTargetIsCaptureSquare | public/chess/model/moves/MoveHistory.js:62-77 | the square an en passant capture lands on is the target read from the history |
| History.NoTargetAfterSingleStep | public/chess/model/moves/MoveHistory.js:62-77 | no target after a move of at most one rank |
| History.MoveHistory.constructor | public/chess/model/moves/MoveHistory.js:7-12 | an empty history and redo list, half-move clock 0 and move number 1 |
| History.MoveHistory.ResetMoveHistory | public/chess/model/moves/MoveHistory.js:156-161 | back to an empty history and redo list, half-move clock 0 and move number 1 |
| History.MoveHistory.GetLastMove | public/chess/model/moves/MoveHistory.js:48-52 | none exactly when the history is empty, otherwise its last move |
| History.MoveHistory.GetEnPassantTarget | public/chess/model/moves/MoveHistory.js:62-77 | the target of the last move |
| History.MoveHistory.CalculateHalfMoveClockFromHistory | public/chess/model/moves/MoveHistory.js:123-133 | the loop counts exactly `QuietRun` of the history |
| History.MoveHistory.MakeMove | public/chess/model/moves/MoveHistory.js:14-26 | the board and the log become `MakeMoveStep`'s, and the result says whether `execute` completed without throwing |
| History.MoveHistory.RecordMove | public/chess/model/moves/MoveHistory.js:17-24 | appends the move, clears the redo list, and updates both clocks |
| History.MoveHistory.ResetMoveClocksForUndo | public/chess/model/moves/MoveHistory.js:79-92 | the clocks step back as `UndoLog` says |
| History.MoveHistory.ResetMoveClocksForRedo | public/chess/model/moves/MoveHistory.js:94-107 | the clocks step forward as `RedoLog` says |
| History.MoveHistory.ResetHasMovedFlagForUndoAndUndo | public/chess/model/moves/MoveHistory.js:109-114 | the piece is marked unmoved and the move is undone on the board |
| History.MoveHistory.ResetHasMovedFlagForRedoAndRedo | public/chess/model/moves/MoveHistory.js:116-121 | the piece is marked moved and the move is redone on the board |
| History.MoveHistory.PopForUndo | public/chess/model/moves/MoveHistory.js:30-34 | takes the last move and leaves the log as `UndoStep` says |
| History.MoveHistory.UndoOnBoard | public/chess/model/moves/MoveHistory.js:31-33 | the board becomes `UndoStep`'s |
| History.MoveHistory.UndoMove | public/chess/model/moves/MoveHistory.js:28-36 | board and log become `UndoStep`'s |
| History.MoveHistory.PopForRedo | public/chess/model/moves/MoveHistory.js:40-44 | takes the last undone move and leaves the log as `RedoStep` says |
| History.MoveHistory.RedoOnBoard | public/chess/model/moves/MoveHistory.js:41-44 | the board becomes `RedoStep`'s |
| History.MoveHistory.RedoMove | public/chess/model/moves/MoveHistory.js:38-46 | board and log become `RedoStep`'s |
| History.MoveHistory.Copy | public/chess/model/moves/MoveHistory.js:135-154 | a fresh history holding a copy of every move, in order, and the same clocks |
| PieceRegistry.KeyIndex | public/chess/model/player/PieceManager.js:15 | `Map.has`/`get` over insertion-ordered entries: the index of the player's entry, which is the first with that key, or none exactly when no entry has that key |
| PieceRegistry.PlayerPieces | public/chess/model/player/PieceManager.js:24-26 | the pieces listed for a player are exactly those in that player's entry, or none when there is no entry |
| PieceRegistry.Add | public/chess/model/player/PieceManager.js:39-45 | adding appends the piece to its owner's list, creating the entry when missing, and leaves every other player's list unchanged |
| PieceRegistry.RemoveFirst | public/chess/model/player/PieceManager.js:32-35 | `indexOf` then `splice`: when the piece is absent the list is unchanged; otherwise one occurrence of it is taken out and every other entry stays (as a multiset) |
| PieceRegistry.RemoveFirstDropsFirst | public/chess/model/player/PieceManager.js:32-35 | when the piece is listed, the result is the list before its first occurrence (which holds no other occurrence) followed by the list after it, so the remaining entries keep their order |
| PieceRegistry.Remove | public/chess/model/player/PieceManager.js:28-37 | removing takes the first occurrence of the piece out of its owner's list, and leaves every other player's list unchanged |
| PieceRegistry.RowOccupants | public/chess/model/player/PieceManager.js:11-19 | the pieces of one row are exactly the occupied cells of that row; their order is stated by `PieceRegistry.RowOccupantsOrder` |
| PieceRegistry.Occupants | public/chess/model/player/PieceManager.js:10-20 | the pieces of the grid are exactly the occupied cells; their order is stated by `PieceRegistry.OccupantsFlat` |
| PieceRegistry.Build | public/chess/model/player/PieceManager.js:9-22 | the registry built from a board has one entry per player and lists only pieces of the board; its order is stated by `PieceRegistry.BuildOrder` |
| PieceRegistry.AddAllFiles | public/chess/model/player/PieceManager.js:9-22 | after filing a list of pieces, a piece is listed for a player exactly when it was already, or it is in the list and that player owns it |
| PieceRegistry.BuildFiles | public/chess/model/player/PieceManager.js:9-22 | a piece is listed for a player exactly when it stands on some square of the board and that player owns it |
| PieceRegistry.RowOccupantsOrder | public/chess/model/player/PieceManager.js:11-19 | the walk of one row lists the pieces of its occupied cells from left to right, one entry per occupied cell, missing none |
| PieceRegistry.RowOccupantsAppend | public/chess/model/player/PieceManager.js:10-20 | walking two runs of cells one after the other lists the first run's pieces, then the second's |
| PieceRegistry.FlattenAt | public/chess/model/player/PieceManager.js:10-11 | in a grid of rows of eight, cell (row, column) is cell 8 * row + column of the rows laid end to end |
| PieceRegistry.OccupantsFlat | public/chess/model/player/PieceManager.js:10-20 | the walk of the grid lists the pieces of the rows laid end to end, in order: row by row from the top, left to right within a row |
| PieceRegistry.OwnedBy | public/chess/model/player/PieceManager.js:12-18 | the pieces of a list that a player owns: a piece is kept exactly when it is in the list and that player owns it |
| PieceRegistry.AddAllOrder | public/chess/model/player/PieceManager.js:12-18 | filing a list of pieces into an empty registry gives each player exactly the pieces of the list that player owns, in the order of the list |
| PieceRegistry.BuildOrder | public/chess/model/player/PieceManager.js:9-22 | each player's list in the built registry is the pieces that player owns, in the order of the board walk, which lists every occupied cell once, row by row from the top and left to right |
| PieceRegistry.Opposing | public/chess/model/player/PieceManager.js:71-79 | the opposing pieces are exactly those listed under any other player |
| PieceRegistry.FirstKing | public/chess/model/player/PieceManager.js:49-53 | a king is found exactly when the list holds one, and it is a king from the list |
| PieceRegistry.KingSquare | public/chess/model/player/PieceManager.js:47-55 | a square is found exactly when the player's list holds a king, and it lies on the board; which king's square it is, is stated by `PieceRegistry.KingSquareIsFirstKing` |
| PieceRegistry.KingSquareIsFirstKing | public/chess/model/player/PieceManager.js:47-55 | the square found is the square of the first king in the player's list: the entry at that position is a king and no earlier entry is one |
| PieceRegistry.FirstKingIsFirst | public/chess/model/player/PieceManager.js:49-53 | the piece the scan finds is a king and no piece before it in the list is one |
| PieceManagers.InitPieces | public/chess/model/player/PieceManager.js:9-22 | the loop builds exactly `Build` of the board |
| PieceManagers.PieceManager.constructor | public/chess/model/player/PieceManager.js:4-7 | a manager holding `Build` of the board |
| PieceManagers.PieceManager.RemovePiece | public/chess/model/player/PieceManager.js:28-37 | the map becomes `Remove` of the old one: the owner's list loses the piece's first occurrence and no other list changes |
| PieceManagers.PieceManager.AddPiece | public/chess/model/player/PieceManager.js:39-45 | the map becomes `Add` of the old one: the piece is appended to its owner's list and no other list changes |
| PieceManagers.PieceManager.FindKingSquare | public/chess/model/player/PieceManager.js:47-55 | the loop returns exactly `KingSquare` |
| PieceManagers.PieceManager.GetOpposingPieces | public/chess/model/player/PieceManager.js:71-79 | the loop returns exactly `Opposing` |
| PieceManagers.PieceManager.HandlePromotion | public/chess/model/player/PieceManager.js:57-62 | for a promotion the pawn leaves its owner's list and the new piece joins its owner's list; otherwise nothing changes |
| PieceManagers.PieceManager.HandleUndoPromotion | public/chess/model/player/PieceManager.js:64-69 | for a last move that was a promotion the new piece leaves and the pawn comes back; otherwise nothing changes |
| Attacks.RawMoves | public/chess/model/pieces/ChessPiece.js:32-34 | a piece's raw moves come from the strategy of its kind, and each is a move that strategy generates for that piece |
| Attacks.AttackersExist | public/chess/model/board/ChessBoard.js:295-296 | every opposing piece the registry lists is a piece of the board |
| Attacks.AnyHits | public/chess/model/board/ChessBoard.js:296-303 | the loops are true exactly when some listed piece has a raw move ending on the target whose piece is alive |
| Attacks.AnyHitsMeans | public/chess/model/board/ChessBoard.js:294-305 | the loops are true exactly when there is a target square and some living listed piece has a raw move ending on it |
| Attacks.HitsSquareMeans | public/chess/model/board/ChessBoard.js:298-302 | one piece hits the target exactly when the target exists, the piece is alive, and one of its raw moves ends there |
| Attacks.KingInCheck | public/chess/model/board/ChessBoard.js:294-305 | a player is in check exactly when the registry lists a king for them and a living opposing piece has a raw move ending on its square |
| Attacks.SquareAttackedByPawn | public/chess/model/board/ChessBoard.js:340-352 | a pawn attacks only squares one column to its left or right |
| Attacks.PawnAttackIsPawnCapture | public/chess/model/board/ChessBoard.js:340-352 | for a pawn of the other colour, the pawn test matches exactly the squares one rank ahead of the pawn, in its direction of travel, and one column to either side |
| Attacks.AnyAttacks | public/chess/model/board/ChessBoard.js:307-338 | the loop is true exactly when some listed piece attacks the square: a living pawn by the pawn test, any other piece by a raw move of a living piece ending there |
| Attacks.DeadPiecesAttackNothing | public/chess/model/board/ChessBoard.js:294-338 | a dead piece never counts as attacking, in either query |
| Attacks.EmptyRegistryNoCheck | public/chess/model/board/ChessBoard.js:294-338 | with no registered pieces nobody is in check and no square is attacked |
| BaseStrategy.Simulate | public/chess/model/pieces/movementstrategy/BaseMovementStrategy.js:20-39 | the trial move runs on a copy: every old piece is copied, the mover is appended as a copy moved to the end square, the captured piece (if any) is appended as a copy, and the move is a plain move of the copied mover between the same squares that captures exactly when the original does |
| BaseStrategy.ExecuteNewest | public/chess/model/pieces/movementstrategy/BaseMovementStrategy.js:29-37 | executing the trial move of the appended mover copy leaves every copied piece as it was and only moves that copy to the end square |
| BaseStrategy.SimulatedBoard | public/chess/model/pieces/movementstrategy/BaseMovementStrategy.js:20-39 | every square of the trial board is as `SimulatedCell` says: the copy of the board with the mover's copy on the end square and its start square empty |
| BaseStrategy.SimulatedMoverRegistered | public/chess/model/pieces/movementstrategy/BaseMovementStrategy.js:37-38 | the rebuilt registry of the trial board lists the mover's copy under its owner |
| BaseStrategy.SimulatedUnregistered | public/chess/model/pieces/movementstrategy/BaseMovementStrategy.js:37-38 | the rebuilt registry of the trial board lists neither the captured piece's copy nor the pieces left behind |
| BaseStrategy.SafeMoves | public/chess/model/pieces/movementstrategy/BaseMovementStrategy.js:4-18 | the legal moves are exactly the raw moves that do not leave the mover's king in check, in order |
| BaseStrategy.SafeMovesAppend | public/chess/model/pieces/movementstrategy/BaseMovementStrategy.js:12-16 | filtering a concatenation is concatenating the filtered parts |
| BaseStrategy.CalculateLegalMoves | public/chess/model/pieces/movementstrategy/BaseMovementStrategy.js:4-18 | the loop returns exactly `SafeMoves` |
| BaseStrategy.RawMovesOk | public/chess/model/pieces/ChessPiece.js:32-34 | every raw move of a piece is a well-formed move on the board |
| Legality.LegalMovesMeans | public/chess/model/pieces/ChessPiece.js:28-30 | a move is legal exactly when it is a raw move of the piece that does not leave its king in check, or a castling move of a king |
| Legality.CalculateRawLegalMoves | public/chess/model/pieces/ChessPiece.js:32-34 | returns exactly `RawMoves` |
| Legality.CalculateLegalMoves | public/chess/model/pieces/ChessPiece.js:28-30 | returns exactly `LegalMoves` |
| Sliding.MoveTo | public/chess/model/pieces/movementstrategy/QueenMovementStrategy.js:37-68 | the move a slider makes to a square ends on that square, and reaches it legally unless the square holds a piece of the mover's own side |
| Sliding.Ray | public/chess/model/pieces/movementstrategy/QueenMovementStrategy.js:28-72 | every move of a ray reaches its square legally |
| Sliding.RayStop | public/chess/model/pieces/movementstrategy/QueenMovementStrategy.js:40-59 | an occupied square ends the ray, with a capture when the occupant belongs to the opponent and with nothing otherwise |
| Sliding.RayConsecutive | public/chess/model/pieces/movementstrategy/QueenMovementStrategy.js:28-72 | a ray starts on the first square and walks one step in its direction at a time |
| Sliding.RayCapturesLast | public/chess/model/pieces/movementstrategy/QueenMovementStrategy.js:40-59 | only the last move of a ray can be a capture |
| Sliding.RayMaximal | public/chess/model/pieces/movementstrategy/QueenMovementStrategy.js:31-72 | a ray stops only when the next square is off the board or blocked by the mover's own side, or after a capture |
| Sliding.Rays | public/chess/model/pieces/movementstrategy/QueenMovementStrategy.js:27-73 | every move of the rays reaches its square legally |
| Sliding.RaysMembers | public/chess/model/pieces/movementstrategy/QueenMovementStrategy.js:27-73 | a move is among the rays exactly when it is on the ray of one of the directions |
| Sliding.BishopMoves | public/chess/model/pieces/movementstrategy/BishopMovementStrategy.js:6-58 | every bishop move reaches its square legally |
| Sliding.QueenMoves | public/chess/model/pieces/movementstrategy/QueenMovementStrategy.js:6-76 | every queen move reaches its square legally |
| Sliding.RookMoves | public/chess/model/pieces/Rook.js:9-11 | every rook move reaches its square legally |
| Sliding.BishopStaysDiagonal | public/chess/model/pieces/movementstrategy/BishopMovementStrategy.js:16-21 | every bishop move lies on a diagonal ray |
| Sliding.QueenIsRookAndBishop | public/chess/model/pieces/movementstrategy/QueenMovementStrategy.js:15-25 | the queen's moves are exactly the rook's moves together with the bishop's |
| Leaping.Leap | public/chess/model/pieces/movementstrategy/KnightMovementStrategy.js:26-51 | one offset gives at most one move |
| Leaping.LeapSpec | public/chess/model/pieces/movementstrategy/KnightMovementStrategy.js:26-51 | an offset yields a move exactly when the target is on the board and is empty or holds an opponent, which the move then captures |
| Leaping.Leaps | public/chess/model/pieces/movementstrategy/KnightMovementStrategy.js:26-51 | at most one move per offset, each reaching its square legally |
| Leaping.LeapsSpec | public/chess/model/pieces/movementstrategy/KnightMovementStrategy.js:26-51 | a move is among the leaps exactly when one offset yields it |
| Leaping.KnightJumps | public/chess/model/pieces/movementstrategy/KnightMovementStrategy.js:15-24 | every knight move goes one square one way and two the other, and reaches its square legally |
| Leaping.KingSteps | public/chess/model/pieces/movementstrategy/KingMovementStrategy.js:16-72 | every plain king move goes exactly one square in some direction, and reaches its square legally |
| BishopStrategy.CalculateRawLegalMoves | public/chess/model/pieces/movementstrategy/BishopMovementStrategy.js:6-58 | the loops return exactly `BishopMoves` |
| BishopStrategy.CastRay | public/chess/model/pieces/movementstrategy/BishopMovementStrategy.js:23-55 | the inner loop collects exactly the ray of one direction |
| QueenStrategy.CalculateRawLegalMoves | public/chess/model/pieces/movementstrategy/QueenMovementStrategy.js:6-76 | the loops return exactly `QueenMoves` |
| QueenStrategy.CastRay | public/chess/model/pieces/movementstrategy/QueenMovementStrategy.js:27-72 | the inner loop collects exactly the ray of one direction |
| KnightStrategy.CalculateRawLegalMoves | public/chess/model/pieces/movementstrategy/KnightMovementStrategy.js:6-54 | the loop returns exactly `KnightMoves` |
| KingStrategy.SideCastling | public/chess/model/pieces/movementstrategy/KingMovementStrategy.js:85-181 | one side offers at most one move, and it is a well-formed castling move |
| KingStrategy.KingSideCastling | public/chess/model/pieces/movementstrategy/KingMovementStrategy.js:85-132 | at most one king-side castling move |
| KingStrategy.QueenSideCastling | public/chess/model/pieces/movementstrategy/KingMovementStrategy.js:134-181 | at most one queen-side castling move |
| KingStrategy.CastlingMoves | public/chess/model/pieces/movementstrategy/KingMovementStrategy.js:74-83 | at most two castling moves, each well formed |
| KingStrategy.CastlingConditions | public/chess/model/pieces/movementstrategy/KingMovementStrategy.js:74-181 | every castling move offered is made by an unmoved king that is not in check, captures nothing, stays on its rank, and either moves two squares toward column 7 with that rook going to column 5, or two squares toward column 0 with that rook going to column 3; in either case the unmoved rook stands on that corner, the two squares next to the king on that side are empty, and no opposing piece attacks them |
| KingStrategy.CastlingOffered | public/chess/model/pieces/movementstrategy/KingMovementStrategy.js:74-181 | conversely, when the king is unmoved and not in check and a side is open, castling on that side is offered |
| KingStrategy.KingLegalParts | public/chess/model/pieces/movementstrategy/KingMovementStrategy.js:10-14 | a king's legal moves are exactly its one-square moves that do not leave it in check, plus the castling moves, which are not checked for check again |
| KingStrategy.CalculateRawLegalMoves | public/chess/model/pieces/movementstrategy/KingMovementStrategy.js:16-72 | the loop returns exactly `KingMoves` |
| KingStrategy.AddSideCastlingMove | public/chess/model/pieces/movementstrategy/KingMovementStrategy.js:85-181 | appends exactly that side's castling moves |
| KingStrategy.AddCastlingMoves | public/chess/model/pieces/movementstrategy/KingMovementStrategy.js:74-83 | appends exactly `CastlingMoves` |
| KingStrategy.CalculateLegalMoves | public/chess/model/pieces/movementstrategy/KingMovementStrategy.js:10-14 | returns exactly `KingLegalMoves` |
| PawnStrategy.SingleStep | public/chess/model/pieces/movementstrategy/PawnMovementStrategy.js:49-67 | a single step goes one rank forward and never onto the back rank |
| PawnStrategy.DoubleStep | public/chess/model/pieces/movementstrategy/PawnMovementStrategy.js:69-85 | a double step goes two ranks forward, and only from the starting rank |
| PawnStrategy.Capture | public/chess/model/pieces/movementstrategy/PawnMovementStrategy.js:87-107 | a plain capture goes one rank forward and one column aside, and never onto a back rank |
| PawnStrategy.EnPassantMoves | public/chess/model/pieces/movementstrategy/PawnMovementStrategy.js:109-142 | every en passant move is a move the pawn strategy generates for that pawn |
| PawnStrategy.PromotionSet | public/chess/model/pieces/movementstrategy/PawnMovementStrategy.js:170-180 | one promotion move per token, in the order QUEEN, ROOK, BISHOP, KNIGHT |
| PawnStrategy.PromotionCapture | public/chess/model/pieces/movementstrategy/PawnMovementStrategy.js:185-217 | a promoting capture goes one rank forward and one column aside, from the rank before promotion |
| PawnStrategy.PromotionStraight | public/chess/model/pieces/movementstrategy/PawnMovementStrategy.js:169-182 | a promoting step goes straight ahead from the rank before promotion |
| PawnStrategy.PawnMoves | public/chess/model/pieces/movementstrategy/PawnMovementStrategy.js:9-18 | every raw pawn move is generated for that pawn |
| PawnStrategy.CalculateRawLegalMoves | public/chess/model/pieces/movementstrategy/PawnMovementStrategy.js:9-18 | returns exactly `PawnMoves` |
| PawnStrategy.AddNormalMoves | public/chess/model/pieces/movementstrategy/PawnMovementStrategy.js:20-47 | appends exactly `NormalMoves` |
| PawnStrategy.HandleCapture | public/chess/model/pieces/movementstrategy/PawnMovementStrategy.js:87-107 | appends exactly `Capture` |
| PawnStrategy.AddEnPassantMoves | public/chess/model/pieces/movementstrategy/PawnMovementStrategy.js:109-142 | appends exactly `EnPassantMoves` |
| PawnStrategy.AddPromotionMoves | public/chess/model/pieces/movementstrategy/PawnMovementStrategy.js:144-183 | appends exactly `PromotionMoves` |
| PawnStrategy.HandlePromotionCapture | public/chess/model/pieces/movementstrategy/PawnMovementStrategy.js:185-217 | appends exactly `PromotionCapture` |
| PawnStrategy.PushPromotions | public/chess/model/pieces/movementstrategy/PawnMovementStrategy.js:170-180 | appends exactly `PromotionSet` |
| PawnStrategy.PawnMovesParts | public/chess/model/pieces/movementstrategy/PawnMovementStrategy.js:9-18 | a raw pawn move is exactly one of: a single or double step, a plain capture on either side, an en passant capture, a promoting capture on either side, or a promoting step |
| PawnStrategy.PawnStepsForward | public/chess/model/pieces/movementstrategy/PawnMovementStrategy.js:49-85 | a plain move along the file captures nothing and lands on an empty square: one rank forward but not onto the back rank, or two ranks from the starting rank over an empty square |
| PawnStrategy.PawnCapturesDiagonally | public/chess/model/pieces/movementstrategy/PawnMovementStrategy.js:87-107 | a plain move off the file goes one rank forward and one column aside, onto an opponent's piece, which it captures, and not onto a back rank |
| PawnStrategy.PawnEnPassantAnswersDoubleStep | public/chess/model/pieces/movementstrategy/PawnMovementStrategy.js:109-142 | an en passant move answers an enemy pawn's two-square advance that ended beside it, captures that pawn, and lands behind it |
| PawnStrategy.PawnPromotes | public/chess/model/pieces/movementstrategy/PawnMovementStrategy.js:144-217 | a promotion starts on the rank before promotion and ends on the back rank, with a token from the list; straight ahead onto an empty square or diagonally onto an opponent's piece; and all four tokens are offered for it |
| PawnStrategy.PawnSingleStepOffered | public/chess/model/pieces/movementstrategy/PawnMovementStrategy.js:49-67 | conversely, when the square ahead is on the board, empty and not the back rank, the single step is offered |
| Handlers.LegalMovesHeld | public/chess/model/moves/MoveHandler.js:34-37 | every move the handler can hold is well formed on the board and carries a consistent promotion tag |
| Handlers.Last | public/chess/model/moves/MoveHistory.js:48-52 | none exactly for an empty list, otherwise its last element |
| Handlers.Swap | public/chess/model/game/GameState.js:57-61 | a snapshot with the current and opposing players exchanged and nothing else changed |
| Handlers.MakeSound | public/chess/model/moves/MoveHandler.js:142-149 | making a move keeps the recorded moves well formed on the new board and their promotion tags consistent |
| Handlers.UndoSound | public/chess/model/moves/MoveHandler.js:224-235 | an undo keeps the recorded moves well formed and their promotion tags consistent |
| Handlers.RedoSound | public/chess/model/moves/MoveHandler.js:254-260 | a redo keeps the recorded moves well formed and their promotion tags consistent |
| Handlers.CommitSound | public/chess/model/moves/MoveHandler.js:142-149 | completing a move keeps the world consistent; when `makeMove` throws only the board has changed, and otherwise the players are swapped and the log is `MakeMoveStep`'s |
| Handlers.CommitIs | public/chess/model/moves/MoveHandler.js:142-149 | completing a move makes it, updates the registry for a promotion, and swaps the players, in that order |
| Handlers.FinalizeSound | public/chess/model/moves/MoveHandler.js:129-140 | finalizing always pushes the current snapshot; a promotion chosen by a human waits for a piece type with nothing else changed |
| Handlers.UndoIs | public/chess/model/moves/MoveHandler.js:224-235 | one undo: the game-over flag is cleared, the registry reverses a last promotion, the move is undone, and the last snapshot is popped and restored |
| Handlers.RedoIs | public/chess/model/moves/MoveHandler.js:254-260 | one redo: the move is redone, then the registry, snapshot and players are updated |
| Handlers.SingleUndo | public/chess/model/moves/MoveHandler.js:224-235 | one undo restores the last snapshot, pops it, clears game over, and steps the log back as `UndoStep` says |
| Handlers.SingleRedo | public/chess/model/moves/MoveHandler.js:254-260 | one redo pushes the current snapshot, swaps the players, keeps game over, and steps the log forward as `RedoStep` says |
| Handlers.PlyCount | public/chess/model/moves/MoveHandler.js:208-212 | one or two plies: two when player1 is to move and player2 is Stockfish |
| Handlers.UndoPlies | public/chess/model/moves/MoveHandler.js:214-220 | the undo loop completes exactly when there are enough snapshots, using one per ply; otherwise it stops with none left |
| Handlers.RedoPlies | public/chess/model/moves/MoveHandler.js:244-250 | the redo loop completes exactly when there are enough undone moves, using one per ply and pushing one snapshot each; otherwise it stops with none left |
| Handlers.UndoChainEnds | public/chess/model/moves/MoveHandler.js:214-220 | the loop's sequence of single undos ends in the world `UndoPlies` describes |
| Handlers.RedoThenUndoWorld | public/chess/model/moves/MoveHandler.js:224-260 | a redo followed by an undo gives back the players, the snapshots and the log |
| Handlers.FinalizeThenUndo | public/chess/model/moves/MoveHandler.js:129-149 | a move followed by an undo gives back the players and the snapshots, and the log with that move on the redo list |
| Handlers.LiveOnly | public/chess/model/moves/MoveHandler.js:152-158 | `filter(piece => piece.isAlive())`: exactly the living pieces of the list |
| Handlers.HasLegalMovesMeans | public/chess/model/moves/MoveHandler.js:160-167 | the loop finds a legal move exactly when some listed piece has one |
| Handlers.Judge | public/chess/model/moves/MoveHandler.js:174-204 | checkmate exactly when there is no legal move and the king is in check; otherwise stalemate when there is no legal move or each side has only one living piece; otherwise check when the king is in check |
| Handlers.Judged | public/chess/model/moves/MoveHandler.js:151-205 | judging changes only the game-over flag, and never clears it |
| Handlers.JudgedMeans | public/chess/model/moves/MoveHandler.js:151-205 | after judging the game is over exactly when it was already, or the half-move clock is 100, or the player to move has no legal move, or each side has only one living piece |
| Handlers.AnyLegalMove | public/chess/model/moves/MoveHandler.js:160-167 | the loop returns exactly `HasLegalMoves` |
| Handlers.FindEnd | public/chess/model/moves/MoveHandler.js:65-67 | `find` on the end square: none exactly when no move ends there, otherwise the first that does |
| Handlers.MoveHandler.constructor | public/chess/model/moves/MoveHandler.js:4-21 | the collaborators as given, a first click expected, no selection, no moves and no pending promotion |
| Handlers.MoveHandler.PieceAndMoves | public/chess/model/moves/MoveHandler.js:24-37 | the piece on the square, whether it belongs to the player to move, and if so its legal moves |
| Handlers.MoveHandler.HandleSelectPieceClick | public/chess/model/moves/MoveHandler.js:23-46 | the selection becomes the piece on the square; for an own piece the moves become its legal moves and a second click is expected exactly when there are some; otherwise nothing else changes |
| Handlers.MoveHandler.HandleDragStart | public/chess/model/moves/MoveHandler.js:80-106 | the selection becomes the piece on the square, and for an own piece the moves become its legal moves; the first-click flag is untouched |
| Handlers.MoveHandler.ChooseBranch | public/chess/model/moves/MoveHandler.js:174-204 | the branch taken is `Judge`'s verdict |
| Handlers.MoveHandler.SetGameOverFor | public/chess/model/moves/MoveHandler.js:169-189 | the game becomes over after a 100 half-move clock, a checkmate or a stalemate, and nothing else changes |
| Handlers.MoveHandler.HandleCheckAndCheckmate | public/chess/model/moves/MoveHandler.js:151-205 | the world becomes `Judged` of the old one and the verdict is `Judge`'s |
| Handlers.MoveHandler.ContinueFinalizingMove | public/chess/model/moves/MoveHandler.js:142-149 | the world becomes `Commit`'s, and a first click is expected again once the move is made |
| Handlers.MoveHandler.FinishMove | public/chess/model/moves/MoveHandler.js:144-147 | the registry follows a promotion, the players are swapped and a first click is expected; board and log are untouched |
| Handlers.MoveHandler.PushMemento | public/chess/model/moves/MoveHandler.js:130 | the current snapshot is appended to the snapshot list |
| Handlers.MoveHandler.FinalizeMove | public/chess/model/moves/MoveHandler.js:129-140 | the world becomes `Finalize`'s: snapshot pushed, then the move is made or it waits for a piece type |
| Handlers.MoveHandler.ResolvePromotion | public/chess/model/moves/MoveHandler.js:133-136 | the chosen type is set on the waiting move, which is then completed as `Commit` says; nothing is left waiting |
| Handlers.MoveHandler.PlayMove | public/chess/model/moves/MoveHandler.js:75-76 | the move is finalized and the position judged, as `Played` says |
| Handlers.MoveHandler.HandleMovePieceClick | public/chess/model/moves/MoveHandler.js:48-78 | with no selection only a first click is expected again; a click on an own piece selects it; otherwise the first held move ending on the square is played and judged, and with none nothing changes |
| Handlers.MoveHandler.HandleDragDrop | public/chess/model/moves/MoveHandler.js:108-127 | with no held move ending on the square, or a selection not of the player to move, the selection is cleared and a first click expected; otherwise that move is played and judged |
| Handlers.MoveHandler.ClearAndUnpromote | public/chess/model/moves/MoveHandler.js:225-230 | the game-over flag is cleared and the registry reverses a last promotion; board and log are untouched |
| Handlers.MoveHandler.PopMemento | public/chess/model/moves/MoveHandler.js:233-234 | the last snapshot is popped and restored |
| Handlers.MoveHandler.HandleSingleUndo | public/chess/model/moves/MoveHandler.js:224-235 | the world becomes `SingleUndo`'s |
| Handlers.MoveHandler.AfterRedo | public/chess/model/moves/MoveHandler.js:256-259 | after the redo on the log: the registry follows a promotion, the snapshot is pushed, a first click is expected and the players are swapped |
| Handlers.MoveHandler.HandleSingleRedo | public/chess/model/moves/MoveHandler.js:254-260 | the world becomes `SingleRedo`'s and a first click is expected |
| Handlers.MoveHandler.FinalizeUndoRedo | public/chess/model/moves/MoveHandler.js:262-272 | the selection is cleared, a first click is expected, and the world is judged |
| Handlers.MoveHandler.ResetSelection | public/chess/model/moves/MoveHandler.js:263-264 | the selection is cleared and a first click is expected |
| Handlers.MoveHandler.UndoTurns | public/chess/model/moves/MoveHandler.js:214-220 | the loop leaves the world `UndoPlies` describes |
| Handlers.MoveHandler.HandleUndoMove | public/chess/model/moves/MoveHandler.js:207-222 | one or two undos; when there were enough snapshots the result is judged and the selection cleared, otherwise the loop just stops |
| Handlers.MoveHandler.RedoTurns | public/chess/model/moves/MoveHandler.js:244-250 | the loop leaves the world `RedoPlies` describes |
| Handlers.MoveHandler.HandleRedoMove | public/chess/model/moves/MoveHandler.js:237-252 | one or two redos; when there were enough undone moves the result is judged and the selection cleared, otherwise the loop just stops |
| Moves.BaseUndo | public/chess/model/moves/Move.js:27-36 | the base undo keeps a valid board and the number of pieces; its effect is stated by `MoveLaws.PlainUndoRestores` and the per-case undo lemmas |
| Moves.CastlingUndo | public/chess/model/moves/CastlingMove.js:19-25 | the castling undo keeps a valid board and the number of pieces; its effect is stated by `MoveLaws.CastlingUndoRestores` |
| Moves.EnPassantUndo | public/chess/model/moves/EnPassantMove.js:17-27 | the en passant undo keeps a valid board and the number of pieces; its effect is stated by `MoveLaws.EnPassantUndoRestores` |
| Moves.PromotionUndo | public/chess/model/moves/PromotionMove.js:52-64 | the promotion undo keeps a valid board and the number of pieces; its effect is stated by `MoveLaws.PromotionUndoRestores` |
| MoveCommands.ShiftOn | public/chess/model/moves/Move.js:18-20 | the board becomes `Moves.Shift` of the old one |
| MoveCommands.MarkMovedOn | public/chess/model/pieces/PieceWithMoveStatus.js:8-10 | the board becomes `Moves.MarkMoved` of the old one |
| MoveCommands.SetAliveOn | public/chess/model/pieces/ChessPiece.js:60-70 | the board becomes `Moves.SetAlive` of the old one |
| History.BlackCount | public/chess/model/moves/MoveHistory.js:21-23 | the number of black moves in the history, at most its length |
| History.UndoStepIs | public/chess/model/moves/MoveHistory.js:28-36 | an undo on a non-empty history is exactly: clear the mover's moved flag, undo the move, move it to the redo list, and wind both clocks back |
| History.RedoStepIs | public/chess/model/moves/MoveHistory.js:38-46 | a redo on a non-empty redo list is exactly: set the mover's moved flag, redo the move, append it to the history, and wind both clocks forward |
| GameStates.GameState.StartTurn | public/chess/model/game/GameState.js:22-32 | white moves first and the capture lists are emptied; the players and flags are untouched |
| FenWriter.SideLettersIs | public/chess/utils/FENGenerator.js:57-79 | one side writes its king-side letter and then its queen-side letter, each exactly when the king and that rook are unmoved on their home squares |
| Handlers.LivePieces | public/chess/model/moves/MoveHandler.js:152-158 | the living pieces the registry lists for a player all exist on the board |

## Left out

- FenPlacement.ScanChar: a piece letter at a column of 8 or more on a row below 8 is an error (`Err("Square outside the board")`). In `initializeBoardFromFEN` (public/chess/model/board/ChessBoard.js:103) that assignment instead grows the JavaScript row array, and `initializePieceManager` then registers the stray piece. The grid here has exactly eight columns, so an overlong rank such as `RNBQKBNRR` is rejected instead of adding a seventeenth piece off the board. A rank with a gap past column 7 (`9p`) makes the source throw later, at `initializePieceManager`; here it is rejected at the letter. A row of 8 or more is an error in both.
- Board.ImportFen: inherits the off-board-cell difference of FenPlacement.ScanChar. An overlong rank that the source imports, registering the extra piece, is an `Err` here. Every FEN whose ranks stay within eight columns is read as the source reads it.
- Board.ChessBoard.InitializeBoardFromFEN: the same off-board-cell difference as Board.ImportFen. On an error the board is left as the source leaves it (`Board.ImportState`), but the stray off-board pieces that the source keeps in its grown row arrays across later imports are not modelled.
- Players.Player.Equals: the source compares players with `===` (object identity). The model compares player values. The two coincide because the application creates exactly one player object per colour and the two players never share a colour.
- FenPlacement.IsUpper: follows `ch === ch.toUpperCase()` only for ASCII and the Kelvin sign (U+212A). Other non-ASCII characters count as upper case, which only decides the owner of a piece that `fenToPiece` then refuses, so the outcome is the same error.
- FenPlacement.Lower: `toLowerCase` is modelled for A-Z and the Kelvin sign, the only characters whose lower case is a letter `fenToPiece` accepts. Every other character is kept, so no full Unicode case mapping is modelled.
- History.Consistent: holds for histories built from an empty log by makeMove/undoMove/redoMove. A FEN import with non-zero clocks (GameController.js:63-64 sets the clocks directly) produces a history outside it, and the undo/redo round-trip lemmas (`History.UndoThenRedo`, `History.RedoThenUndo`, `History.MakeThenUndo`) do not apply to such a history.
- Sliding.RookMoves: RookMovementStrategy.js is not part of this model. The rook's moves are taken as the four orthogonal rays of the queen's strategy, which is how the queen's strategy combines its rook and bishop parts.
- GameStates.GameState.SetGameOver: in the source, the constructor's field `isGameOver` shadows the method `isGameOver()` (GameState.js:14 and 106-108), and callers read it as a field. The model has the field only.
- GameStates.GameState.AddCapturedPiece: with `removeCapturedPiece` and `updateCapturedPieces` it is modelled, but nothing in the core calls them (the move handler's `handleCapturedPieces` is commented out), so no move updates the captured-piece lists.
- GameStates.GameState.constructor: the source runs `init` (which sets up the board) before it sets the flags. The model sets the flags first. The two writes touch disjoint state, so the outcome is the same.
- Handlers.MoveHandler.HandleDragDrop: when a listed move is found but no piece is selected, the source throws at `this.selectedPiece.getPlayer()` before changing anything. The model leaves every field unchanged.
- Handlers.MoveHandler.ResolvePromotion: the GUI's promotion dialog and its callback are modelled as the field `pendingPromotion` and this method, which the dialog would call with the chosen token. As in the source, check detection does not run from the callback.
- Handlers.MoveHandler.ChooseBranch: `isKingInCheck` reads only the board, so it is asked once up front instead of on each branch as the source does. `Handlers.MoveHandler.SetGameOverFor` makes the same `setGameOver(true)` calls. GUI highlighting of the checked king and log texts are left out.
- Handlers.MoveHandler: the list of highlighted moves holds move values. In the source a listed move object is the one later executed and mutated (its capture and promotion fields), and the GUI's highlighting is left out.
- PieceRegistry.BuildOrder: the built lists hold one entry per occupied cell. A piece index standing on two cells would be listed twice, as the source would list one object stored in two cells. No operation of the model puts one piece on two cells, but `Positions.Valid` does not exclude it.
- Moves.BaseUndo: with `Moves.CastlingUndo`, `Moves.EnPassantUndo` and `Moves.PromotionUndo`, its own contract states only that the board stays valid and the arena keeps its size. What each undo restores is stated by the lemmas of `MoveLaws`.
- Board.ChessBoard.Init, FenWriter.ToFen and the move strategies take no random input and do no I/O. The Stockfish player kind is only a flag (`Players.Player.IsStockfish`) that decides the undo/redo counts and skips the promotion dialog; the engine itself is not modelled.
- Quirks of the source that the model reproduces rather than corrects:
  - a promotion does not reset the halfmove clock, because after `execute` the move's piece is the promoted piece and a promotion's capture flag is never set;
  - undo clears the moved king's or rook's `hasMoved` flag even when it had moved before;
  - a promotion by a human player pushes its memento before the dialog, and the dialog has no cancel path;
  - a promotion's redo leaves the captured piece alive;
  - queen-side castling does not check that the b-file square is empty;
  - a FEN en-passant field other than `-` throws, because `Square.getSquareFromNotation` is called on the class;
  - FEN import is not transactional;
  - a position with two lone kings takes the stalemate branch;
  - a castling move's redo runs the castling execute.
