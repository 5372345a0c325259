/**
 * The move command objects (Move.js, CastlingMove.js, EnPassantMove.js, PromotionMove.js) acting
 * on a ChessBoard in place, call by call. Each method returns the move object as `execute`
 * leaves it and states the new board as the matching function of module Moves.
 */
module MoveCommands {
  import opened Wrappers
  import opened Squares
  import opened Players
  import opened Pieces
  import opened Positions
  import opened Moves
  import opened Board

  /** `board.removePiece(p); p.setCurrentSquare(s); board.addPiece(p)`. */
  method ShiftOn(board: ChessBoard, id: PieceId, s: Square)
    requires board.Valid() && id < |board.pieces| && InBounds(s)
    modifies board, board.board
    ensures board.Valid() && board.board == old(board.board) && board.pieceManager == old(board.pieceManager)
    ensures board.Snap() == Shift(old(board.Snap()), id, s)
  {
    board.RemovePiece(id);
    board.SetPiece(id, WithSquare(board.pieces[id], s));
    board.AddPiece(id);
  }

  /** `if (typeof piece.setHasMoved === "function") piece.setHasMoved(b)`. */
  method MarkMovedOn(board: ChessBoard, id: PieceId, b: bool)
    requires board.Valid() && id < |board.pieces|
    modifies board
    ensures board.Valid() && board.board == old(board.board) && board.pieceManager == old(board.pieceManager)
    ensures board.Snap() == MarkMoved(old(board.Snap()), id, b)
  {
    if board.pieces[id].HasMoveStatus() {
      board.SetPiece(id, WithHasMoved(board.pieces[id], b));
    }
  }

  /** `kill` (b = false) or `revive` (b = true). */
  method SetAliveOn(board: ChessBoard, id: PieceId, b: bool)
    requires board.Valid() && id < |board.pieces|
    modifies board
    ensures board.Valid() && board.board == old(board.board) && board.pieceManager == old(board.pieceManager)
    ensures board.Snap() == SetAlive(old(board.Snap()), id, b)
  {
    board.SetPiece(id, WithAlive(board.pieces[id], b));
  }

  /** `Move.execute`. */
  method ExecuteBase(board: ChessBoard, m: Move) returns (move: Move)
    requires board.Valid() && MoveOk(board.Snap(), m)
    modifies board, board.board
    ensures board.Valid() && board.board == old(board.board) && board.pieceManager == old(board.pieceManager)
    ensures board.Snap() == BaseExecute(old(board.Snap()), m).pos && move == BaseExecute(old(board.Snap()), m).move
  {
    move := m;
    if m.capturedPiece.Some? {
      SetAliveOn(board, m.capturedPiece.value, false);
      board.RemovePiece(m.capturedPiece.value);
      move := move.(isCapture := true);
    }
    ShiftOn(board, m.piece, m.endSquare);
    MarkMovedOn(board, m.piece, true);
  }

  /** `CastlingMove.execute`: the king's move, then the rook's, and the rook flagged as moved. */
  method ExecuteCastling(board: ChessBoard, m: Move) returns (move: Move)
    requires board.Valid() && MoveOk(board.Snap(), m) && m.variant.Castling?
    modifies board, board.board
    ensures board.Valid() && board.board == old(board.board) && board.pieceManager == old(board.pieceManager)
    ensures board.Snap() == CastlingExecute(old(board.Snap()), m).pos && move == CastlingExecute(old(board.Snap()), m).move
  {
    move := ExecuteBase(board, m);
    ShiftOn(board, m.variant.rook, m.variant.rookEndSquare);
    MarkMovedOn(board, m.variant.rook, true);
  }

  /**
   * `PromotionMove.execute`; `ok` is false where `promotePiece` throws, after the capture. The
   * promoted piece is the board's next new piece.
   */
  method ExecutePromotion(board: ChessBoard, m: Move) returns (move: Move, ok: bool)
    requires board.Valid() && MoveOk(board.Snap(), m) && m.variant.Promotion?
    modifies board, board.board
    ensures board.Valid() && board.board == old(board.board) && board.pieceManager == old(board.pieceManager)
    ensures board.Snap() == PromotionExecute(old(board.Snap()), m).pos
    ensures move == PromotionExecute(old(board.Snap()), m).move && ok == PromotionExecute(old(board.Snap()), m).ok
  {
    move := m;
    if m.capturedPiece.Some? {
      SetAliveOn(board, m.capturedPiece.value, false);
      board.RemovePiece(m.capturedPiece.value);
    }
    var original := m.variant.originalPiece;
    var promoted := PromotePiece(m.variant.promotionType, board.pieces[original].player, m.endSquare);
    if promoted.Err? {
      return move, false;
    }
    var id := board.NewPiece(promoted.value);
    move := move.(variant := move.variant.(promotedPiece := Some(id)));
    board.RemovePiece(original);
    move := move.(piece := id);
    board.AddPiece(id);
    ok := true;
  }

  /** `move.execute()`, by the class of the move. */
  method Execute(board: ChessBoard, m: Move) returns (move: Move, ok: bool)
    requires board.Valid() && MoveOk(board.Snap(), m)
    modifies board, board.board
    ensures board.Valid() && board.board == old(board.board) && board.pieceManager == old(board.pieceManager)
    ensures board.Snap() == Moves.Execute(old(board.Snap()), m).pos
    ensures move == Moves.Execute(old(board.Snap()), m).move && ok == Moves.Execute(old(board.Snap()), m).ok
  {
    match m.variant
    case Plain => move := ExecuteBase(board, m); ok := true;
    case EnPassant(_) => move := ExecuteBase(board, m); ok := true;
    case Castling(_, _, _) => move := ExecuteCastling(board, m); ok := true;
    case Promotion(_, _, _) => move, ok := ExecutePromotion(board, m);
  }

  /** `Move.undo`. */
  method UndoBase(board: ChessBoard, m: Move)
    requires board.Valid() && MoveOk(board.Snap(), m)
    modifies board, board.board
    ensures board.Valid() && board.board == old(board.board) && board.pieceManager == old(board.pieceManager)
    ensures board.Snap() == BaseUndo(old(board.Snap()), m)
  {
    ShiftOn(board, m.piece, m.startSquare);
    if m.capturedPiece.Some? {
      var c := m.capturedPiece.value;
      SetAliveOn(board, c, true);
      board.SetPiece(c, WithSquare(board.pieces[c], m.endSquare));
      board.AddPiece(c);
    }
  }

  /** `CastlingMove.undo`: the king back, the rook back, and the rook flagged as not moved. */
  method UndoCastling(board: ChessBoard, m: Move)
    requires board.Valid() && MoveOk(board.Snap(), m) && m.variant.Castling?
    modifies board, board.board
    ensures board.Valid() && board.board == old(board.board) && board.pieceManager == old(board.pieceManager)
    ensures board.Snap() == CastlingUndo(old(board.Snap()), m)
  {
    UndoBase(board, m);
    ShiftOn(board, m.variant.rook, m.variant.rookStartSquare);
    MarkMovedOn(board, m.variant.rook, false);
  }

  /** `EnPassantMove.undo`: a captured Pawn back on its original square, then the mover back. */
  method UndoEnPassant(board: ChessBoard, m: Move)
    requires board.Valid() && MoveOk(board.Snap(), m) && m.variant.EnPassant?
    modifies board, board.board
    ensures board.Valid() && board.board == old(board.board) && board.pieceManager == old(board.pieceManager)
    ensures board.Snap() == EnPassantUndo(old(board.Snap()), m)
  {
    if m.capturedPiece.Some? && board.pieces[m.capturedPiece.value].IsInstance(Pawn) {
      var c := m.capturedPiece.value;
      SetAliveOn(board, c, true);
      ShiftOn(board, c, m.variant.originalSquareBeforeCapture);
    }
    ShiftOn(board, m.piece, m.startSquare);
  }

  /** `PromotionMove.undo`: the promoted piece lifted, the pawn back, the captured piece revived. */
  method UndoPromotion(board: ChessBoard, m: Move)
    requires board.Valid() && MoveOk(board.Snap(), m) && m.variant.Promotion? && m.variant.promotedPiece.Some?
    modifies board, board.board
    ensures board.Valid() && board.board == old(board.board) && board.pieceManager == old(board.pieceManager)
    ensures board.Snap() == PromotionUndo(old(board.Snap()), m)
  {
    board.RemovePiece(m.variant.promotedPiece.value);
    var original := m.variant.originalPiece;
    board.SetPiece(original, WithSquare(board.pieces[original], m.startSquare));
    board.AddPiece(original);
    if m.capturedPiece.Some? {
      var c := m.capturedPiece.value;
      SetAliveOn(board, c, true);
      ShiftOn(board, c, m.endSquare);
    }
  }

  /** `move.undo()`, by the class of the move. */
  method Undo(board: ChessBoard, m: Move)
    requires board.Valid() && MoveOk(board.Snap(), m) && Executed(m)
    modifies board, board.board
    ensures board.Valid() && board.board == old(board.board) && board.pieceManager == old(board.pieceManager)
    ensures board.Snap() == Moves.Undo(old(board.Snap()), m)
  {
    match m.variant
    case Plain => UndoBase(board, m);
    case EnPassant(_) => UndoEnPassant(board, m);
    case Castling(_, _, _) => UndoCastling(board, m);
    case Promotion(_, _, _) => UndoPromotion(board, m);
  }

  /** `PromotionMove.redo`: the pawn lifted, the promoted piece put back and moved to the end square. */
  method RedoPromotion(board: ChessBoard, m: Move) returns (move: Move)
    requires board.Valid() && MoveOk(board.Snap(), m) && m.variant.Promotion? && m.variant.promotedPiece.Some?
    modifies board, board.board
    ensures board.Valid() && board.board == old(board.board) && board.pieceManager == old(board.pieceManager)
    ensures board.Snap() == PromotionRedo(old(board.Snap()), m).pos && move == PromotionRedo(old(board.Snap()), m).move
  {
    var promoted := m.variant.promotedPiece.value;
    board.RemovePiece(m.variant.originalPiece);
    move := m.(piece := promoted);
    board.AddPiece(promoted);
    board.SetPiece(promoted, WithSquare(board.pieces[promoted], m.endSquare));
  }

  /** `move.redo()`: `execute` again, and for a castling move the rook's move once more. */
  method Redo(board: ChessBoard, m: Move) returns (move: Move)
    requires board.Valid() && MoveOk(board.Snap(), m) && Executed(m)
    modifies board, board.board
    ensures board.Valid() && board.board == old(board.board) && board.pieceManager == old(board.pieceManager)
    ensures board.Snap() == Moves.Redo(old(board.Snap()), m).pos && move == Moves.Redo(old(board.Snap()), m).move
  {
    match m.variant
    case Plain => move := ExecuteBase(board, m);
    case EnPassant(_) => move := ExecuteBase(board, m);
    case Castling(rook, _, rookEnd) =>
      move := ExecuteCastling(board, m);
      ShiftOn(board, rook, rookEnd);
    case Promotion(_, _, _) => move := RedoPromotion(board, m);
  }
}
