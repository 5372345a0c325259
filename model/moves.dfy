/**
 * The four kinds of move (Move.js, CastlingMove.js, EnPassantMove.js, PromotionMove.js) as one
 * datatype, and what `execute`, `undo` and `redo` do to a board, as functions on Positions.
 *
 * A move object is shared between the generator, the history and the handler, and `execute`
 * writes to it (`isCapture`, and for a promotion `piece` and `promotedPiece`). The functions here
 * return the updated move next to the new board; the history stores that updated value.
 */
module Moves {
  import opened Wrappers
  import opened Squares
  import opened Players
  import opened Pieces
  import opened Positions

  datatype Variant =
    | Plain
    | Castling(rook: PieceId, rookStartSquare: Square, rookEndSquare: Square)
    | EnPassant(originalSquareBeforeCapture: Square)
    | Promotion(promotionType: string, originalPiece: PieceId, promotedPiece: Option<PieceId>)

  datatype Move = Move(
    piece: PieceId,
    startSquare: Square,
    endSquare: Square,
    capturedPiece: Option<PieceId>,
    isPromotion: bool,
    isCapture: bool,
    variant: Variant)

  /** The result of `execute` or `redo`; `ok` is false when `promotePiece` threw part-way. */
  datatype Outcome = Outcome(pos: Position, move: Move, ok: bool)

  /** `new Move(piece, from, to, capturedPiece)`. */
  function NewMove(piece: PieceId, from: Square, to: Square, captured: Option<PieceId>): (m: Move)
    ensures m.variant.Plain? && !m.isPromotion && !m.isCapture
    ensures m.piece == piece && m.startSquare == from && m.endSquare == to && m.capturedPiece == captured
  {
    Move(piece, from, to, captured, false, false, Plain)
  }

  /** `new CastlingMove(king, rook, kingFrom, kingTo, rookFrom, rookTo)`: never a capture. */
  function NewCastlingMove(king: PieceId, rook: PieceId, kingFrom: Square, kingTo: Square,
                           rookFrom: Square, rookTo: Square): (m: Move)
    ensures m.variant == Castling(rook, rookFrom, rookTo) && m.capturedPiece == None
    ensures m.piece == king && m.startSquare == kingFrom && m.endSquare == kingTo
    ensures !m.isPromotion && !m.isCapture
  {
    Move(king, kingFrom, kingTo, None, false, false, Castling(rook, rookFrom, rookTo))
  }

  /** `new EnPassantMove(piece, from, to, originalSquareBeforeCapture, capturedPiece)`. */
  function NewEnPassantMove(piece: PieceId, from: Square, to: Square, original: Square,
                            captured: PieceId): (m: Move)
    ensures m.variant == EnPassant(original) && m.capturedPiece == Some(captured)
    ensures m.piece == piece && m.startSquare == from && m.endSquare == to
    ensures !m.isPromotion && !m.isCapture
  {
    Move(piece, from, to, Some(captured), false, false, EnPassant(original))
  }

  /**
   * `new PromotionMove(pawn, from, to, capturedPiece, promotionType)` followed by
   * `setPromotion(true)`, as the pawn generator builds it.
   */
  function NewPromotionMove(pawn: PieceId, from: Square, to: Square, captured: Option<PieceId>,
                            token: string): (m: Move)
    ensures m.variant == Promotion(token, pawn, None) && m.isPromotion && !m.isCapture
    ensures m.piece == pawn && m.startSquare == from && m.endSquare == to && m.capturedPiece == captured
  {
    Move(pawn, from, to, captured, true, false, Promotion(token, pawn, None))
  }

  /** `setPromotionType`, the human player's choice; only the token changes. */
  function SetPromotionType(m: Move, token: string): (m': Move)
    requires m.variant.Promotion?
    ensures m'.variant.Promotion? && m'.variant.promotionType == token
    ensures m' == m.(variant := m.variant.(promotionType := token))
  {
    m.(variant := m.variant.(promotionType := token))
  }

  /** Every piece and square the move names exists on this board. */
  predicate MoveOk(pos: Position, m: Move) {
    Valid(pos) &&
    m.piece < |pos.pieces| && InBounds(m.startSquare) && InBounds(m.endSquare) &&
    (m.capturedPiece.Some? ==> m.capturedPiece.value < |pos.pieces|) &&
    match m.variant
    case Plain => true
    case Castling(rook, rs, re) => rook < |pos.pieces| && InBounds(rs) && InBounds(re)
    case EnPassant(o) => InBounds(o)
    case Promotion(_, orig, promoted) =>
      orig < |pos.pieces| && (promoted.Some? ==> promoted.value < |pos.pieces|)
  }

  lemma MoveOkGrows(pos: Position, q: Position, m: Move)
    requires MoveOk(pos, m) && Valid(q) && |pos.pieces| <= |q.pieces|
    ensures MoveOk(q, m)
  {
  }

  // ---------------------------------------------------------------- piece setters on a board

  /** `setCurrentSquare` on the piece in slot `id`. */
  function Relocate(pos: Position, id: PieceId, s: Square): (q: Position)
    requires Valid(pos) && id < |pos.pieces| && InBounds(s)
    ensures Valid(q) && q.cells == pos.cells
    ensures q.pieces == pos.pieces[id := WithSquare(pos.pieces[id], s)]
  {
    UpdatePiece(pos, id, WithSquare(pos.pieces[id], s))
  }

  /** `kill` (b = false) or `revive` (b = true). */
  function SetAlive(pos: Position, id: PieceId, b: bool): (q: Position)
    requires Valid(pos) && id < |pos.pieces|
    ensures Valid(q) && q.cells == pos.cells
    ensures q.pieces == pos.pieces[id := WithAlive(pos.pieces[id], b)]
  {
    UpdatePiece(pos, id, WithAlive(pos.pieces[id], b))
  }

  /** `if (typeof piece.setHasMoved === "function") piece.setHasMoved(b)`. */
  function MarkMoved(pos: Position, id: PieceId, b: bool): (q: Position)
    requires Valid(pos) && id < |pos.pieces|
    ensures Valid(q) && q.cells == pos.cells
    ensures q.pieces == if pos.pieces[id].HasMoveStatus()
                        then pos.pieces[id := WithHasMoved(pos.pieces[id], b)] else pos.pieces
  {
    if pos.pieces[id].HasMoveStatus() then UpdatePiece(pos, id, WithHasMoved(pos.pieces[id], b))
    else pos
  }

  /** `board.removePiece(p); p.setCurrentSquare(s); board.addPiece(p)`. */
  function Shift(pos: Position, id: PieceId, s: Square): (q: Position)
    requires Valid(pos) && id < |pos.pieces| && InBounds(s)
    ensures Valid(q) && q.pieces == pos.pieces[id := WithSquare(pos.pieces[id], s)]
    ensures At(q, s.row, s.col) == Some(id)
    ensures s != pos.pieces[id].square ==>
              At(q, pos.pieces[id].square.row, pos.pieces[id].square.col) == None
    ensures forall i, j :: OnBoard(i, j) && Square(i, j) != s && Square(i, j) != pos.pieces[id].square
              ==> At(q, i, j) == At(pos, i, j)
  {
    AddPiece(Relocate(RemovePiece(pos, id), id, s), id)
  }

  /** `capturedPiece.kill(); board.removePiece(capturedPiece)`, when there is one. */
  function TakeCaptured(pos: Position, m: Move): (q: Position)
    requires MoveOk(pos, m)
    ensures Valid(q) && |q.pieces| == |pos.pieces|
    ensures m.capturedPiece.None? ==> q == pos
    ensures m.capturedPiece.Some? ==>
              q == RemovePiece(SetAlive(pos, m.capturedPiece.value, false), m.capturedPiece.value)
  {
    match m.capturedPiece
    case None => pos
    case Some(c) => RemovePiece(SetAlive(pos, c, false), c)
  }

  // ---------------------------------------------------------------- execute

  /** `Move.execute`, which `EnPassantMove` inherits. */
  function BaseExecute(pos: Position, m: Move): (o: Outcome)
    requires MoveOk(pos, m)
    ensures Valid(o.pos) && |o.pos.pieces| == |pos.pieces| && o.ok && MoveOk(o.pos, o.move)
    ensures o.move == m.(isCapture := m.isCapture || m.capturedPiece.Some?)
  {
    var p1 := TakeCaptured(pos, m);
    var p2 := MarkMoved(Shift(p1, m.piece, m.endSquare), m.piece, true);
    Outcome(p2, if m.capturedPiece.Some? then m.(isCapture := true) else m, true)
  }

  /** `CastlingMove.execute`: the king's move, then the rook to its end square, flagged moved. */
  function CastlingExecute(pos: Position, m: Move): (o: Outcome)
    requires MoveOk(pos, m) && m.variant.Castling?
    ensures Valid(o.pos) && |o.pos.pieces| == |pos.pieces| && o.ok
    ensures o.move == m.(isCapture := m.isCapture || m.capturedPiece.Some?)
  {
    var b := BaseExecute(pos, m);
    var rook := m.variant.rook;
    Outcome(MarkMoved(Shift(b.pos, rook, m.variant.rookEndSquare), rook, true), b.move, true)
  }

  /**
   * `PromotionMove.execute`. The captured piece is killed and lifted, then the promoted piece is
   * built; an unknown token throws at that point and leaves the capture done. Otherwise the new
   * piece takes the next arena slot, the pawn is lifted (it stays alive, on its old square) and
   * the move's `piece` becomes the new piece. `isCapture` is not set.
   */
  function PromotionExecute(pos: Position, m: Move): (o: Outcome)
    requires MoveOk(pos, m) && m.variant.Promotion?
    ensures Valid(o.pos) && MoveOk(o.pos, o.move)
    ensures o.ok <==> m.variant.promotionType in {"QUEEN", "ROOK", "BISHOP", "KNIGHT"}
    ensures !o.ok ==> o.move == m && o.pos == TakeCaptured(pos, m)
    ensures o.ok ==> |o.pos.pieces| == |pos.pieces| + 1 && o.move.piece == |pos.pieces| &&
                     o.move == m.(piece := |pos.pieces|,
                                  variant := m.variant.(promotedPiece := Some(|pos.pieces|)))
  {
    var p1 := TakeCaptured(pos, m);
    var orig := m.variant.originalPiece;
    match PromotePiece(m.variant.promotionType, pos.pieces[orig].player, m.endSquare)
    case Err(_) => Outcome(p1, m, false)
    case Ok(np) =>
      var n := |p1.pieces|;
      var p2 := NewPiece(p1, np);
      var p3 := AddPiece(RemovePiece(p2, orig), n);
      Outcome(p3, m.(piece := n, variant := m.variant.(promotedPiece := Some(n))), true)
  }

  /** `move.execute()`, dispatched on the kind of move. */
  function Execute(pos: Position, m: Move): (o: Outcome)
    requires MoveOk(pos, m)
    ensures Valid(o.pos) && MoveOk(o.pos, o.move) && |pos.pieces| <= |o.pos.pieces|
    ensures !m.variant.Promotion? ==> o.ok && |o.pos.pieces| == |pos.pieces|
    ensures o.ok ==> o.move.startSquare == m.startSquare && o.move.endSquare == m.endSquare &&
                     o.move.capturedPiece == m.capturedPiece && o.move.isPromotion == m.isPromotion
  {
    match m.variant
    case Plain => BaseExecute(pos, m)
    case EnPassant(_) => BaseExecute(pos, m)
    case Castling(_, _, _) => CastlingExecute(pos, m)
    case Promotion(_, _, _) => PromotionExecute(pos, m)
  }

  // ---------------------------------------------------------------- undo

  /** `Move.undo`: the mover back to its start square; the captured piece revived on the end square. */
  function BaseUndo(pos: Position, m: Move): (q: Position)
    requires MoveOk(pos, m)
    ensures Valid(q) && |q.pieces| == |pos.pieces|
  {
    var p1 := Shift(pos, m.piece, m.startSquare);
    match m.capturedPiece
    case None => p1
    case Some(c) => AddPiece(Relocate(SetAlive(p1, c, true), c, m.endSquare), c)
  }

  /** `CastlingMove.undo`: the base undo, then the rook back to its start square, flagged unmoved. */
  function CastlingUndo(pos: Position, m: Move): (q: Position)
    requires MoveOk(pos, m) && m.variant.Castling?
    ensures Valid(q) && |q.pieces| == |pos.pieces|
  {
    var rook := m.variant.rook;
    MarkMoved(Shift(BaseUndo(pos, m), rook, m.variant.rookStartSquare), rook, false)
  }

  /**
   * `EnPassantMove.undo`: a captured piece that is an instance of Pawn is revived and put back on
   * the square it stood on; then the mover returns to its start square.
   */
  function EnPassantUndo(pos: Position, m: Move): (q: Position)
    requires MoveOk(pos, m) && m.variant.EnPassant?
    ensures Valid(q) && |q.pieces| == |pos.pieces|
  {
    var p1 := match m.capturedPiece
      case Some(c) =>
        if pos.pieces[c].IsInstance(Pawn)
        then Shift(SetAlive(pos, c, true), c, m.variant.originalSquareBeforeCapture)
        else pos
      case None => pos;
    Shift(p1, m.piece, m.startSquare)
  }

  /**
   * `PromotionMove.undo`: the promoted piece is lifted (it stays in the arena), the pawn is put on
   * the start square, and the captured piece is revived on the end square.
   */
  function PromotionUndo(pos: Position, m: Move): (q: Position)
    requires MoveOk(pos, m) && m.variant.Promotion? && m.variant.promotedPiece.Some?
    ensures Valid(q) && |q.pieces| == |pos.pieces|
  {
    var p1 := RemovePiece(pos, m.variant.promotedPiece.value);
    var p2 := AddPiece(Relocate(p1, m.variant.originalPiece, m.startSquare), m.variant.originalPiece);
    match m.capturedPiece
    case None => p2
    case Some(c) => Shift(SetAlive(p2, c, true), c, m.endSquare)
  }

  /** A move that `execute` has completed: a promotion knows its promoted piece. */
  predicate Executed(m: Move) {
    m.variant.Promotion? ==> m.variant.promotedPiece.Some?
  }

  /** `move.undo()`, dispatched on the kind of move. */
  function Undo(pos: Position, m: Move): (q: Position)
    requires MoveOk(pos, m) && Executed(m)
    ensures Valid(q) && |q.pieces| == |pos.pieces|
  {
    match m.variant
    case Plain => BaseUndo(pos, m)
    case EnPassant(_) => EnPassantUndo(pos, m)
    case Castling(_, _, _) => CastlingUndo(pos, m)
    case Promotion(_, _, _) => PromotionUndo(pos, m)
  }

  // ---------------------------------------------------------------- redo

  /**
   * `PromotionMove.redo`: the pawn is lifted and the promoted piece put back on the end square.
   * The captured piece is neither killed nor lifted.
   */
  function PromotionRedo(pos: Position, m: Move): (o: Outcome)
    requires MoveOk(pos, m) && m.variant.Promotion? && m.variant.promotedPiece.Some?
    ensures Valid(o.pos) && |o.pos.pieces| == |pos.pieces| && o.ok
    ensures o.move == m.(piece := m.variant.promotedPiece.value)
  {
    var q := m.variant.promotedPiece.value;
    var p1 := AddPiece(RemovePiece(pos, m.variant.originalPiece), q);
    Outcome(Relocate(p1, q, m.endSquare), m.(piece := q), true)
  }

  /**
   * `move.redo()`. `Move.redo` calls `this.execute()`, which for a castling move is
   * `CastlingMove.execute`; `CastlingMove.redo` then moves the rook to its end square once more.
   */
  function Redo(pos: Position, m: Move): (o: Outcome)
    requires MoveOk(pos, m) && Executed(m)
    ensures Valid(o.pos) && |o.pos.pieces| == |pos.pieces| && o.ok && MoveOk(o.pos, o.move)
  {
    match m.variant
    case Plain => BaseExecute(pos, m)
    case EnPassant(_) => BaseExecute(pos, m)
    case Castling(rook, _, re) =>
      var e := CastlingExecute(pos, m);
      Outcome(Shift(e.pos, rook, re), e.move, true)
    case Promotion(_, _, _) => PromotionRedo(pos, m)
  }

  // ---------------------------------------------------------------- copy

  /**
   * `Move.copy`: always a base `Move` with the same squares and flags, whatever class the original
   * has. The copied piece and board are the copied board's arena slots, which keep their numbers.
   */
  function CopyMove(m: Move): (c: Move)
    ensures c.variant.Plain? && c.piece == m.piece && c.capturedPiece == m.capturedPiece
    ensures c.startSquare == m.startSquare && c.endSquare == m.endSquare
    ensures c.isPromotion == m.isPromotion && c.isCapture == m.isCapture
  {
    Move(m.piece, m.startSquare, m.endSquare, m.capturedPiece, m.isPromotion, m.isCapture, Plain)
  }

  /**
   * A copied move executes as a plain move: the copy of a castling move moves only the king, and
   * the copy of an unexecuted promotion moves the pawn without promoting it.
   */
  lemma CopyExecutesPlainly(pos: Position, m: Move)
    requires MoveOk(pos, m)
    ensures MoveOk(pos, CopyMove(m))
    ensures Execute(pos, CopyMove(m)).pos == BaseExecute(pos, m).pos
    ensures Execute(pos, CopyMove(m)).ok
  {
  }
}
