/**
 * PawnMovementStrategy.js: single and double steps, diagonal captures, en passant against the
 * last move of the history, and the four promotion moves for each square of the last rank the
 * pawn can reach. White moves up the array (towards row 0), black down.
 */
module PawnStrategy {
  import opened Wrappers
  import opened Squares
  import opened Players
  import opened Pieces
  import opened Positions
  import opened Moves
  import opened Sliding

  /** The `PieceType` keys the generator iterates over, in order. */
  const PromotionTokens: seq<string> := ["QUEEN", "ROOK", "BISHOP", "KNIGHT"]

  function Direction(p: Player): int {
    if p.IsWhite() then -1 else 1
  }

  function BackRank(p: Player): int {
    if p.IsWhite() then 0 else 7
  }

  function StartingRow(p: Player): int {
    if p.IsWhite() then 6 else 1
  }

  /** The row a pawn promotes from (`rowBeforePromotionRow`), also the opponent's double-step start. */
  function RowBeforePromotion(p: Player): int {
    if p.IsWhite() then 1 else 6
  }

  /** The row an opponent's double step ends on, where an en passant capture starts. */
  function EnPassantEndRow(p: Player): int {
    if p.IsWhite() then 3 else 4
  }

  /** The last move of the history, if any, names pieces and squares of this board. */
  predicate LastOk(pos: Position, last: Option<Move>) {
    last.Some? ==> MoveOk(pos, last.value)
  }

  /** A plain quiet move `steps` squares straight ahead onto an empty square. */
  predicate Forward(pos: Position, id: PieceId, m: Move, steps: int)
    requires Mover(pos, id)
  {
    var p := pos.pieces[id];
    m.variant.Plain? && m.capturedPiece.None? && m.endSquare.col == p.square.col &&
    m.endSquare.row == p.square.row + steps * Direction(p.player) &&
    0 <= m.endSquare.row < 8 && IsEmpty(pos, m.endSquare.row, m.endSquare.col)
  }

  /** A move one row ahead and `colOffset` columns aside, capturing the opponent piece standing there. */
  predicate Diagonal(pos: Position, id: PieceId, m: Move, colOffset: int)
    requires Mover(pos, id)
  {
    var p := pos.pieces[id];
    m.endSquare == Square(p.square.row + Direction(p.player), p.square.col + colOffset) &&
    OnBoard(m.endSquare.row, m.endSquare.col) &&
    IsOccupiedByOpponent(pos, m.endSquare.row, m.endSquare.col, p.player) &&
    m.capturedPiece == At(pos, m.endSquare.row, m.endSquare.col)
  }

  /** `handleNormalMove`: one step forward onto an empty square that is not the back rank. */
  function SingleStep(pos: Position, id: PieceId): (moves: seq<Move>)
    requires Mover(pos, id)
    ensures forall m :: m in moves ==> Generated(pos, id, m)
    ensures forall m :: m in moves ==> Forward(pos, id, m, 1) && m.endSquare.row != BackRank(pos.pieces[id].player)
  {
    var p := pos.pieces[id];
    var row, col, dir, back := p.square.row, p.square.col, Direction(p.player), BackRank(p.player);
    if (dir == -1 && row - 1 > back) || (dir == 1 && row + 1 < back) then
      if IsEmpty(pos, row + dir, col) then [NewMove(id, Square(row, col), Square(row + dir, col), None)]
      else []
    else []
  }

  /** The pawn stands on its starting row and the square ahead is empty. */
  predicate FromStartingRow(pos: Position, id: PieceId)
    requires Mover(pos, id)
  {
    var p := pos.pieces[id];
    p.square.row == StartingRow(p.player) && IsEmpty(pos, p.square.row + Direction(p.player), p.square.col)
  }

  /** `handleDoubleMove`: two steps forward from the starting row over two empty squares. */
  function DoubleStep(pos: Position, id: PieceId): (moves: seq<Move>)
    requires Mover(pos, id)
    ensures forall m :: m in moves ==> Generated(pos, id, m)
    ensures forall m :: m in moves ==> Forward(pos, id, m, 2) && FromStartingRow(pos, id)
  {
    var p := pos.pieces[id];
    var row, col, dir := p.square.row, p.square.col, Direction(p.player);
    if row == StartingRow(p.player) && IsEmpty(pos, row + dir, col) && IsEmpty(pos, row + 2 * dir, col)
    then [NewMove(id, Square(row, col), Square(row + 2 * dir, col), None)]
    else []
  }

  /** `handleCapture`: a diagonal capture onto rows 1..6, so never onto the last rank. */
  function Capture(pos: Position, id: PieceId, colOffset: int): (moves: seq<Move>)
    requires Mover(pos, id)
    ensures forall m :: m in moves ==> Generated(pos, id, m)
    ensures forall m :: m in moves ==> Diagonal(pos, id, m, colOffset) && m.variant.Plain? && 1 <= m.endSquare.row <= 6
  {
    var p := pos.pieces[id];
    var row, col := p.square.row, p.square.col;
    var newRow, newCol := row + Direction(p.player), col + colOffset;
    if 0 <= newCol <= 7 && 1 <= newRow <= 6 && IsOccupiedByOpponent(pos, newRow, newCol, p.player)
    then [NewMove(id, Square(row, col), Square(newRow, newCol), At(pos, newRow, newCol))]
    else []
  }

  /** `addNormalMoves`: single step, double step, left capture, right capture. */
  function NormalMoves(pos: Position, id: PieceId): (moves: seq<Move>)
    requires Mover(pos, id)
    ensures forall m :: m in moves ==> Generated(pos, id, m)
  {
    SingleStep(pos, id) + DoubleStep(pos, id) + Capture(pos, id, -1) + Capture(pos, id, 1)
  }

  /**
   * `addEnPassantMoves`: the last move was a pawn's double step (judged by its rows) ending on the
   * mover's row in a neighbouring column. The target is the square that pawn passed over; its
   * current square is recorded as the square to put it back on.
   */
  function EnPassantMoves(pos: Position, id: PieceId, last: Option<Move>): (moves: seq<Move>)
    requires Mover(pos, id) && LastOk(pos, last)
    ensures forall m :: m in moves ==> Generated(pos, id, m)
  {
    var p := pos.pieces[id];
    var row, col := p.square.row, p.square.col;
    match last
    case None => []
    case Some(l) =>
      if pos.pieces[l.piece].kind == Pawn &&
         l.startSquare.row == RowBeforePromotion(p.player) &&
         l.endSquare.row == EnPassantEndRow(p.player) &&
         row == EnPassantEndRow(p.player) &&
         (col - l.endSquare.col == 1 || l.endSquare.col - col == 1)
      then [NewEnPassantMove(id, Square(row, col), Square(row + Direction(p.player), l.endSquare.col),
                             pos.pieces[l.piece].square, l.piece)]
      else []
  }

  /** A promotion from the row before promotion to the last rank, with one of the four tokens. */
  predicate Promoting(pos: Position, id: PieceId, m: Move)
    requires Mover(pos, id)
  {
    var p := pos.pieces[id];
    m.variant.Promotion? && m.isPromotion && m.variant.promotionType in PromotionTokens &&
    p.square.row == RowBeforePromotion(p.player) && m.endSquare.row == BackRank(p.player)
  }

  /** A quiet move in the pawn's own column onto an empty square. */
  predicate StraightAhead(pos: Position, id: PieceId, m: Move)
    requires Mover(pos, id)
  {
    m.capturedPiece.None? && m.endSquare.col == pos.pieces[id].square.col &&
    0 <= m.endSquare.row < 8 && IsEmpty(pos, m.endSquare.row, m.endSquare.col)
  }

  /** The four promotion moves to one square, one per token, in token order. */
  function PromotionSet(pos: Position, id: PieceId, to: Square, captured: Option<PieceId>): (moves: seq<Move>)
    requires Mover(pos, id) && InBounds(to) && (captured.Some? ==> captured.value < |pos.pieces|)
    ensures |moves| == 4
    ensures forall k :: 0 <= k < 4 ==>
              moves[k] == NewPromotionMove(id, pos.pieces[id].square, to, captured, PromotionTokens[k])
    ensures forall m :: m in moves ==> Generated(pos, id, m)
  {
    seq(4, k requires 0 <= k < 4 =>
      NewPromotionMove(id, pos.pieces[id].square, to, captured, PromotionTokens[k]))
  }

  /** `handlePromotionCapture`: from the row before promotion, onto an opponent diagonally ahead. */
  function PromotionCapture(pos: Position, id: PieceId, colOffset: int): (moves: seq<Move>)
    requires Mover(pos, id)
    ensures forall m :: m in moves ==> Generated(pos, id, m)
    ensures forall m :: m in moves ==> Diagonal(pos, id, m, colOffset) && Promoting(pos, id, m)
  {
    var p := pos.pieces[id];
    var row, col := p.square.row, p.square.col;
    var newRow, newCol := row + Direction(p.player), col + colOffset;
    if row == RowBeforePromotion(p.player) && 0 <= newCol < 8 &&
       IsOccupiedByOpponent(pos, newRow, newCol, p.player)
    then PromotionSet(pos, id, Square(newRow, newCol), At(pos, newRow, newCol))
    else []
  }

  /** The straight promotion of `addPromotionMoves`: from the row before promotion onto an empty square. */
  function PromotionStraight(pos: Position, id: PieceId): (moves: seq<Move>)
    requires Mover(pos, id)
    ensures forall m :: m in moves ==> Generated(pos, id, m)
    ensures forall m :: m in moves ==> Promoting(pos, id, m) && StraightAhead(pos, id, m)
  {
    var p := pos.pieces[id];
    var row, col := p.square.row, p.square.col;
    if row == RowBeforePromotion(p.player) && IsEmpty(pos, row + Direction(p.player), col)
    then PromotionSet(pos, id, Square(row + Direction(p.player), col), None)
    else []
  }

  /** `addPromotionMoves`: right capture, left capture, then straight ahead. */
  function PromotionMoves(pos: Position, id: PieceId): (moves: seq<Move>)
    requires Mover(pos, id)
    ensures forall m :: m in moves ==> Generated(pos, id, m)
  {
    PromotionCapture(pos, id, 1) + PromotionCapture(pos, id, -1) + PromotionStraight(pos, id)
  }

  /** `calculateRawLegalMoves` of a pawn. */
  function PawnMoves(pos: Position, id: PieceId, last: Option<Move>): (moves: seq<Move>)
    requires Mover(pos, id) && LastOk(pos, last)
    ensures forall m :: m in moves ==> Generated(pos, id, m)
  {
    NormalMoves(pos, id) + EnPassantMoves(pos, id, last) + PromotionMoves(pos, id)
  }

  // ---------------------------------------------------------------- the generator

  /** `calculateRawLegalMoves`, pushing onto one array as the helpers of the source do. */
  method CalculateRawLegalMoves(pos: Position, id: PieceId, last: Option<Move>) returns (legalMoves: seq<Move>)
    requires Mover(pos, id) && LastOk(pos, last)
    ensures legalMoves == PawnMoves(pos, id, last)
  {
    legalMoves := AddNormalMoves(pos, id, []);
    assert legalMoves == NormalMoves(pos, id);
    legalMoves := AddEnPassantMoves(pos, id, last, legalMoves);
    legalMoves := AddPromotionMoves(pos, id, legalMoves);
  }

  /** `addNormalMoves`: single step, double step, then the left and right captures. */
  method AddNormalMoves(pos: Position, id: PieceId, legalMoves: seq<Move>) returns (result: seq<Move>)
    requires Mover(pos, id)
    ensures result == legalMoves + NormalMoves(pos, id)
  {
    var p := pos.pieces[id];
    var row, col := p.square.row, p.square.col;
    var direction, backRank, startingRow := Direction(p.player), BackRank(p.player), StartingRow(p.player);
    result := legalMoves;
    if (direction == -1 && row - 1 > backRank) || (direction == 1 && row + 1 < backRank) {
      if IsEmpty(pos, row + direction, col) {
        result := result + [NewMove(id, Square(row, col), Square(row + direction, col), None)];
      }
    }
    assert result == legalMoves + SingleStep(pos, id);
    if row == startingRow && IsEmpty(pos, row + direction, col) && IsEmpty(pos, row + 2 * direction, col) {
      result := result + [NewMove(id, Square(row, col), Square(row + 2 * direction, col), None)];
    }
    assert result == legalMoves + SingleStep(pos, id) + DoubleStep(pos, id);
    result := HandleCapture(pos, id, -1, result);
    result := HandleCapture(pos, id, 1, result);
  }

  /** `handleCapture`. */
  method HandleCapture(pos: Position, id: PieceId, colOffset: int, legalMoves: seq<Move>) returns (result: seq<Move>)
    requires Mover(pos, id)
    ensures result == legalMoves + Capture(pos, id, colOffset)
  {
    var p := pos.pieces[id];
    var row, col := p.square.row, p.square.col;
    var newRow, newCol := row + Direction(p.player), col + colOffset;
    result := legalMoves;
    if 0 <= newCol <= 7 && 1 <= newRow <= 6 && IsOccupiedByOpponent(pos, newRow, newCol, p.player) {
      result := result + [NewMove(id, Square(row, col), Square(newRow, newCol), At(pos, newRow, newCol))];
    }
  }

  /** `addEnPassantMoves`. */
  method AddEnPassantMoves(pos: Position, id: PieceId, last: Option<Move>, legalMoves: seq<Move>) returns (result: seq<Move>)
    requires Mover(pos, id) && LastOk(pos, last)
    ensures result == legalMoves + EnPassantMoves(pos, id, last)
  {
    var p := pos.pieces[id];
    var row, col := p.square.row, p.square.col;
    result := legalMoves;
    if last.Some? {
      var lastMove := last.value;
      if pos.pieces[lastMove.piece].kind == Pawn &&
         lastMove.startSquare.row == RowBeforePromotion(p.player) &&
         lastMove.endSquare.row == EnPassantEndRow(p.player) &&
         row == EnPassantEndRow(p.player) &&
         (col - lastMove.endSquare.col == 1 || lastMove.endSquare.col - col == 1) {
        var targetSquare := Square(row + Direction(p.player), lastMove.endSquare.col);
        result := result + [NewEnPassantMove(id, Square(row, col), targetSquare,
                                             pos.pieces[lastMove.piece].square, lastMove.piece)];
      }
    }
  }

  /** `addPromotionMoves`: captures to the right and to the left, then straight ahead. */
  method AddPromotionMoves(pos: Position, id: PieceId, legalMoves: seq<Move>) returns (result: seq<Move>)
    requires Mover(pos, id)
    ensures result == legalMoves + PromotionMoves(pos, id)
  {
    var p := pos.pieces[id];
    var row, col, direction := p.square.row, p.square.col, Direction(p.player);
    result := HandlePromotionCapture(pos, id, 1, legalMoves);
    result := HandlePromotionCapture(pos, id, -1, result);
    if row == RowBeforePromotion(p.player) && IsEmpty(pos, row + direction, col) {
      result := PushPromotions(result, pos, id, Square(row + direction, col), None);
    }
  }

  /** `handlePromotionCapture`. */
  method HandlePromotionCapture(pos: Position, id: PieceId, colOffset: int, legalMoves: seq<Move>)
    returns (result: seq<Move>)
    requires Mover(pos, id)
    ensures result == legalMoves + PromotionCapture(pos, id, colOffset)
  {
    var p := pos.pieces[id];
    var row, col := p.square.row, p.square.col;
    var newRow, newCol := row + Direction(p.player), col + colOffset;
    result := legalMoves;
    if row == RowBeforePromotion(p.player) && 0 <= newCol < 8 && IsOccupiedByOpponent(pos, newRow, newCol, p.player) {
      result := PushPromotions(result, pos, id, Square(newRow, newCol), At(pos, newRow, newCol));
    }
  }

  /** The `forEach` over the promotion tokens: one promotion move per token, pushed in order. */
  method PushPromotions(legalMoves: seq<Move>, pos: Position, id: PieceId, to: Square, captured: Option<PieceId>)
    returns (result: seq<Move>)
    requires Mover(pos, id) && InBounds(to) && (captured.Some? ==> captured.value < |pos.pieces|)
    ensures result == legalMoves + PromotionSet(pos, id, to, captured)
  {
    var tokens := PromotionTokens;
    result := legalMoves;
    for k := 0 to |tokens|
      invariant result == legalMoves + PromotionSet(pos, id, to, captured)[..k]
    {
      var promotionMove := NewPromotionMove(id, pos.pieces[id].square, to, captured, tokens[k]);
      assert PromotionSet(pos, id, to, captured)[..k + 1] == PromotionSet(pos, id, to, captured)[..k] + [promotionMove];
      result := result + [promotionMove];
    }
    assert PromotionSet(pos, id, to, captured)[..4] == PromotionSet(pos, id, to, captured);
  }

  // ---------------------------------------------------------------- what the generator promises

  /** A pawn move comes from exactly one of the helpers. */
  lemma PawnMovesParts(pos: Position, id: PieceId, last: Option<Move>, m: Move)
    requires Mover(pos, id) && LastOk(pos, last)
    ensures m in PawnMoves(pos, id, last) <==>
      m in SingleStep(pos, id) || m in DoubleStep(pos, id) || m in Capture(pos, id, -1) ||
      m in Capture(pos, id, 1) || m in EnPassantMoves(pos, id, last) ||
      m in PromotionCapture(pos, id, 1) || m in PromotionCapture(pos, id, -1) || m in PromotionStraight(pos, id)
  {
  }

  /**
   * A plain pawn move in its own column is a quiet step onto empty squares: one square that is
   * not the back rank, or two from the starting row.
   */
  lemma PawnStepsForward(pos: Position, id: PieceId, last: Option<Move>, m: Move)
    requires Mover(pos, id) && LastOk(pos, last) && m in PawnMoves(pos, id, last)
    requires m.variant.Plain? && m.endSquare.col == pos.pieces[id].square.col
    ensures var p := pos.pieces[id]; var dir := Direction(p.player);
      m.capturedPiece.None? && IsEmpty(pos, m.endSquare.row, m.endSquare.col) &&
      ((m.endSquare.row == p.square.row + dir && m.endSquare.row != BackRank(p.player)) ||
       (p.square.row == StartingRow(p.player) && m.endSquare.row == p.square.row + 2 * dir &&
        IsEmpty(pos, p.square.row + dir, p.square.col)))
  {
    PawnMovesParts(pos, id, last, m);
  }

  /** A plain pawn move to another column is a diagonal capture of an opponent on rows 1..6. */
  lemma PawnCapturesDiagonally(pos: Position, id: PieceId, last: Option<Move>, m: Move)
    requires Mover(pos, id) && LastOk(pos, last) && m in PawnMoves(pos, id, last)
    requires m.variant.Plain? && m.endSquare.col != pos.pieces[id].square.col
    ensures var p := pos.pieces[id];
      m.endSquare.row == p.square.row + Direction(p.player) && 1 <= m.endSquare.row <= 6 &&
      (m.endSquare.col == p.square.col - 1 || m.endSquare.col == p.square.col + 1) &&
      IsOccupiedByOpponent(pos, m.endSquare.row, m.endSquare.col, p.player) &&
      m.capturedPiece == At(pos, m.endSquare.row, m.endSquare.col)
  {
    PawnMovesParts(pos, id, last, m);
  }

  /** An en passant move answers a double step of a pawn that ended beside the mover. */
  lemma PawnEnPassantAnswersDoubleStep(pos: Position, id: PieceId, last: Option<Move>, m: Move)
    requires Mover(pos, id) && LastOk(pos, last) && m in PawnMoves(pos, id, last)
    requires m.variant.EnPassant?
    ensures var p := pos.pieces[id];
      last.Some? && pos.pieces[last.value.piece].kind == Pawn &&
      last.value.startSquare.row == RowBeforePromotion(p.player) &&
      last.value.endSquare.row == EnPassantEndRow(p.player) &&
      p.square.row == EnPassantEndRow(p.player) &&
      m.capturedPiece == Some(last.value.piece) &&
      m.endSquare == Square(p.square.row + Direction(p.player), last.value.endSquare.col) &&
      m.variant.originalSquareBeforeCapture == pos.pieces[last.value.piece].square
  {
    PawnMovesParts(pos, id, last, m);
  }

  /**
   * A promotion move starts on the row before promotion and ends on the last rank, straight onto
   * an empty square or diagonally onto an opponent; the other three tokens are offered for the
   * same square too.
   */
  lemma PawnPromotes(pos: Position, id: PieceId, last: Option<Move>, m: Move)
    requires Mover(pos, id) && LastOk(pos, last) && m in PawnMoves(pos, id, last)
    requires m.variant.Promotion?
    ensures var p := pos.pieces[id];
      m.isPromotion && p.square.row == RowBeforePromotion(p.player) &&
      m.endSquare.row == BackRank(p.player) &&
      m.variant.promotionType in PromotionTokens &&
      (m.capturedPiece.None? ==> m.endSquare.col == p.square.col && IsEmpty(pos, m.endSquare.row, m.endSquare.col)) &&
      (m.capturedPiece.Some? ==>
         IsOccupiedByOpponent(pos, m.endSquare.row, m.endSquare.col, p.player) &&
         m.capturedPiece == At(pos, m.endSquare.row, m.endSquare.col))
    ensures forall t :: t in PromotionTokens ==>
      SetPromotionType(m, t) in PawnMoves(pos, id, last)
  {
    var s := if m in PromotionCapture(pos, id, 1) then PromotionCapture(pos, id, 1)
             else if m in PromotionCapture(pos, id, -1) then PromotionCapture(pos, id, -1)
             else PromotionStraight(pos, id);
    assert m in s;
    var k :| 0 <= k < 4 && s[k] == m;
    forall t | t in PromotionTokens ensures SetPromotionType(m, t) in PawnMoves(pos, id, last) {
      var j :| 0 <= j < 4 && PromotionTokens[j] == t;
      assert SetPromotionType(m, t) == s[j];
      assert s[j] in PawnMoves(pos, id, last);
    }
  }

  /** The single step is offered whenever its square is empty and is not the back rank. */
  lemma PawnSingleStepOffered(pos: Position, id: PieceId, last: Option<Move>)
    requires Mover(pos, id) && LastOk(pos, last)
    requires var p := pos.pieces[id]; var r := p.square.row + Direction(p.player);
      r != BackRank(p.player) && 0 <= r < 8 && IsEmpty(pos, r, p.square.col)
    ensures var p := pos.pieces[id];
      NewMove(id, p.square, Square(p.square.row + Direction(p.player), p.square.col), None)
        in PawnMoves(pos, id, last)
  {
    var p := pos.pieces[id];
    assert SingleStep(pos, id) == [NewMove(id, p.square, Square(p.square.row + Direction(p.player), p.square.col), None)];
  }
}
