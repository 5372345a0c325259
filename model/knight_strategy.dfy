/** KnightMovementStrategy.js: the raw moves, one per reachable offset. */
module KnightStrategy {
  import opened Wrappers
  import opened Squares
  import opened Pieces
  import opened Positions
  import opened Moves
  import opened Sliding
  import opened Leaping

  /** `calculateRawLegalMoves`: each offset in turn; an own piece on the target skips it. */
  method CalculateRawLegalMoves(pos: Position, id: PieceId) returns (rawLegalMoves: seq<Move>)
    requires Mover(pos, id)
    ensures rawLegalMoves == KnightMoves(pos, id)
  {
    var row := pos.pieces[id].square.row;
    var col := pos.pieces[id].square.col;
    var knightMoves := KnightOffsets;
    rawLegalMoves := [];
    for i := 0 to |knightMoves|
      invariant rawLegalMoves == Leaps(pos, id, knightMoves[..i])
    {
      LeapsSnoc(pos, id, knightMoves, i);
      var targetRow, targetCol := row + knightMoves[i].0, col + knightMoves[i].1;
      assert Target(pos, id, knightMoves[i]) == Square(targetRow, targetCol);
      if OnBoard(targetRow, targetCol) {
        if IsOccupied(pos, targetRow, targetCol) {
          if IsOccupiedByOpponent(pos, targetRow, targetCol, pos.pieces[id].player) {
            rawLegalMoves := rawLegalMoves + [MoveTo(pos, id, targetRow, targetCol)];
          }
        } else {
          rawLegalMoves := rawLegalMoves + [MoveTo(pos, id, targetRow, targetCol)];
        }
      }
    }
    assert knightMoves[..|knightMoves|] == knightMoves;
  }
}
