/** QueenMovementStrategy.js: the raw moves, cast along the four orthogonals and four diagonals. */
module QueenStrategy {
  import opened Wrappers
  import opened Squares
  import opened Pieces
  import opened Positions
  import opened Moves
  import opened Sliding

  /** `calculateRawLegalMoves`: the rays of the eight directions, in order. */
  method CalculateRawLegalMoves(pos: Position, id: PieceId) returns (rawLegalMoves: seq<Move>)
    requires Mover(pos, id)
    ensures rawLegalMoves == QueenMoves(pos, id)
  {
    DirectionsValid();
    var directions := QueenDirections;
    rawLegalMoves := [];
    for i := 0 to |directions|
      invariant rawLegalMoves == Rays(pos, id, directions[..i])
    {
      RaysSnoc(pos, id, directions, i);
      var ray := CastRay(pos, id, directions[i].0, directions[i].1);
      rawLegalMoves := rawLegalMoves + ray;
    }
    assert directions[..|directions|] == directions;
  }

  /**
   * One direction of `calculateRawLegalMoves`. The loop tests first and steps after: it leaves at
   * the edge, or at the first occupied square after pushing a capture of an opponent there.
   */
  method CastRay(pos: Position, id: PieceId, dr: int, dc: int) returns (rawLegalMoves: seq<Move>)
    requires Mover(pos, id) && Dir(dr, dc)
    ensures rawLegalMoves == RayOf(pos, id, (dr, dc))
  {
    var row := pos.pieces[id].square.row;
    var col := pos.pieces[id].square.col;
    rawLegalMoves := [];
    var currentRow, currentCol := row + dr, col + dc;
    while OnBoard(currentRow, currentCol)
      invariant rawLegalMoves + Ray(pos, id, currentRow, currentCol, dr, dc) == RayOf(pos, id, (dr, dc))
      decreases Remaining(currentRow, dr) + Remaining(currentCol, dc)
    {
      if IsOccupied(pos, currentRow, currentCol) {
        if IsOccupiedByOpponent(pos, currentRow, currentCol, pos.pieces[id].player) {
          rawLegalMoves := rawLegalMoves + [MoveTo(pos, id, currentRow, currentCol)];
        }
        break;
      }
      RayPush(pos, id, rawLegalMoves, currentRow, currentCol, dr, dc);
      rawLegalMoves := rawLegalMoves + [MoveTo(pos, id, currentRow, currentCol)];
      currentRow := currentRow + dr;
      currentCol := currentCol + dc;
    }
  }
}
