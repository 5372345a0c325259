/** BishopMovementStrategy.js: the raw moves, cast along the four diagonals. */
module BishopStrategy {
  import opened Wrappers
  import opened Squares
  import opened Pieces
  import opened Positions
  import opened Moves
  import opened Sliding

  /** `calculateRawLegalMoves`: the rays of the four diagonals, in order. */
  method CalculateRawLegalMoves(pos: Position, id: PieceId) returns (legalMoves: seq<Move>)
    requires Mover(pos, id)
    ensures legalMoves == BishopMoves(pos, id)
  {
    DirectionsValid();
    var directions := BishopDirections;
    legalMoves := [];
    for i := 0 to |directions|
      invariant legalMoves == Rays(pos, id, directions[..i])
    {
      RaysSnoc(pos, id, directions, i);
      var ray := CastRay(pos, id, directions[i].0, directions[i].1);
      legalMoves := legalMoves + ray;
    }
    assert directions[..|directions|] == directions;
  }

  /**
   * One direction of `calculateRawLegalMoves`. The loop steps first and tests after: it leaves at
   * the edge, after a capture, or at one of the bishop's own pieces.
   */
  method CastRay(pos: Position, id: PieceId, dr: int, dc: int) returns (legalMoves: seq<Move>)
    requires Mover(pos, id) && Dir(dr, dc)
    ensures legalMoves == RayOf(pos, id, (dr, dc))
  {
    var row := pos.pieces[id].square.row;
    var col := pos.pieces[id].square.col;
    legalMoves := [];
    var newRow, newCol := row, col;
    while OnBoard(newRow, newCol)
      invariant OnBoard(newRow, newCol)
      invariant legalMoves + Ray(pos, id, newRow + dr, newCol + dc, dr, dc) == RayOf(pos, id, (dr, dc))
      decreases Remaining(newRow, dr) + Remaining(newCol, dc)
    {
      newRow := newRow + dr;
      newCol := newCol + dc;
      if !OnBoard(newRow, newCol) {
        assert Ray(pos, id, newRow, newCol, dr, dc) == [];
        break;
      }
      if IsEmpty(pos, newRow, newCol) {
        RayPush(pos, id, legalMoves, newRow, newCol, dr, dc);
        legalMoves := legalMoves + [MoveTo(pos, id, newRow, newCol)];
      } else {
        RayStop(pos, id, newRow, newCol, dr, dc);
        if IsOccupiedByOpponent(pos, newRow, newCol, pos.pieces[id].player) {
          legalMoves := legalMoves + [MoveTo(pos, id, newRow, newCol)];
        }
        break;
      }
    }
  }
}
