/**
 * KingMovementStrategy.js: one step in each of eight directions, filtered against self-check,
 * followed by the castling moves, which are appended after the filter.
 */
module KingStrategy {
  import opened Wrappers
  import opened Squares
  import opened Players
  import opened Pieces
  import opened Positions
  import opened Moves
  import opened PieceRegistry
  import opened Sliding
  import opened Leaping
  import opened PawnStrategy
  import opened Attacks
  import BaseStrategy

  /**
   * `addKingSideCastlingMove` (step = 1, rook on column 7 going to column 5) and
   * `addQueenSideCastlingMove` (step = -1, rook on column 0 going to column 3): the castling move
   * when the cell at the rook's column of the king's row holds an unmoved Rook, the two cells
   * next to the king on that side are empty, and neither is attacked by the opponent.
   */
  function SideCastling(pos: Position, reg: Registry, id: PieceId, rookCol: int, step: int, rookEndCol: int)
    : (moves: seq<Move>)
    requires Registered(pos, reg) && id < |pos.pieces| && OnBoard(0, rookCol) && OnBoard(0, rookEndCol)
    ensures |moves| <= 1
    ensures forall m :: m in moves ==> m.variant.Castling? && !m.isPromotion && MoveOk(pos, m)
  {
    var king := pos.pieces[id];
    var kr, kc := king.square.row, king.square.col;
    match At(pos, kr, rookCol)
    case None => []
    case Some(rook) =>
      if pos.pieces[rook].IsInstance(Rook) && pos.pieces[rook].NotMoved() &&
         IsEmpty(pos, kr, kc + step) && IsEmpty(pos, kr, kc + 2 * step) &&
         !SquareAttackedByOpponent(pos, reg, kr, kc + step, king.player) &&
         !SquareAttackedByOpponent(pos, reg, kr, kc + 2 * step, king.player)
      then [NewCastlingMove(id, rook, king.square, Square(kr, kc + 2 * step), Square(kr, rookCol), Square(kr, rookEndCol))]
      else []
  }

  function KingSideCastling(pos: Position, reg: Registry, id: PieceId): (moves: seq<Move>)
    requires Registered(pos, reg) && id < |pos.pieces|
    ensures |moves| <= 1
  {
    SideCastling(pos, reg, id, RookColumn2, 1, RookColumn2 - 2)
  }

  function QueenSideCastling(pos: Position, reg: Registry, id: PieceId): (moves: seq<Move>)
    requires Registered(pos, reg) && id < |pos.pieces|
    ensures |moves| <= 1
  {
    SideCastling(pos, reg, id, RookColumn1, -1, RookColumn1 + 3)
  }

  /**
   * `addCastlingMoves`: nothing unless the piece is a King that has not moved and whose player is
   * not in check; then the king-side move, if any, before the queen-side one.
   */
  function CastlingMoves(pos: Position, reg: Registry, id: PieceId, last: Option<Move>): (moves: seq<Move>)
    requires Registered(pos, reg) && id < |pos.pieces| && LastOk(pos, last)
    ensures |moves| <= 2
    ensures forall m :: m in moves ==> m.variant.Castling? && !m.isPromotion && MoveOk(pos, m)
  {
    var king := pos.pieces[id];
    if king.IsInstance(King) && king.NotMoved() && !KingInCheck(pos, reg, king.player, last)
    then KingSideCastling(pos, reg, id) + QueenSideCastling(pos, reg, id)
    else []
  }

  /** `calculateLegalMoves` of the king: the filtered one-step moves, then the castling moves. */
  function KingLegalMoves(pos: Position, reg: Registry, id: PieceId, last: Option<Move>): (moves: seq<Move>)
    requires Registered(pos, reg) && id < |pos.pieces| && LastOk(pos, last)
  {
    LeapsOk(pos, id, KingOffsets);
    BaseStrategy.SafeMoves(pos, id, KingMoves(pos, id)) + CastlingMoves(pos, reg, id, last)
  }

  /** The one-step moves can all be tried on the board. */
  lemma LeapsOk(pos: Position, id: PieceId, offsets: seq<(int, int)>)
    requires Mover(pos, id)
    ensures BaseStrategy.AllOk(pos, Leaps(pos, id, offsets))
  {
  }

  /**
   * A castling side is open: the cell at the rook's column of the king's row holds an unmoved
   * Rook, and the two cells next to the king on that side are empty and not attacked.
   */
  predicate SideOpen(pos: Position, reg: Registry, id: PieceId, rookCol: int, step: int)
    requires Registered(pos, reg) && id < |pos.pieces| && OnBoard(0, rookCol)
  {
    var king := pos.pieces[id];
    var kr, kc := king.square.row, king.square.col;
    At(pos, kr, rookCol).Some? &&
    pos.pieces[At(pos, kr, rookCol).value].IsInstance(Rook) &&
    pos.pieces[At(pos, kr, rookCol).value].NotMoved() &&
    IsEmpty(pos, kr, kc + step) && IsEmpty(pos, kr, kc + 2 * step) &&
    !SquareAttackedByOpponent(pos, reg, kr, kc + step, king.player) &&
    !SquareAttackedByOpponent(pos, reg, kr, kc + 2 * step, king.player)
  }

  /**
   * What a castling move the king is offered looks like: the piece is an unmoved King that is not
   * in check; the move takes it two columns along its row, and takes the unmoved Rook standing on
   * column 7 to column 5 (king side) or on column 0 to column 3 (queen side). Only the two
   * squares next to the king on that side are checked to be empty and unattacked.
   */
  lemma {:induction false} CastlingConditions(pos: Position, reg: Registry, id: PieceId, last: Option<Move>, m: Move)
    requires Registered(pos, reg) && id < |pos.pieces| && LastOk(pos, last)
    requires m in CastlingMoves(pos, reg, id, last)
    ensures pos.pieces[id].IsInstance(King) && pos.pieces[id].NotMoved()
    ensures !KingInCheck(pos, reg, pos.pieces[id].player, last)
    ensures m.piece == id && m.capturedPiece == None && !m.isCapture && !m.isPromotion
    ensures m.startSquare == pos.pieces[id].square && m.variant.Castling?
    ensures m.endSquare.row == m.startSquare.row == m.variant.rookStartSquare.row == m.variant.rookEndSquare.row
    ensures (m.variant.rookStartSquare.col == 7 && m.variant.rookEndSquare.col == 5 &&
             m.endSquare.col == m.startSquare.col + 2 && SideOpen(pos, reg, id, 7, 1)) ||
            (m.variant.rookStartSquare.col == 0 && m.variant.rookEndSquare.col == 3 &&
             m.endSquare.col == m.startSquare.col - 2 && SideOpen(pos, reg, id, 0, -1))
    ensures At(pos, m.startSquare.row, m.variant.rookStartSquare.col) == Some(m.variant.rook)
  {
    var king := pos.pieces[id];
    assert CastlingMoves(pos, reg, id, last) != [];
    if m in KingSideCastling(pos, reg, id) {
      assert At(pos, king.square.row, 7).Some?;
    } else {
      assert m in QueenSideCastling(pos, reg, id);
      assert At(pos, king.square.row, 0).Some?;
    }
  }

  /** A castling side whose conditions all hold is offered to an unmoved King that is not in check. */
  lemma {:induction false} CastlingOffered(pos: Position, reg: Registry, id: PieceId, last: Option<Move>, side: int)
    requires Registered(pos, reg) && id < |pos.pieces| && LastOk(pos, last)
    requires pos.pieces[id].IsInstance(King) && pos.pieces[id].NotMoved()
    requires !KingInCheck(pos, reg, pos.pieces[id].player, last)
    requires side == 7 || side == 0
    requires SideOpen(pos, reg, id, side, if side == 7 then 1 else -1)
    ensures exists m :: m in CastlingMoves(pos, reg, id, last) && m.variant.Castling? &&
                        m.variant.rookStartSquare.col == side
  {
    if side == 7 {
      assert KingSideCastling(pos, reg, id) != [];
      var c := KingSideCastling(pos, reg, id)[0];
      assert c in CastlingMoves(pos, reg, id, last);
    } else {
      assert QueenSideCastling(pos, reg, id) != [];
      var c := QueenSideCastling(pos, reg, id)[0];
      assert c in CastlingMoves(pos, reg, id, last);
    }
  }

  /** A king's legal moves are its safe one-step moves followed by its castling moves. */
  lemma KingLegalParts(pos: Position, reg: Registry, id: PieceId, last: Option<Move>, m: Move)
    requires Registered(pos, reg) && id < |pos.pieces| && LastOk(pos, last)
    ensures BaseStrategy.AllOk(pos, KingMoves(pos, id))
    ensures m in KingLegalMoves(pos, reg, id, last) <==>
              (m in KingMoves(pos, id) && !BaseStrategy.WouldResultInCheck(pos, id, m)) ||
              m in CastlingMoves(pos, reg, id, last)
  {
    LeapsOk(pos, id, KingOffsets);
  }

  /** `calculateRawLegalMoves`: the eight one-step targets in order. */
  method CalculateRawLegalMoves(pos: Position, id: PieceId) returns (rawLegalMoves: seq<Move>)
    requires Mover(pos, id)
    ensures rawLegalMoves == KingMoves(pos, id)
  {
    var row := pos.pieces[id].square.row;
    var col := pos.pieces[id].square.col;
    var directions := KingOffsets;
    rawLegalMoves := [];
    for i := 0 to |directions|
      invariant rawLegalMoves == Leaps(pos, id, directions[..i])
    {
      LeapsSnoc(pos, id, directions, i);
      var targetRow, targetCol := row + directions[i].0, col + directions[i].1;
      assert Target(pos, id, directions[i]) == Square(targetRow, targetCol);
      if 0 <= targetRow < 8 && 0 <= targetCol < 8 {
        if IsOccupied(pos, targetRow, targetCol) {
          if IsOccupiedByOpponent(pos, targetRow, targetCol, pos.pieces[id].player) {
            rawLegalMoves := rawLegalMoves + [MoveTo(pos, id, targetRow, targetCol)];
          }
        } else {
          rawLegalMoves := rawLegalMoves + [MoveTo(pos, id, targetRow, targetCol)];
        }
      }
    }
    assert directions[..|directions|] == directions;
  }

  /** `addKingSideCastlingMove` and `addQueenSideCastlingMove`: push the side's move, if allowed. */
  method AddSideCastlingMove(pos: Position, reg: Registry, id: PieceId, rookCol: int, step: int, rookEndCol: int,
                             legalMoves: seq<Move>) returns (result: seq<Move>)
    requires Registered(pos, reg) && id < |pos.pieces| && OnBoard(0, rookCol) && OnBoard(0, rookEndCol)
    ensures result == legalMoves + SideCastling(pos, reg, id, rookCol, step, rookEndCol)
  {
    result := legalMoves;
    var king := pos.pieces[id];
    var rookSquare := Square(king.square.row, rookCol);
    var rook := At(pos, rookSquare.row, rookSquare.col);
    if rook.Some? && pos.pieces[rook.value].IsInstance(Rook) && pos.pieces[rook.value].NotMoved() &&
       IsEmpty(pos, king.square.row, king.square.col + step) &&
       IsEmpty(pos, king.square.row, king.square.col + 2 * step)
    {
      if !SquareAttackedByOpponent(pos, reg, king.square.row, king.square.col + step, king.player) &&
         !SquareAttackedByOpponent(pos, reg, king.square.row, king.square.col + 2 * step, king.player)
      {
        result := result + [NewCastlingMove(id, rook.value, king.square,
                                             Square(king.square.row, king.square.col + 2 * step),
                                             rookSquare, Square(rookSquare.row, rookEndCol))];
      }
    }
  }

  /** `addCastlingMoves`. */
  method AddCastlingMoves(pos: Position, reg: Registry, id: PieceId, legalMoves: seq<Move>, last: Option<Move>)
    returns (result: seq<Move>)
    requires Registered(pos, reg) && id < |pos.pieces| && LastOk(pos, last)
    ensures result == legalMoves + CastlingMoves(pos, reg, id, last)
  {
    result := legalMoves;
    var piece := pos.pieces[id];
    if piece.IsInstance(King) && piece.NotMoved() && !KingInCheck(pos, reg, piece.player, last) {
      result := AddSideCastlingMove(pos, reg, id, RookColumn2, 1, RookColumn2 - 2, result);
      result := AddSideCastlingMove(pos, reg, id, RookColumn1, -1, RookColumn1 + 3, result);
    }
  }

  /** `calculateLegalMoves` of the king: the base filter over the raw moves, then castling. */
  method CalculateLegalMoves(pos: Position, reg: Registry, id: PieceId, last: Option<Move>)
    returns (legalMoves: seq<Move>)
    requires Registered(pos, reg) && id < |pos.pieces| && LastOk(pos, last)
    ensures legalMoves == KingLegalMoves(pos, reg, id, last)
  {
    var raw := CalculateRawLegalMoves(pos, id);
    LeapsOk(pos, id, KingOffsets);
    legalMoves := BaseStrategy.CalculateLegalMoves(pos, id, raw);
    legalMoves := AddCastlingMoves(pos, reg, id, legalMoves, last);
  }
}
