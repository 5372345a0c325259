/**
 * ChessPiece.calculateLegalMoves / calculateRawLegalMoves: a piece delegates to the strategy its
 * type was constructed with. Every strategy but the king's inherits the base self-check filter.
 */
module Legality {
  import opened Wrappers
  import opened Squares
  import opened Players
  import opened Pieces
  import opened Positions
  import opened Moves
  import opened PieceRegistry
  import opened Sliding
  import opened PawnStrategy
  import opened Attacks
  import BaseStrategy
  import KingStrategy
  import BishopStrategy
  import QueenStrategy
  import KnightStrategy
  import Leaping

  /** `piece.calculateLegalMoves(board, moveHistory)`, on the board whose registry is `reg`. */
  function LegalMoves(pos: Position, reg: Registry, id: PieceId, last: Option<Move>): (moves: seq<Move>)
    requires Registered(pos, reg) && id < |pos.pieces| && LastOk(pos, last)
  {
    BaseStrategy.RawMovesOk(pos, id, last);
    if pos.pieces[id].kind == King then KingStrategy.KingLegalMoves(pos, reg, id, last)
    else BaseStrategy.SafeMoves(pos, id, RawMoves(pos, id, last))
  }

  /**
   * Every legal move is one of the piece's own raw moves that does not leave its king attacked,
   * or a castling move of a king; and every such raw move is legal.
   */
  lemma LegalMovesMeans(pos: Position, reg: Registry, id: PieceId, last: Option<Move>, m: Move)
    requires Registered(pos, reg) && id < |pos.pieces| && LastOk(pos, last)
    ensures BaseStrategy.AllOk(pos, RawMoves(pos, id, last))
    ensures m in LegalMoves(pos, reg, id, last) <==>
              (m in RawMoves(pos, id, last) && !BaseStrategy.WouldResultInCheck(pos, id, m)) ||
              (pos.pieces[id].kind == King && m in KingStrategy.CastlingMoves(pos, reg, id, last))
  {
    BaseStrategy.RawMovesOk(pos, id, last);
    var raw := RawMoves(pos, id, last);
    if pos.pieces[id].kind == King {
      assert raw == Leaping.KingMoves(pos, id);
      assert LegalMoves(pos, reg, id, last) == KingStrategy.KingLegalMoves(pos, reg, id, last);
      KingStrategy.KingLegalParts(pos, reg, id, last, m);
    } else {
      assert LegalMoves(pos, reg, id, last) == BaseStrategy.SafeMoves(pos, id, raw);
    }
  }

  /** `calculateRawLegalMoves` through the piece's strategy. */
  method CalculateRawLegalMoves(pos: Position, id: PieceId, last: Option<Move>) returns (moves: seq<Move>)
    requires Mover(pos, id) && LastOk(pos, last)
    ensures moves == RawMoves(pos, id, last)
  {
    match pos.pieces[id].kind
    case Pawn => moves := PawnStrategy.CalculateRawLegalMoves(pos, id, last);
    case Knight => moves := KnightStrategy.CalculateRawLegalMoves(pos, id);
    case Bishop => moves := BishopStrategy.CalculateRawLegalMoves(pos, id);
    case Rook => moves := RookMoves(pos, id);
    case Queen => moves := QueenStrategy.CalculateRawLegalMoves(pos, id);
    case King => moves := KingStrategy.CalculateRawLegalMoves(pos, id);
  }

  /** `calculateLegalMoves` through the piece's strategy. */
  method CalculateLegalMoves(pos: Position, reg: Registry, id: PieceId, last: Option<Move>) returns (moves: seq<Move>)
    requires Registered(pos, reg) && id < |pos.pieces| && LastOk(pos, last)
    ensures moves == LegalMoves(pos, reg, id, last)
  {
    if pos.pieces[id].kind == King {
      moves := KingStrategy.CalculateLegalMoves(pos, reg, id, last);
    } else {
      var raw := CalculateRawLegalMoves(pos, id, last);
      BaseStrategy.RawMovesOk(pos, id, last);
      moves := BaseStrategy.CalculateLegalMoves(pos, id, raw);
    }
  }
}
