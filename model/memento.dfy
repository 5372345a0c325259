/**
 * public/chess/model/game/GameStateMemento.js: a snapshot of the game state's players and
 * captured-piece lists. The source copies the three lists on construction and hands out copies
 * from its getters, and has no setters; a datatype has exactly that value behaviour, so the
 * memento is one, and its getters are its fields.
 */
module Mementos {
  import opened Players
  import opened Pieces

  datatype GameStateMemento = GameStateMemento(
    currentPlayer: Player,
    opposingPlayer: Player,
    player1: Player,
    player2: Player,
    capturedPieces: seq<PieceId>,
    player1CapturedPieces: seq<PieceId>,
    player2CapturedPieces: seq<PieceId>)
}
