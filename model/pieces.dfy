/**
 * Pieces: ChessPiece.js, the PieceWithMoveStatus.js mixin, the six piece classes and
 * PiecePromotion.js.
 *
 * A piece is an object that board, registry, moves and game state share; here every piece lives
 * in a slot of the board's piece arena and is referred to by its index (`PieceId`). The setters
 * of ChessPiece.js become updates of that slot (see Positions and Board); the functions below say
 * what each setter does to the record.
 */
module Pieces {
  import opened Wrappers
  import opened Squares
  import opened Players

  type PieceId = nat

  /**
   * `hasMoved` is `None` for a piece without the mixin (Bishop, Knight, Queen, Pawn and every
   * `copy`), `Some(b)` for a King or Rook. `baseCopy` marks a piece made by `copy`, which is a
   * plain ChessPiece: `instanceof King` and the like are false for it.
   * The movement strategy is fixed by the class and the type tag is never changed in the core
   * (`setType` has no caller), so the strategy is the one of `kind`.
   */
  datatype ChessPiece = ChessPiece(
    square: Square,
    player: Player,
    kind: PieceType,
    alive: bool,
    hasMoved: Option<bool>,
    baseCopy: bool)
  {
    /** `instanceof` the class of type `t`. */
    predicate IsInstance(t: PieceType) {
      !baseCopy && kind == t
    }

    /** `typeof piece.setHasMoved === "function"`. */
    predicate HasMoveStatus() {
      hasMoved.Some?
    }

    /** `!piece.hasMoved` as the FEN writer reads it: a missing flag reads as not moved. */
    predicate NotMoved() {
      hasMoved != Some(true)
    }
  }

  /** The ChessPiece constructor with the mixin (King, Rook) or without it. */
  function Construct(square: Square, player: Player, kind: PieceType): (p: ChessPiece)
    ensures p.square == square && p.player == player && p.kind == kind && p.alive
    ensures p.IsInstance(kind)
    ensures p.HasMoveStatus() <==> kind in {King, Rook}
    ensures p.HasMoveStatus() ==> p.hasMoved == Some(false)
  {
    ChessPiece(square, player, kind, true,
               if kind == King || kind == Rook then Some(false) else None, false)
  }

  function NewKing(square: Square, player: Player): (p: ChessPiece)
    ensures p.kind == King && p.hasMoved == Some(false) && p.alive
    ensures p.square == square && p.player == player && p.IsInstance(King)
  {
    Construct(square, player, King)
  }

  function NewRook(square: Square, player: Player): (p: ChessPiece)
    ensures p.kind == Rook && p.hasMoved == Some(false) && p.alive
    ensures p.square == square && p.player == player && p.IsInstance(Rook)
  {
    Construct(square, player, Rook)
  }

  function NewBishop(square: Square, player: Player): (p: ChessPiece)
    ensures p.kind == Bishop && p.hasMoved == None && p.alive
    ensures p.square == square && p.player == player && p.IsInstance(Bishop)
  {
    Construct(square, player, Bishop)
  }

  function NewKnight(square: Square, player: Player): (p: ChessPiece)
    ensures p.kind == Knight && p.hasMoved == None && p.alive
    ensures p.square == square && p.player == player && p.IsInstance(Knight)
  {
    Construct(square, player, Knight)
  }

  function NewQueen(square: Square, player: Player): (p: ChessPiece)
    ensures p.kind == Queen && p.hasMoved == None && p.alive
    ensures p.square == square && p.player == player && p.IsInstance(Queen)
  {
    Construct(square, player, Queen)
  }

  function NewPawn(square: Square, player: Player): (p: ChessPiece)
    ensures p.kind == Pawn && p.hasMoved == None && p.alive
    ensures p.square == square && p.player == player && p.IsInstance(Pawn)
  {
    Construct(square, player, Pawn)
  }

  /** `setCurrentSquare`: only the square changes. */
  function WithSquare(p: ChessPiece, s: Square): (q: ChessPiece)
    ensures q.square == s && q == p.(square := s)
  {
    p.(square := s)
  }

  /** `kill` (b = false), `revive` (b = true), `setIsAlive(b)`: only the alive flag changes. */
  function WithAlive(p: ChessPiece, b: bool): (q: ChessPiece)
    ensures q.alive == b && q == p.(alive := b)
  {
    p.(alive := b)
  }

  /** `setHasMoved(b)`, defined only on pieces with the mixin: only the flag changes. */
  function WithHasMoved(p: ChessPiece, b: bool): (q: ChessPiece)
    requires p.HasMoveStatus()
    ensures q.hasMoved == Some(b) && q == p.(hasMoved := Some(b))
  {
    p.(hasMoved := Some(b))
  }

  /** `copy`: a plain ChessPiece with the same square, player, type and alive flag. */
  function Copy(p: ChessPiece): (q: ChessPiece)
    ensures q.square == p.square && q.player == p.player && q.kind == p.kind && q.alive == p.alive
    ensures !q.HasMoveStatus() && forall t :: !q.IsInstance(t)
  {
    ChessPiece(p.square, p.player, p.kind, p.alive, None, true)
  }

  /** `PiecePromotion.promotePiece`: a type token to a new piece of that class. */
  function PromotePiece(token: string, player: Player, square: Square): (r: Result<ChessPiece>)
    ensures r.Ok? <==> token in {"QUEEN", "ROOK", "BISHOP", "KNIGHT"}
    ensures r.Ok? ==> r.value.square == square && r.value.player == player && r.value.alive
    ensures r.Ok? ==> TypeName(r.value.kind) == token && r.value.IsInstance(r.value.kind)
    ensures r.Ok? ==> r.value == Construct(square, player, r.value.kind)
    ensures r.Err? ==> r.message == "Invalid piece type for promotion"
  {
    if token == "QUEEN" then Ok(NewQueen(square, player))
    else if token == "ROOK" then Ok(NewRook(square, player))
    else if token == "BISHOP" then Ok(NewBishop(square, player))
    else if token == "KNIGHT" then Ok(NewKnight(square, player))
    else Err("Invalid piece type for promotion")
  }

  /** Every token the move generator attaches to a promotion is accepted. */
  lemma GeneratedTokensPromote(t: PieceType, player: Player, square: Square)
    requires t in {Queen, Rook, Bishop, Knight}
    ensures PromotePiece(TypeName(t), player, square) == Ok(Construct(square, player, t))
  {
  }
}
