/**
 * The read-only queries of ChessBoard.js that look at the opponent's moves: `isKingInCheck`,
 * `isSquareAttackedByOpponent` and `isSquareAttackedByPawn`, over the raw moves of every piece
 * the registry files under the other player.
 */
module Attacks {
  import opened Wrappers
  import opened Squares
  import opened Players
  import opened Pieces
  import opened Positions
  import opened Moves
  import opened PieceRegistry
  import opened Sliding
  import opened Leaping
  import opened PawnStrategy

  /** `piece.calculateRawLegalMoves(board, moveHistory)`: the strategy of the piece's type. */
  function RawMoves(pos: Position, id: PieceId, last: Option<Move>): (moves: seq<Move>)
    requires Mover(pos, id) && LastOk(pos, last)
    ensures forall m :: m in moves ==> Generated(pos, id, m)
  {
    match pos.pieces[id].kind
    case Pawn => PawnMoves(pos, id, last)
    case Knight => KnightMoves(pos, id)
    case Bishop => BishopMoves(pos, id)
    case Rook => RookMoves(pos, id)
    case Queen => QueenMoves(pos, id)
    case King => KingMoves(pos, id)
  }

  /** A registry whose pieces all exist on this board. */
  predicate Registered(pos: Position, reg: Registry) {
    Valid(pos) && RegistryOk(reg, |pos.pieces|)
  }

  /** Every listed piece exists in an arena of `n` slots. */
  predicate AllExist(ids: seq<PieceId>, n: nat) {
    forall i :: 0 <= i < |ids| ==> ids[i] < n
  }

  lemma MembersExist(ids: seq<PieceId>, n: nat)
    requires forall x :: x in ids ==> x < n
    ensures AllExist(ids, n)
  {
    forall i | 0 <= i < |ids| ensures ids[i] < n {
      assert ids[i] in ids;
    }
  }

  /** The opposing pieces of a registry over this board exist. */
  lemma AttackersExist(pos: Position, reg: Registry, player: Player)
    requires Registered(pos, reg)
    ensures AllExist(Opposing(reg, player), |pos.pieces|)
  {
    MembersExist(Opposing(reg, player), |pos.pieces|);
  }

  /** Some raw move of piece `id`, made by a live piece, ends on `target` (`equals`, so never on null). */
  predicate HitsSquare(pos: Position, id: PieceId, last: Option<Move>, target: Option<Square>)
    requires Mover(pos, id) && LastOk(pos, last)
  {
    exists m :: m in RawMoves(pos, id, last) && pos.pieces[m.piece].alive && Squares.Equals(m.endSquare, target)
  }

  /** The loops of `isKingInCheck` over the attackers and their moves. */
  function AnyHits(pos: Position, ids: seq<PieceId>, last: Option<Move>, target: Option<Square>): (b: bool)
    requires Valid(pos) && LastOk(pos, last) && AllExist(ids, |pos.pieces|)
    ensures b <==> exists i :: 0 <= i < |ids| && HitsSquare(pos, ids[i], last, target)
  {
    if |ids| == 0 then false
    else
      var here := HitsSquare(pos, ids[0], last, target);
      var rest := AnyHits(pos, ids[1..], last, target);
      assert rest <==> exists i :: 1 <= i < |ids| && HitsSquare(pos, ids[i], last, target) by {
        forall i | 1 <= i < |ids| ensures ids[1..][i - 1] == ids[i] { }
      }
      here || rest
  }

  /**
   * `isKingInCheck(player, moveHistory, board)`: the player has a registered king (the first one
   * filed), and some opposing piece that is alive has a raw move ending on that king's square.
   * Without a king nobody is in check.
   */
  function KingInCheck(pos: Position, reg: Registry, player: Player, last: Option<Move>): (b: bool)
    requires Registered(pos, reg) && LastOk(pos, last)
    ensures AllExist(Opposing(reg, player), |pos.pieces|)
    ensures b <==> KingSquare(reg, pos, player).Some? && Attacked(pos, Opposing(reg, player), last, KingSquare(reg, pos, player).value)
  {
    var kingSquare := KingSquare(reg, pos, player);
    var attackers := Opposing(reg, player);
    AttackersExist(pos, reg, player);
    AnyHitsMeans(pos, attackers, last, kingSquare);
    AnyHits(pos, attackers, last, kingSquare)
  }

  /** Some listed piece is alive and has a raw move ending on `target`. */
  predicate Attacked(pos: Position, ids: seq<PieceId>, last: Option<Move>, target: Square)
    requires Valid(pos) && LastOk(pos, last) && AllExist(ids, |pos.pieces|)
  {
    exists i :: 0 <= i < |ids| && LiveHit(pos, ids[i], last, target)
  }

  lemma AnyHitsMeans(pos: Position, ids: seq<PieceId>, last: Option<Move>, target: Option<Square>)
    requires Valid(pos) && LastOk(pos, last) && AllExist(ids, |pos.pieces|)
    ensures AnyHits(pos, ids, last, target) <==> target.Some? && Attacked(pos, ids, last, target.value)
  {
    forall i | 0 <= i < |ids|
      ensures HitsSquare(pos, ids[i], last, target) <==> target.Some? && LiveHit(pos, ids[i], last, target.value)
    {
      HitsSquareMeans(pos, ids[i], last, target);
    }
  }

  /** A live piece with a raw move ending on `target`. */
  predicate LiveHit(pos: Position, id: PieceId, last: Option<Move>, target: Square)
    requires Mover(pos, id) && LastOk(pos, last)
  {
    pos.pieces[id].alive && exists m :: m in RawMoves(pos, id, last) && m.endSquare == target
  }

  lemma HitsSquareMeans(pos: Position, id: PieceId, last: Option<Move>, target: Option<Square>)
    requires Mover(pos, id) && LastOk(pos, last)
    ensures HitsSquare(pos, id, last, target) <==> target.Some? && LiveHit(pos, id, last, target.value)
  {
    if HitsSquare(pos, id, last, target) {
      var m :| m in RawMoves(pos, id, last) && pos.pieces[m.piece].alive && Squares.Equals(m.endSquare, target);
    }
  }

  /**
   * `isSquareAttackedByPawn(pawnRow, pawnCol, row, col, player)`: the pawn stands one row on the
   * far side of (row, col) as seen by `player`, in a neighbouring column.
   */
  function SquareAttackedByPawn(pawnRow: int, pawnCol: int, kingRow: int, targetCol: int, player: Player): (b: bool)
    ensures b ==> pawnCol - targetCol == 1 || targetCol - pawnCol == 1
  {
    if player.IsWhite() then
      pawnRow + 1 == kingRow && (pawnCol - 1 == targetCol || pawnCol + 1 == targetCol)
    else
      pawnRow - 1 == kingRow && (pawnCol - 1 == targetCol || pawnCol + 1 == targetCol)
  }

  /**
   * The pawn test agrees with how a pawn of the other colour captures: (row, col) is one row ahead
   * of the pawn in that pawn's direction of travel and one column aside.
   */
  lemma PawnAttackIsPawnCapture(pawnRow: int, pawnCol: int, row: int, col: int, player: Player, pawnOwner: Player)
    requires pawnOwner.color != player.color
    ensures SquareAttackedByPawn(pawnRow, pawnCol, row, col, player) <==>
              row == pawnRow + Direction(pawnOwner) && (col == pawnCol - 1 || col == pawnCol + 1)
  {
  }

  /**
   * The test `isSquareAttackedByOpponent` applies to one opposing piece: a live Pawn (a real one,
   * not a copy) by its diagonal, anything else by its raw moves against an empty history.
   */
  predicate AttacksSquare(pos: Position, id: PieceId, row: int, col: int, player: Player)
    requires Mover(pos, id)
  {
    var p := pos.pieces[id];
    if p.IsInstance(Pawn) && p.alive then SquareAttackedByPawn(p.square.row, p.square.col, row, col, player)
    else exists m :: m in RawMoves(pos, id, None) && pos.pieces[m.piece].alive && m.endSquare == Square(row, col)
  }

  /** The loop of `isSquareAttackedByOpponent` over the attackers. */
  function AnyAttacks(pos: Position, ids: seq<PieceId>, row: int, col: int, player: Player): (b: bool)
    requires Valid(pos) && AllExist(ids, |pos.pieces|)
    ensures b <==> exists i :: 0 <= i < |ids| && AttacksSquare(pos, ids[i], row, col, player)
  {
    if |ids| == 0 then false
    else
      var here := AttacksSquare(pos, ids[0], row, col, player);
      var rest := AnyAttacks(pos, ids[1..], row, col, player);
      assert rest <==> exists i :: 1 <= i < |ids| && AttacksSquare(pos, ids[i], row, col, player) by {
        forall i | 1 <= i < |ids| ensures ids[1..][i - 1] == ids[i] { }
      }
      here || rest
  }

  /** `isSquareAttackedByOpponent(row, col, player)`. */
  function SquareAttackedByOpponent(pos: Position, reg: Registry, row: int, col: int, player: Player): bool
    requires Registered(pos, reg)
  {
    AttackersExist(pos, reg, player);
    AnyAttacks(pos, Opposing(reg, player), row, col, player)
  }

  /** A dead piece attacks nothing, whatever its type: neither query counts its moves. */
  lemma DeadPiecesAttackNothing(pos: Position, id: PieceId, last: Option<Move>, target: Option<Square>,
                                row: int, col: int, player: Player)
    requires Mover(pos, id) && LastOk(pos, last) && !pos.pieces[id].alive
    ensures !HitsSquare(pos, id, last, target)
    ensures !AttacksSquare(pos, id, row, col, player)
  {
  }

  /**
   * The square queries see only the registry: with an empty registry nothing is attacked and no
   * king is found, so nobody is in check.
   */
  lemma EmptyRegistryNoCheck(pos: Position, player: Player, last: Option<Move>, row: int, col: int)
    requires Valid(pos) && LastOk(pos, last)
    ensures !KingInCheck(pos, [], player, last)
    ensures !SquareAttackedByOpponent(pos, [], row, col, player)
  {
  }
}
