/**
 * public/chess/model/player/Player.js with the enumerations it uses (PlayerColor, PlayerType)
 * and the piece-type tags (PieceType), whose values are their own names.
 */
module Players {
  import opened Wrappers

  datatype PlayerColor = White | Black
  datatype PlayerType = Human | AI
  datatype PieceType = Pawn | Knight | Bishop | Rook | Queen | King

  /**
   * A player: colour and type, both fixed at construction. The source compares players both by
   * `equals` (colour and type) and by reference; a game holds exactly two player objects of
   * different colours, so in this model both comparisons are equality of these values.
   */
  datatype Player = Player(color: PlayerColor, kind: PlayerType) {

    predicate IsWhite() {
      color == White
    }

    predicate IsStockfish() {
      kind == AI
    }

    /** `copy`: a new player with the same colour and type. */
    function Copy(): (q: Player)
      ensures Equals(Some(q))
    {
      Player(color, kind)
    }

    /** `equals`: the same object, or a Player of the same colour and type; `None` is null or another class. */
    function Equals(o: Option<Player>): (b: bool)
      ensures b <==> (o.Some? && o.value.color == color && o.value.kind == kind)
    {
      match o
      case None => false
      case Some(q) => q == this || (q.color == color && q.kind == kind)
    }
  }

  /** Two players of different colours are never `equals`, whatever their types. */
  lemma EqualsNeedsSameColor(p: Player, q: Player)
    requires p.color != q.color
    ensures !p.Equals(Some(q)) && !q.Equals(Some(p))
  {
  }

  function Opposite(c: PlayerColor): PlayerColor {
    if c == White then Black else White
  }

  /** The string value of a PieceType tag. */
  function TypeName(t: PieceType): (s: string)
    ensures |s| >= 4
  {
    match t
    case Pawn => "PAWN"
    case Knight => "KNIGHT"
    case Bishop => "BISHOP"
    case Rook => "ROOK"
    case Queen => "QUEEN"
    case King => "KING"
  }
}
