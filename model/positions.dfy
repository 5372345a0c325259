/**
 * The value of a ChessBoard (public/chess/model/board/ChessBoard.js) at one instant: the 8x8 grid
 * of piece references and the arena holding every piece the board has created. The class Board
 * keeps the grid in an `array2` and mutates it in place; this module states what each of its
 * primitive operations does, as functions on snapshots.
 */
module Positions {
  import opened Wrappers
  import opened Squares
  import opened Players
  import opened Pieces

  type Cell = Option<PieceId>

  datatype Position = Position(cells: seq<seq<Cell>>, pieces: seq<ChessPiece>)

  // The static constants of ChessBoard.
  const WhitePawnRow := 6
  const BlackPawnRow := 1
  const WhiteMajorPieceRow := 7
  const BlackMajorPieceRow := 0
  const RookColumn1 := 0
  const RookColumn2 := 7
  const KingColumn := 4

  /** An 8x8 grid whose references name arena slots, and every piece on an in-range square. */
  predicate Valid(pos: Position) {
    |pos.cells| == 8 &&
    (forall r :: 0 <= r < 8 ==> |pos.cells[r]| == 8) &&
    (forall r, c :: 0 <= r < 8 && 0 <= c < 8 && pos.cells[r][c].Some? ==>
       pos.cells[r][c].value < |pos.pieces|) &&
    (forall i :: 0 <= i < |pos.pieces| ==> InBounds(pos.pieces[i].square))
  }

  predicate OnBoard(r: int, c: int) {
    0 <= r < 8 && 0 <= c < 8
  }

  /** A row of eight empty cells, and the grid `clearBoard` leaves. */
  function EmptyRow(): (row: seq<Cell>)
    ensures |row| == 8 && forall c :: 0 <= c < 8 ==> row[c] == None
  {
    [None, None, None, None, None, None, None, None]
  }

  function EmptyGrid(): (g: seq<seq<Cell>>)
    ensures |g| == 8 && forall r :: 0 <= r < 8 ==> g[r] == EmptyRow()
  {
    [EmptyRow(), EmptyRow(), EmptyRow(), EmptyRow(), EmptyRow(), EmptyRow(), EmptyRow(), EmptyRow()]
  }

  function At(pos: Position, r: int, c: int): Cell
    requires Valid(pos) && OnBoard(r, c)
  {
    pos.cells[r][c]
  }

  /** `isEmpty`: the cell is null. A column outside the row reads `undefined`, which is not null. */
  function IsEmpty(pos: Position, r: int, c: int): (b: bool)
    requires Valid(pos) && 0 <= r < 8
    ensures b <==> OnBoard(r, c) && At(pos, r, c) == None
  {
    0 <= c < 8 && pos.cells[r][c] == None
  }

  /** `isOccupied`. */
  function IsOccupied(pos: Position, r: int, c: int): (b: bool)
    requires Valid(pos) && OnBoard(r, c)
    ensures b <==> !IsEmpty(pos, r, c)
  {
    pos.cells[r][c].Some?
  }

  /** The piece record of an occupied cell. */
  function Occupant(pos: Position, r: int, c: int): ChessPiece
    requires Valid(pos) && OnBoard(r, c) && At(pos, r, c).Some?
  {
    pos.pieces[pos.cells[r][c].value]
  }

  /** `isOccupiedByOpponent`: non-null and its owner not `equals` the given player. */
  function IsOccupiedByOpponent(pos: Position, r: int, c: int, player: Player): (b: bool)
    requires Valid(pos) && OnBoard(r, c)
    ensures b <==> (At(pos, r, c).Some? && !Occupant(pos, r, c).player.Equals(Some(player)))
  {
    pos.cells[r][c].Some? && !pos.pieces[pos.cells[r][c].value].player.Equals(Some(player))
  }

  /** The one-cell write behind `placePiece`, `addPiece` and `removePiece`. */
  function SetCell(pos: Position, r: int, c: int, v: Cell): (q: Position)
    requires Valid(pos) && OnBoard(r, c)
    requires v.Some? ==> v.value < |pos.pieces|
    ensures Valid(q) && q.pieces == pos.pieces
    ensures At(q, r, c) == v
    ensures forall i, j :: OnBoard(i, j) && (i != r || j != c) ==> At(q, i, j) == At(pos, i, j)
  {
    pos.(cells := pos.cells[r := pos.cells[r][c := v]])
  }

  /** `addPiece`: the cell at the piece's current square now holds it; no other cell changes. */
  function AddPiece(pos: Position, id: PieceId): (q: Position)
    requires Valid(pos) && id < |pos.pieces|
    ensures Valid(q) && q.pieces == pos.pieces
    ensures At(q, pos.pieces[id].square.row, pos.pieces[id].square.col) == Some(id)
    ensures forall i, j :: OnBoard(i, j) && Square(i, j) != pos.pieces[id].square ==>
              At(q, i, j) == At(pos, i, j)
  {
    SetCell(pos, pos.pieces[id].square.row, pos.pieces[id].square.col, Some(id))
  }

  /** `removePiece`: the cell at the piece's current square is cleared, whatever it held. */
  function RemovePiece(pos: Position, id: PieceId): (q: Position)
    requires Valid(pos) && id < |pos.pieces|
    ensures Valid(q) && q.pieces == pos.pieces
    ensures At(q, pos.pieces[id].square.row, pos.pieces[id].square.col) == None
    ensures forall i, j :: OnBoard(i, j) && Square(i, j) != pos.pieces[id].square ==>
              At(q, i, j) == At(pos, i, j)
  {
    SetCell(pos, pos.pieces[id].square.row, pos.pieces[id].square.col, None)
  }

  /** A setter of ChessPiece applied to the piece in slot `id`; the grid does not change. */
  function UpdatePiece(pos: Position, id: PieceId, p: ChessPiece): (q: Position)
    requires Valid(pos) && id < |pos.pieces| && InBounds(p.square)
    ensures Valid(q) && q.cells == pos.cells && |q.pieces| == |pos.pieces|
    ensures q.pieces[id] == p
    ensures forall k :: 0 <= k < |pos.pieces| && k != id ==> q.pieces[k] == pos.pieces[k]
  {
    pos.(pieces := pos.pieces[id := p])
  }

  /** A newly constructed piece: it gets the next arena slot. */
  function NewPiece(pos: Position, p: ChessPiece): (q: Position)
    requires Valid(pos) && InBounds(p.square)
    ensures Valid(q) && q.cells == pos.cells && q.pieces == pos.pieces + [p]
  {
    pos.(pieces := pos.pieces + [p])
  }

  /**
   * `ChessBoard.copy`: the same grid over copies of the pieces. Each copy is a new object (a slot
   * of the copy's own arena) with the same square, player, type and alive flag, and no mixin.
   */
  function CopyPosition(pos: Position): (q: Position)
    requires Valid(pos)
    ensures Valid(q) && q.cells == pos.cells && |q.pieces| == |pos.pieces|
    ensures forall k :: 0 <= k < |pos.pieces| ==> q.pieces[k] == Copy(pos.pieces[k])
  {
    pos.(pieces := seq(|pos.pieces|, k requires 0 <= k < |pos.pieces| => Copy(pos.pieces[k])))
  }

  /** Every cell of the grid equals the matching cell of the other grid. */
  lemma {:induction false} GridsEqual(a: seq<seq<Cell>>, b: seq<seq<Cell>>)
    requires |a| == 8 && |b| == 8
    requires forall r :: 0 <= r < 8 ==> |a[r]| == 8 && |b[r]| == 8
    requires forall r, c :: 0 <= r < 8 && 0 <= c < 8 ==> a[r][c] == b[r][c]
    ensures a == b
  {
    forall r | 0 <= r < 8 ensures a[r] == b[r] {
      assert forall c :: 0 <= c < 8 ==> a[r][c] == b[r][c];
    }
  }

  /** Two valid boards whose every cell reads the same have the same grid. */
  lemma SameGrid(p: Position, q: Position)
    requires Valid(p) && Valid(q)
    requires forall i, j | OnBoard(i, j) :: At(p, i, j) == At(q, i, j)
    ensures p.cells == q.cells
  {
    forall r, c | 0 <= r < 8 && 0 <= c < 8 ensures p.cells[r][c] == q.cells[r][c] {
      assert At(p, r, c) == At(q, r, c);
    }
    GridsEqual(p.cells, q.cells);
  }
}
