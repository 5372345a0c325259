/**
 * ChessBoard.js as a class: the 8x8 grid of piece references is an `array2` written in place,
 * the pieces the board refers to live in the arena `pieces` (a new piece object is a new slot),
 * and `pieceManager` is the registry object the board rebuilds from its grid. `Snap` reads the
 * board as a Position value, and every method states its effect as a function of that value.
 */
module Board {
  import opened Wrappers
  import opened Squares
  import opened Players
  import opened Pieces
  import opened Positions
  import opened Moves
  import opened PieceRegistry
  import opened PieceManagers
  import opened PawnStrategy
  import opened Attacks
  import opened FenPlacement

  /** The type `createPieceMap` puts on each column of a major-piece row. */
  function MajorPieceType(col: int): (t: PieceType)
    requires 0 <= col < 8
    ensures t == King <==> col == KingColumn
    ensures t == Rook <==> col == RookColumn1 || col == RookColumn2
  {
    if col == 0 || col == 7 then Rook
    else if col == 1 || col == 6 then Knight
    else if col == 2 || col == 5 then Bishop
    else if col == 3 then Queen
    else King
  }

  /** The type of the piece a row of the starting layout has on column `c`. */
  function RowType(major: bool, c: int): PieceType
    requires 0 <= c < 8
  {
    if major then MajorPieceType(c) else Pawn
  }

  /**
   * What `init(player1, player2)` puts on cell (r, c): player1's major pieces and pawns on rows 7
   * and 6 when player1 is white, on rows 0 and 1 otherwise; player2's on the other two rows.
   */
  function StartCell(player1: Player, player2: Player, r: int, c: int): Option<(PieceType, Player)>
    requires OnBoard(r, c)
  {
    var major1 := if player1.IsWhite() then WhiteMajorPieceRow else BlackMajorPieceRow;
    var pawns1 := if player1.IsWhite() then WhitePawnRow else BlackPawnRow;
    var major2 := if player1.IsWhite() then BlackMajorPieceRow else WhiteMajorPieceRow;
    var pawns2 := if player1.IsWhite() then BlackPawnRow else WhitePawnRow;
    if r == major1 then Some((MajorPieceType(c), player1))
    else if r == pawns1 then Some((Pawn, player1))
    else if r == major2 then Some((MajorPieceType(c), player2))
    else if r == pawns2 then Some((Pawn, player2))
    else None
  }

  /**
   * The starting layout: rows 2 to 5 are empty; rows 0 and 7 mirror each other piece for piece,
   * as do rows 1 and 6, with the owners exchanged; a white player1 owns rows 6 and 7, with its
   * king on column 4 of row 7.
   */
  lemma StartLayout(player1: Player, player2: Player, r: int, c: int)
    requires OnBoard(r, c)
    ensures 2 <= r <= 5 <==> StartCell(player1, player2, r, c).None?
    ensures StartCell(player1, player2, r, c).Some? ==>
              StartCell(player1, player2, 7 - r, c).Some? &&
              StartCell(player1, player2, 7 - r, c).value.0 == StartCell(player1, player2, r, c).value.0 &&
              (StartCell(player1, player2, r, c).value.1 == player1 <==>
               StartCell(player1, player2, 7 - r, c).value.1 == player2)
    ensures player1.IsWhite() && player1 != player2 ==>
              (StartCell(player1, player2, r, c).Some? && StartCell(player1, player2, r, c).value.1 == player1
               <==> r >= 6)
    ensures player1.IsWhite() ==> StartCell(player1, player2, 7, 4) == Some((King, player1))
  {
  }

  // ------------------------------------------------------------ castling flags

  /** The arena with every piece of `ids` that has the move-status mixin marked as moved. */
  function MarkAmong(pieces: seq<ChessPiece>, ids: seq<PieceId>): (ps: seq<ChessPiece>)
    ensures |ps| == |pieces|
    ensures forall k :: 0 <= k < |pieces| ==>
              ps[k] == if k in ids && pieces[k].HasMoveStatus() then WithHasMoved(pieces[k], true) else pieces[k]
  {
    seq(|pieces|, k requires 0 <= k < |pieces| =>
      if k in ids && pieces[k].HasMoveStatus() then WithHasMoved(pieces[k], true) else pieces[k])
  }

  /** `markAllKingsAndRooksAsMoved`: every piece on the grid with the mixin, marked as moved. */
  function MarkAllMoved(pos: Position): (q: Position)
    requires Valid(pos)
    ensures Valid(q) && q.cells == pos.cells && |q.pieces| == |pos.pieces|
  {
    pos.(pieces := MarkAmong(pos.pieces, Occupants(pos.cells)))
  }

  /** Half of `markKingAndRookAsNotMoved`: the piece on (row, col), if an instance of `t`, marked as not moved. */
  function Unmark(pos: Position, row: int, col: int, t: PieceType): (q: Position)
    requires Valid(pos) && OnBoard(row, col)
    ensures Valid(q) && q.cells == pos.cells && |q.pieces| == |pos.pieces|
  {
    match At(pos, row, col)
    case None => pos
    case Some(x) =>
      if pos.pieces[x].IsInstance(t) then UpdatePiece(pos, x, pos.pieces[x].(hasMoved := Some(false))) else pos
  }

  /** `markKingAndRookAsNotMoved(row, kingCol, rookCol)`. */
  function UnmarkKingAndRook(pos: Position, row: int, kingCol: int, rookCol: int): (q: Position)
    requires Valid(pos) && OnBoard(row, kingCol) && OnBoard(row, rookCol)
    ensures Valid(q) && q.cells == pos.cells && |q.pieces| == |pos.pieces|
  {
    Unmark(Unmark(pos, row, kingCol, King), row, rookCol, Rook)
  }

  /** `setCastlingFlags(castlingAvailability)`: all marked as moved, then K, Q, k, q in turn. */
  function CastlingFlags(pos: Position, availability: string): (q: Position)
    requires Valid(pos)
    ensures Valid(q) && q.cells == pos.cells && |q.pieces| == |pos.pieces|
  {
    RestoreRights(MarkAllMoved(pos), availability)
  }

  /** The four `markKingAndRookAsNotMoved` calls of `setCastlingFlags`, each when its letter is present. */
  function RestoreRights(p0: Position, availability: string): (q: Position)
    requires Valid(p0)
    ensures Valid(q) && q.cells == p0.cells && |q.pieces| == |p0.pieces|
  {
    var p1 := if 'K' in availability then UnmarkKingAndRook(p0, WhiteMajorPieceRow, KingColumn, RookColumn2) else p0;
    var p2 := if 'Q' in availability then UnmarkKingAndRook(p1, WhiteMajorPieceRow, KingColumn, RookColumn1) else p1;
    var p3 := if 'k' in availability then UnmarkKingAndRook(p2, BlackMajorPieceRow, KingColumn, RookColumn2) else p2;
    if 'q' in availability then UnmarkKingAndRook(p3, BlackMajorPieceRow, KingColumn, RookColumn1) else p3
  }

  /** Piece `x` stands on cell (r, c) and on no other cell. */
  ghost predicate OnlyCell(pos: Position, x: PieceId, r: int, c: int)
    requires Valid(pos)
  {
    OnBoard(r, c) && At(pos, r, c) == Some(x) &&
    forall i, j :: OnBoard(i, j) && At(pos, i, j) == Some(x) ==> i == r && j == c
  }

  /**
   * Whether the availability letters restore the castling rights of a piece standing on (r, c):
   * a King on column 4 of row 7 (white) or row 0 (black) by either letter of its side, a Rook on
   * column 7 by K or k, on column 0 by Q or q.
   */
  predicate Restored(p: ChessPiece, r: int, c: int, availability: string) {
    (p.IsInstance(King) && c == KingColumn &&
     ((r == WhiteMajorPieceRow && ('K' in availability || 'Q' in availability)) ||
      (r == BlackMajorPieceRow && ('k' in availability || 'q' in availability)))) ||
    (p.IsInstance(Rook) &&
     ((r == WhiteMajorPieceRow && c == RookColumn2 && 'K' in availability) ||
      (r == WhiteMajorPieceRow && c == RookColumn1 && 'Q' in availability) ||
      (r == BlackMajorPieceRow && c == RookColumn2 && 'k' in availability) ||
      (r == BlackMajorPieceRow && c == RookColumn1 && 'q' in availability)))
  }

  /** One `Unmark` leaves a piece standing on another cell only as it was. */
  lemma UnmarkElsewhere(pos: Position, row: int, col: int, t: PieceType, x: PieceId, r: int, c: int)
    requires Valid(pos) && OnBoard(row, col) && x < |pos.pieces| && OnlyCell(pos, x, r, c)
    ensures Unmark(pos, row, col, t).pieces[x] ==
              if row == r && col == c && pos.pieces[x].IsInstance(t) then pos.pieces[x].(hasMoved := Some(false))
              else pos.pieces[x]
  {
    if row != r || col != c {
      assert At(pos, row, col) != Some(x);
    }
  }

  /**
   * After `setCastlingFlags`, a piece with the move-status mixin that stands on one cell only is
   * marked as moved unless the availability letters restore it; the grid, and a piece that is
   * neither a King nor a Rook and has no mixin, are unchanged.
   */
  lemma {:induction false} CastlingFlagsMeaning(pos: Position, availability: string, x: PieceId, r: int, c: int)
    requires Valid(pos) && x < |pos.pieces| && OnlyCell(pos, x, r, c)
    ensures CastlingFlags(pos, availability).cells == pos.cells
    ensures !pos.pieces[x].HasMoveStatus() && !pos.pieces[x].IsInstance(King) && !pos.pieces[x].IsInstance(Rook) ==>
              CastlingFlags(pos, availability).pieces[x] == pos.pieces[x]
    ensures pos.pieces[x].HasMoveStatus() ==>
              CastlingFlags(pos, availability).pieces[x] ==
              pos.pieces[x].(hasMoved := Some(!Restored(pos.pieces[x], r, c, availability)))
  {
    var p := pos.pieces[x];
    var p0 := MarkAllMoved(pos);
    assert x in Occupants(pos.cells) by {
      assert Some(x) in pos.cells[r] by { assert pos.cells[r][c] == Some(x); }
    }
    assert OnlyCell(p0, x, r, c);
    RestoreRightsOne(p0, availability, x, r, c);
    if p.HasMoveStatus() {
      assert p0.pieces[x] == p.(hasMoved := Some(true));
    } else {
      assert p0.pieces[x] == p;
    }
  }

  /** The restoring steps seen from one piece on one cell: cleared exactly when its letters are present. */
  lemma RestoreRightsOne(p0: Position, availability: string, x: PieceId, r: int, c: int)
    requires Valid(p0) && x < |p0.pieces| && OnlyCell(p0, x, r, c)
    ensures RestoreRights(p0, availability).pieces[x] ==
              if Restored(p0.pieces[x], r, c, availability) then p0.pieces[x].(hasMoved := Some(false))
              else p0.pieces[x]
  {
    var p := p0.pieces[x];
    var p1 := if 'K' in availability then UnmarkKingAndRook(p0, 7, 4, 7) else p0;
    var p2 := if 'Q' in availability then UnmarkKingAndRook(p1, 7, 4, 0) else p1;
    var p3 := if 'k' in availability then UnmarkKingAndRook(p2, 0, 4, 7) else p2;
    UnmarkSteps(p0, 'K' in availability, 7, 7, x, r, c);
    UnmarkSteps(p1, 'Q' in availability, 7, 0, x, r, c);
    UnmarkSteps(p2, 'k' in availability, 0, 7, x, r, c);
    UnmarkSteps(p3, 'q' in availability, 0, 0, x, r, c);
  }

  /** A `markKingAndRookAsNotMoved` step, taken or not, seen from one piece on one cell. */
  lemma UnmarkSteps(pos: Position, taken: bool, row: int, rookCol: int, x: PieceId, r: int, c: int)
    requires Valid(pos) && OnBoard(row, rookCol) && x < |pos.pieces| && OnlyCell(pos, x, r, c)
    ensures OnlyCell(if taken then UnmarkKingAndRook(pos, row, KingColumn, rookCol) else pos, x, r, c)
    ensures (if taken then UnmarkKingAndRook(pos, row, KingColumn, rookCol) else pos).pieces[x] ==
              if taken && r == row && ((c == KingColumn && pos.pieces[x].IsInstance(King)) ||
                                       (c == rookCol && pos.pieces[x].IsInstance(Rook)))
              then pos.pieces[x].(hasMoved := Some(false))
              else pos.pieces[x]
  {
    if taken {
      var mid := Unmark(pos, row, KingColumn, King);
      UnmarkElsewhere(pos, row, KingColumn, King, x, r, c);
      assert OnlyCell(mid, x, r, c);
      UnmarkElsewhere(mid, row, rookCol, Rook, x, r, c);
    }
  }

  /** The context `initializeBoardFromFEN` returns; `epMove` is always null when it returns. */
  datatype BoardContext = BoardContext(activeColor: string, halfMoveClock: Option<string>,
                                       fullMoveNumber: Option<string>)

  /** Field `k` of the split record, or `undefined`. */
  function Field(fields: seq<string>, k: nat): Option<string> {
    if k < |fields| then Some(fields[k]) else None
  }

  /**
   * `initializeBoardFromFEN(fen, player1, player2)` on the board `pos`: the grid cleared, the
   * placement read rank by rank with new pieces owned by the white or the black player, the
   * castling flags set. A missing castling field fails on `includes`, after every king and rook
   * has been marked as moved; any en-passant field other than "-", a missing one included, fails
   * because `setEnPassantTarget` calls `getSquareFromNotation`, an instance method, on the class.
   */
  function ImportFen(pos: Position, fen: string, player1: Player, player2: Player)
    : (r: Result<(Position, BoardContext)>)
    requires Valid(pos)
    ensures r.Ok? ==> Valid(r.value.0) && |r.value.0.pieces| >= |pos.pieces|
  {
    var fields := Split(fen, ' ');
    var whitePlayer := if player1.IsWhite() then player1 else player2;
    var blackPlayer := if player1.IsWhite() then player2 else player1;
    match ScanRowsFrom(pos.(cells := EmptyGrid()), 0, Split(fields[0], '/'), whitePlayer, blackPlayer)
    case Err(e) => Err(e)
    case Ok(placed) => FinishImport(placed, fields)
  }

  /** What follows the placement loop: the castling flags, then the check of the en-passant field. */
  function FinishImport(placed: Position, fields: seq<string>): (r: Result<(Position, BoardContext)>)
    requires Valid(placed)
    ensures r.Ok? ==> Valid(r.value.0) && |r.value.0.pieces| == |placed.pieces|
  {
    if |fields| < 3 then Err("Cannot read properties of undefined (reading 'includes')")
    else
      var flagged := CastlingFlags(placed, fields[2]);
      if |fields| < 4 || fields[3] != "-" then Err("Square.getSquareFromNotation is not a function")
      else Ok((flagged, BoardContext(fields[1], Field(fields, 4), Field(fields, 5))))
  }

  /**
   * The board the steps after the placement loop leave, whether they fail or not: the import is
   * not undone on an error, so a missing castling field leaves every king and rook marked as
   * moved, and a refused en-passant field leaves the castling flags set.
   */
  function FinishState(placed: Position, fields: seq<string>): (q: Position)
    requires Valid(placed)
    ensures Valid(q) && q.cells == placed.cells && |q.pieces| == |placed.pieces|
    ensures FinishImport(placed, fields).Ok? ==> q == FinishImport(placed, fields).value.0
    ensures FinishImport(placed, fields).Err? && |fields| < 3 ==> q == MarkAllMoved(placed)
  {
    if |fields| < 3 then MarkAllMoved(placed) else CastlingFlags(placed, fields[2])
  }

  /** The board `initializeBoardFromFEN` leaves on `pos`, whether the import succeeds or throws. */
  function ImportState(pos: Position, fen: string, player1: Player, player2: Player): (q: Position)
    requires Valid(pos)
    ensures Valid(q)
    ensures ImportFen(pos, fen, player1, player2).Ok? ==> q == ImportFen(pos, fen, player1, player2).value.0
  {
    var fields := Split(fen, ' ');
    var whitePlayer := if player1.IsWhite() then player1 else player2;
    var blackPlayer := if player1.IsWhite() then player2 else player1;
    var cleared := pos.(cells := EmptyGrid());
    var rows := Split(fields[0], '/');
    match ScanRowsFrom(cleared, 0, rows, whitePlayer, blackPlayer)
    case Err(_) => ScanRowsLeft(cleared, 0, rows, whitePlayer, blackPlayer)
    case Ok(placed) => FinishState(placed, fields)
  }

  /**
   * A bad rank `j` of the placement: the import throws that rank's error, and the board keeps the
   * ranks above it as read, rank `j` up to the failing character, and every rank below it empty.
   */
  lemma ImportStopsAt(pos: Position, fen: string, player1: Player, player2: Player, j: nat)
    requires Valid(pos)
    requires var rows := Split(Split(fen, ' ')[0], '/');
             var white := if player1.IsWhite() then player1 else player2;
             var black := if player1.IsWhite() then player2 else player1;
             j < |rows| &&
             ScanRowsFrom(pos.(cells := EmptyGrid()), 0, rows[..j], white, black).Ok? &&
             ScanFrom(ScanRowsFrom(pos.(cells := EmptyGrid()), 0, rows[..j], white, black).value, j, 0, rows[j],
                      white, black).Err?
    ensures var rows := Split(Split(fen, ' ')[0], '/');
            var white := if player1.IsWhite() then player1 else player2;
            var black := if player1.IsWhite() then player2 else player1;
            var done := ScanRowsFrom(pos.(cells := EmptyGrid()), 0, rows[..j], white, black).value;
            var q := ImportState(pos, fen, player1, player2);
            ImportFen(pos, fen, player1, player2).Err? &&
            ImportFen(pos, fen, player1, player2).message == ScanFrom(done, j, 0, rows[j], white, black).message &&
            q == ScanFromLeft(done, j, 0, rows[j], white, black) &&
            (forall r, c :: OnBoard(r, c) && r < j ==> At(q, r, c) == At(done, r, c)) &&
            (forall r, c :: OnBoard(r, c) && j < r ==> At(q, r, c) == None)
  {
    var rows := Split(Split(fen, ' ')[0], '/');
    var white := if player1.IsWhite() then player1 else player2;
    var black := if player1.IsWhite() then player2 else player1;
    var cleared := pos.(cells := EmptyGrid());
    ScanRowsStopsAt(cleared, 0, rows, white, black, j);
    var q := ScanRowsLeft(cleared, 0, rows, white, black);
    assert forall r, c :: OnBoard(r, c) && j < r ==> At(q, r, c) == At(cleared, r, c);
  }

  /** Marking one more piece of the walk: the slot is marked unless it has no mixin. */
  lemma MarkAmongSnoc(pieces: seq<ChessPiece>, ids: seq<PieceId>, x: PieceId)
    requires x < |pieces|
    ensures var ps := MarkAmong(pieces, ids);
            MarkAmong(pieces, ids + [x]) ==
              if ps[x].HasMoveStatus() then ps[x := WithHasMoved(ps[x], true)] else ps
  {
  }

  class ChessBoard {
    var board: array2<Cell>
    var pieces: seq<ChessPiece>
    var pieceManager: PieceManager?

    /** An 8x8 grid over the arena; a registry, once built, names arena slots only. */
    ghost predicate Valid()
      reads this, board, pieceManager
    {
      board.Length0 == 8 && board.Length1 == 8 && Positions.Valid(Snap()) &&
      (pieceManager != null ==> pieceManager.Valid() && RegistryOk(pieceManager.piecesByPlayer, |pieces|))
    }

    /** The board as a value. */
    function Snap(): (pos: Position)
      reads this`board, this`pieces, board
      requires board.Length0 == 8 && board.Length1 == 8
      ensures |pos.cells| == 8 && (forall r :: 0 <= r < 8 ==> |pos.cells[r]| == 8) && pos.pieces == pieces
      ensures forall r, c :: 0 <= r < 8 && 0 <= c < 8 ==> pos.cells[r][c] == board[r, c]
    {
      var b := board;
      Position(seq(8, r requires 0 <= r < 8 reads b => seq(8, c requires 0 <= c < 8 reads b => b[r, c])), pieces)
    }

    /** The registry the board's piece manager holds. */
    function Registry(): (reg: Registry)
      reads this, pieceManager
      requires pieceManager != null
    {
      pieceManager.piecesByPlayer
    }

    /** `new ChessBoard()`: an empty grid, no pieces, no piece manager yet. */
    constructor()
      ensures Valid() && fresh(board) && pieceManager == null
      ensures Snap() == Position(EmptyGrid(), [])
    {
      board := new Cell[8, 8]((r, c) => None);
      pieces := [];
      pieceManager := null;
      new;
      GridsEqual(Snap().cells, EmptyGrid());
    }

    // ------------------------------------------------------------ cell and piece primitives

    /** `placePiece(row, col, piece)`: the one-cell write behind `addPiece` and `removePiece` too. */
    method PlacePiece(row: int, col: int, v: Cell)
      requires Valid() && OnBoard(row, col) && (v.Some? ==> v.value < |pieces|)
      modifies board
      ensures Valid() && Snap() == Positions.SetCell(old(Snap()), row, col, v)
      ensures board[row, col] == v
      ensures forall r, c :: 0 <= r < 8 && 0 <= c < 8 && (r != row || c != col) ==> board[r, c] == old(board[r, c])
    {
      ghost var before := Snap();
      board[row, col] := v;
      SameGrid(Snap(), Positions.SetCell(before, row, col, v));
    }

    /** `addPiece(piece)`: the cell at the piece's current square. */
    method AddPiece(id: PieceId)
      requires Valid() && id < |pieces|
      modifies board
      ensures Valid() && Snap() == Positions.AddPiece(old(Snap()), id)
    {
      var square := pieces[id].square;
      PlacePiece(square.row, square.col, Some(id));
    }

    /** `removePiece(piece)`: clears the cell at the piece's current square, whatever it holds. */
    method RemovePiece(id: PieceId)
      requires Valid() && id < |pieces|
      modifies board
      ensures Valid() && Snap() == Positions.RemovePiece(old(Snap()), id)
    {
      var square := pieces[id].square;
      PlacePiece(square.row, square.col, None);
    }

    /** A piece setter (`setCurrentSquare`, `kill`, `revive`, `setHasMoved`) on slot `id`. */
    method SetPiece(id: PieceId, p: ChessPiece)
      requires Valid() && id < |pieces| && InBounds(p.square)
      modifies this
      ensures Valid() && Snap() == UpdatePiece(old(Snap()), id, p)
      ensures board == old(board) && pieceManager == old(pieceManager)
    {
      ghost var before := Snap();
      pieces := pieces[id := p];
      SameGrid(Snap(), UpdatePiece(before, id, p));
    }

    /** A newly constructed piece object: the next arena slot. */
    method NewPiece(p: ChessPiece) returns (id: PieceId)
      requires Valid() && InBounds(p.square)
      modifies this
      ensures Valid() && Snap() == Positions.NewPiece(old(Snap()), p) && id == |old(pieces)|
      ensures pieces == old(pieces) + [p]
      ensures board == old(board) && pieceManager == old(pieceManager)
    {
      ghost var before := Snap();
      id := |pieces|;
      pieces := pieces + [p];
      SameGrid(Snap(), Positions.NewPiece(before, p));
    }

    // ------------------------------------------------------------ setting up

    /** `clearBoard`: every cell null. The pieces themselves are left as they are. */
    method ClearBoard()
      requires Valid()
      modifies board
      ensures Valid() && Snap() == old(Snap()).(cells := EmptyGrid())
      ensures forall r, c :: 0 <= r < 8 && 0 <= c < 8 ==> board[r, c] == None
    {
      for row := 0 to 8
        invariant Valid() && pieces == old(pieces)
        invariant forall r, c :: 0 <= r < row && 0 <= c < 8 ==> board[r, c] == None
      {
        for col := 0 to 8
          invariant Valid() && pieces == old(pieces)
          invariant forall r, c :: 0 <= r < row && 0 <= c < 8 ==> board[r, c] == None
          invariant forall c :: 0 <= c < col ==> board[row, c] == None
        {
          board[row, col] := None;
        }
      }
      GridsEqual(Snap().cells, EmptyGrid());
    }

    /** Cell (r, c) holds a piece just constructed there with this type and owner. */
    ghost predicate Holds(r: int, c: int, t: PieceType, player: Player)
      reads this`board, this`pieces, board
      requires board.Length0 == 8 && board.Length1 == 8 && OnBoard(r, c)
    {
      board[r, c].Some? && board[r, c].value < |pieces| &&
      pieces[board[r, c].value] == Construct(Square(r, c), player, t)
    }

    /** `placeMajorPiecesForRow` (major = true) and `initializePawnRow` (major = false). */
    method PlaceRow(row: int, player: Player, major: bool)
      requires Valid() && 0 <= row < 8
      modifies this, board
      ensures Valid() && board == old(board) && pieceManager == old(pieceManager)
      ensures |old(pieces)| <= |pieces| && forall k :: 0 <= k < |old(pieces)| ==> pieces[k] == old(pieces[k])
      ensures forall c :: 0 <= c < 8 ==> Holds(row, c, RowType(major, c), player)
      ensures forall r, c :: 0 <= r < 8 && 0 <= c < 8 && r != row ==> board[r, c] == old(board[r, c])
      ensures forall r, c, t, pl :: OnBoard(r, c) && r != row && old(Holds(r, c, t, pl)) ==> Holds(r, c, t, pl)
    {
      for col := 0 to 8
        invariant Valid() && board == old(board) && pieceManager == old(pieceManager)
        invariant |old(pieces)| <= |pieces| && forall k :: 0 <= k < |old(pieces)| ==> pieces[k] == old(pieces[k])
        invariant forall c :: 0 <= c < col ==> Holds(row, c, RowType(major, c), player)
        invariant forall r, c :: 0 <= r < 8 && 0 <= c < 8 && r != row ==> board[r, c] == old(board[r, c])
        invariant forall r, c, t, pl :: OnBoard(r, c) && r != row && old(Holds(r, c, t, pl)) ==> Holds(r, c, t, pl)
      {
        var t := RowType(major, col);
        ghost var before := pieces;
        var id := NewPiece(Construct(Square(row, col), player, t));
        PlacePiece(row, col, Some(id));
        assert forall k :: 0 <= k < |before| ==> pieces[k] == before[k];
      }
    }

    /** `initializeBoard`: player1's rows, then player2's, by the colour of player1. */
    method InitializeBoard(player1: Player, player2: Player)
      requires Valid()
      modifies this, board
      ensures Valid() && board == old(board) && pieceManager == old(pieceManager)
      ensures |old(pieces)| <= |pieces|
      ensures forall r, c :: OnBoard(r, c) && StartCell(player1, player2, r, c).Some? ==>
                Holds(r, c, StartCell(player1, player2, r, c).value.0, StartCell(player1, player2, r, c).value.1)
      ensures forall r, c :: OnBoard(r, c) && StartCell(player1, player2, r, c).None? ==> board[r, c] == old(board[r, c])
    {
      var major1 := if player1.IsWhite() then WhiteMajorPieceRow else BlackMajorPieceRow;
      var major2 := if player1.IsWhite() then BlackMajorPieceRow else WhiteMajorPieceRow;
      var pawns1 := if player1.IsWhite() then WhitePawnRow else BlackPawnRow;
      var pawns2 := if player1.IsWhite() then BlackPawnRow else WhitePawnRow;
      PlaceRow(major1, player1, true);
      label First:
      PlaceRow(major2, player2, true);
      label Second:
      PlaceRow(pawns1, player1, false);
      label Third:
      PlaceRow(pawns2, player2, false);
      forall r, c | OnBoard(r, c) && StartCell(player1, player2, r, c).Some?
        ensures Holds(r, c, StartCell(player1, player2, r, c).value.0, StartCell(player1, player2, r, c).value.1)
      {
        var t, pl := StartCell(player1, player2, r, c).value.0, StartCell(player1, player2, r, c).value.1;
        if r == major1 {
          assert t == RowType(true, c) && pl == player1;
          assert old@First(Holds(r, c, t, pl));
          assert old@Second(Holds(r, c, t, pl));
          assert old@Third(Holds(r, c, t, pl));
        } else if r == major2 {
          assert t == RowType(true, c) && pl == player2;
          assert old@Second(Holds(r, c, t, pl));
          assert old@Third(Holds(r, c, t, pl));
        } else if r == pawns1 {
          assert t == RowType(false, c) && pl == player1;
          assert old@Third(Holds(r, c, t, pl));
        } else {
          assert r == pawns2 && t == RowType(false, c) && pl == player2;
        }
      }
    }

    /** `initializePieceManager`: a new registry built from the grid, row by row. */
    method InitializePieceManager()
      requires Valid()
      modifies this
      ensures Valid() && board == old(board) && pieces == old(pieces)
      ensures pieceManager != null && fresh(pieceManager) && Registry() == Build(Snap())
    {
      pieceManager := new PieceManager(Snap());
    }

    /**
     * `init(player1, player2)`: the grid cleared, the starting layout placed with new pieces, and
     * a registry built for it.
     */
    method Init(player1: Player, player2: Player)
      requires Valid()
      modifies this, board
      ensures Valid() && board == old(board) && pieceManager != null && fresh(pieceManager)
      ensures forall r, c :: OnBoard(r, c) ==>
                match StartCell(player1, player2, r, c)
                case None => board[r, c] == None
                case Some(tp) => Holds(r, c, tp.0, tp.1)
      ensures Registry() == Build(Snap())
    {
      ClearBoard();
      InitializeBoard(player1, player2);
      InitializePieceManager();
    }

    // ------------------------------------------------------------ castling flags and FEN import

    /** `markAllKingsAndRooksAsMoved`: every cell in turn; a piece with the mixin gets `setHasMoved(true)`. */
    method MarkAllKingsAndRooksAsMoved()
      requires Valid()
      modifies this
      ensures Valid() && board == old(board) && pieceManager == old(pieceManager)
      ensures Snap() == MarkAllMoved(old(Snap()))
    {
      ghost var start := Snap();
      for row := 0 to 8
        invariant Valid() && board == old(board) && pieceManager == old(pieceManager)
        invariant Snap().cells == start.cells
        invariant pieces == MarkAmong(start.pieces, Occupants(start.cells[..row]))
      {
        OccupantsSnoc(start.cells, row);
        MarkRank(start, Occupants(start.cells[..row]), row);
      }
      assert start.cells[..8] == start.cells;
    }

    /** The inner loop of `markAllKingsAndRooksAsMoved`: the cells of one row, left to right. */
    method MarkRank(ghost start: Position, ghost done: seq<PieceId>, row: int)
      requires Valid() && 0 <= row < 8 && Snap().cells == start.cells && |start.pieces| == |pieces|
      requires pieces == MarkAmong(start.pieces, done)
      modifies this
      ensures Valid() && board == old(board) && pieceManager == old(pieceManager)
      ensures Snap().cells == start.cells
      ensures pieces == MarkAmong(start.pieces, done + RowOccupants(start.cells[row]))
    {
      assert done + RowOccupants(start.cells[row][..0]) == done;
      for col := 0 to 8
        invariant Valid() && board == old(board) && pieceManager == old(pieceManager)
        invariant Snap().cells == start.cells
        invariant pieces == MarkAmong(start.pieces, done + RowOccupants(start.cells[row][..col]))
      {
        ghost var walked := done + RowOccupants(start.cells[row][..col]);
        assert start.cells[row][..col + 1][..col] == start.cells[row][..col];
        var piece := board[row, col];
        assert piece == start.cells[row][col];
        if piece.Some? {
          assert walked + [piece.value] == done + RowOccupants(start.cells[row][..col + 1]);
          MarkAmongSnoc(start.pieces, walked, piece.value);
          if pieces[piece.value].HasMoveStatus() {
            SetPiece(piece.value, WithHasMoved(pieces[piece.value], true));
          }
        }
      }
      assert start.cells[row][..8] == start.cells[row];
    }

    /** `markKingAndRookAsNotMoved(row, kingCol, rookCol)`: the King, then the Rook, if they are instances. */
    method MarkKingAndRookAsNotMoved(row: int, kingCol: int, rookCol: int)
      requires Valid() && OnBoard(row, kingCol) && OnBoard(row, rookCol)
      modifies this
      ensures Valid() && board == old(board) && pieceManager == old(pieceManager)
      ensures Snap() == UnmarkKingAndRook(old(Snap()), row, kingCol, rookCol)
    {
      var king := board[row, kingCol];
      if king.Some? && pieces[king.value].IsInstance(King) {
        SetPiece(king.value, pieces[king.value].(hasMoved := Some(false)));
      }
      var rook := board[row, rookCol];
      if rook.Some? && pieces[rook.value].IsInstance(Rook) {
        SetPiece(rook.value, pieces[rook.value].(hasMoved := Some(false)));
      }
    }

    /** `setCastlingFlags(castlingAvailability)`. */
    method SetCastlingFlags(castlingAvailability: string)
      requires Valid()
      modifies this
      ensures Valid() && board == old(board) && pieceManager == old(pieceManager)
      ensures Snap() == CastlingFlags(old(Snap()), castlingAvailability)
    {
      MarkAllKingsAndRooksAsMoved();
      if 'K' in castlingAvailability {
        MarkKingAndRookAsNotMoved(WhiteMajorPieceRow, KingColumn, RookColumn2);
      }
      if 'Q' in castlingAvailability {
        MarkKingAndRookAsNotMoved(WhiteMajorPieceRow, KingColumn, RookColumn1);
      }
      if 'k' in castlingAvailability {
        MarkKingAndRookAsNotMoved(BlackMajorPieceRow, KingColumn, RookColumn2);
      }
      if 'q' in castlingAvailability {
        MarkKingAndRookAsNotMoved(BlackMajorPieceRow, KingColumn, RookColumn1);
      }
    }

    /**
     * The inner loop of `initializeBoardFromFEN`: the characters of rank `row` from column 0,
     * stopping at the first error.
     */
    method ReadRank(row: int, text: string, whitePlayer: Player, blackPlayer: Player) returns (error: Option<string>)
      requires Valid()
      modifies this, board
      ensures Valid() && board == old(board) && pieceManager == old(pieceManager)
      ensures error.Some? <==> ScanFrom(old(Snap()), row, 0, text, whitePlayer, blackPlayer).Err?
      ensures error.Some? ==> error.value == ScanFrom(old(Snap()), row, 0, text, whitePlayer, blackPlayer).message
      ensures error.None? ==> Snap() == ScanFrom(old(Snap()), row, 0, text, whitePlayer, blackPlayer).value.0
      ensures Snap() == ScanFromLeft(old(Snap()), row, 0, text, whitePlayer, blackPlayer)
    {
      ghost var total := ScanFrom(Snap(), row, 0, text, whitePlayer, blackPlayer);
      ghost var left := ScanFromLeft(Snap(), row, 0, text, whitePlayer, blackPlayer);
      var col := 0;
      assert text[0..] == text;
      for i := 0 to |text|
        invariant Valid() && board == old(board) && pieceManager == old(pieceManager)
        invariant total == ScanFrom(Snap(), row, col, text[i..], whitePlayer, blackPlayer)
        invariant left == ScanFromLeft(Snap(), row, col, text[i..], whitePlayer, blackPlayer)
      {
        var ch := text[i];
        assert text[i..][0] == ch && text[i..][1..] == text[i + 1..];
        if IsDigit(ch) {
          col := col + DigitValue(ch);
        } else {
          var piece := FenToPiece(ch, whitePlayer, blackPlayer, row, col);
          if piece.Err? {
            return Some(piece.message);
          }
          if !OnBoard(row, col) {
            return Some("Square outside the board");
          }
          var id := NewPiece(piece.value);
          PlacePiece(row, col, Some(id));
          col := col + 1;
        }
      }
      error := None;
    }

    /** The outer loop of `initializeBoardFromFEN`: the ranks from the top, stopping at the first error. */
    method ReadRanks(rows: seq<string>, whitePlayer: Player, blackPlayer: Player) returns (error: Option<string>)
      requires Valid()
      modifies this, board
      ensures Valid() && board == old(board)
      ensures error.Some? <==> ScanRowsFrom(old(Snap()), 0, rows, whitePlayer, blackPlayer).Err?
      ensures error.Some? ==> error.value == ScanRowsFrom(old(Snap()), 0, rows, whitePlayer, blackPlayer).message
      ensures error.None? ==> Snap() == ScanRowsFrom(old(Snap()), 0, rows, whitePlayer, blackPlayer).value
      ensures Snap() == ScanRowsLeft(old(Snap()), 0, rows, whitePlayer, blackPlayer)
      ensures pieceManager == old(pieceManager)
    {
      ghost var total := ScanRowsFrom(Snap(), 0, rows, whitePlayer, blackPlayer);
      ghost var left := ScanRowsLeft(Snap(), 0, rows, whitePlayer, blackPlayer);
      assert rows[0..] == rows;
      for row := 0 to |rows|
        invariant Valid() && board == old(board) && pieceManager == old(pieceManager)
        invariant total == ScanRowsFrom(Snap(), row, rows[row..], whitePlayer, blackPlayer)
        invariant left == ScanRowsLeft(Snap(), row, rows[row..], whitePlayer, blackPlayer)
      {
        assert rows[row..][0] == rows[row] && rows[row..][1..] == rows[row + 1..];
        error := ReadRank(row, rows[row], whitePlayer, blackPlayer);
        if error.Some? {
          return;
        }
      }
      assert rows[|rows|..] == [];
      return None;
    }

    /**
     * `initializeBoardFromFEN(fenString, player1, player2)`: the placement loop over ranks and
     * characters, the castling flags, then a new registry. On an error the board is left as the
     * loop left it, as in the source.
     */
    method InitializeBoardFromFEN(fenString: string, player1: Player, player2: Player)
      returns (r: Result<BoardContext>)
      requires Valid()
      modifies this, board
      ensures Valid() && board == old(board)
      ensures r.Ok? <==> ImportFen(old(Snap()), fenString, player1, player2).Ok?
      ensures r.Err? ==> r.message == ImportFen(old(Snap()), fenString, player1, player2).message
      ensures r.Ok? ==> Snap() == ImportFen(old(Snap()), fenString, player1, player2).value.0 &&
                        r.value == ImportFen(old(Snap()), fenString, player1, player2).value.1
      ensures r.Ok? ==> pieceManager != null && fresh(pieceManager) && Registry() == Build(Snap())
      ensures Snap() == ImportState(old(Snap()), fenString, player1, player2)
      ensures r.Err? ==> pieceManager == old(pieceManager)
    {
      ClearBoard();
      var fields := Split(fenString, ' ');
      var whitePlayer := if player1.IsWhite() then player1 else player2;
      var blackPlayer := if player1.IsWhite() then player2 else player1;
      var error := ReadRanks(Split(fields[0], '/'), whitePlayer, blackPlayer);
      if error.Some? {
        return Err(error.value);
      }
      r := FinishFen(fields);
    }

    /** The tail of `initializeBoardFromFEN`: the castling flags, the en-passant field, a new registry. */
    method FinishFen(fields: seq<string>) returns (r: Result<BoardContext>)
      requires Valid()
      modifies this
      ensures Valid() && board == old(board)
      ensures r.Ok? <==> FinishImport(old(Snap()), fields).Ok?
      ensures r.Err? ==> r.message == FinishImport(old(Snap()), fields).message
      ensures r.Ok? ==> Snap() == FinishImport(old(Snap()), fields).value.0 &&
                        r.value == FinishImport(old(Snap()), fields).value.1
      ensures r.Ok? ==> pieceManager != null && fresh(pieceManager) && Registry() == Build(Snap())
      ensures Snap() == FinishState(old(Snap()), fields)
      ensures r.Err? ==> pieceManager == old(pieceManager)
    {
      if |fields| < 3 {
        MarkAllKingsAndRooksAsMoved();
        return Err("Cannot read properties of undefined (reading 'includes')");
      }
      SetCastlingFlags(fields[2]);
      if |fields| < 4 || fields[3] != "-" {
        return Err("Square.getSquareFromNotation is not a function");
      }
      InitializePieceManager();
      r := Ok(BoardContext(fields[1], Field(fields, 4), Field(fields, 5)));
    }

    // ------------------------------------------------------------ queries

    /** `isEmpty(row, col)`. */
    function IsEmpty(row: int, col: int): (b: bool)
      reads this, board, pieceManager
      requires Valid() && 0 <= row < 8
      ensures b == Positions.IsEmpty(Snap(), row, col)
    {
      0 <= col < 8 && board[row, col] == None
    }

    /** `getPieceAt(row, col)`. */
    function GetPieceAt(row: int, col: int): (p: Cell)
      reads this, board, pieceManager
      requires Valid() && OnBoard(row, col)
      ensures p == At(Snap(), row, col)
    {
      board[row, col]
    }

    /** `isOccupiedByOpponent(row, col, player)`. */
    function IsOccupiedByOpponent(row: int, col: int, player: Player): (b: bool)
      reads this, board, pieceManager
      requires Valid() && OnBoard(row, col)
      ensures b == Positions.IsOccupiedByOpponent(Snap(), row, col, player)
    {
      board[row, col].Some? && !pieces[board[row, col].value].player.Equals(Some(player))
    }

    /** `isKingInCheck(player, moveHistory)` against the board's own registry. */
    function IsKingInCheck(player: Player, last: Option<Move>): (b: bool)
      reads this, board, pieceManager
      requires Valid() && pieceManager != null && LastOk(Snap(), last)
      ensures b == KingInCheck(Snap(), Registry(), player, last)
    {
      KingInCheck(Snap(), pieceManager.piecesByPlayer, player, last)
    }

    /** `isSquareAttackedByOpponent(row, col, player)` against the board's own registry. */
    function IsSquareAttackedByOpponent(row: int, col: int, player: Player): (b: bool)
      reads this, board, pieceManager
      requires Valid() && pieceManager != null
      ensures b == SquareAttackedByOpponent(Snap(), Registry(), row, col, player)
    {
      SquareAttackedByOpponent(Snap(), pieceManager.piecesByPlayer, row, col, player)
    }

    /** The loop of `copy`: every occupied cell of this grid is written to the same cell of `grid`. */
    method CopyCellsInto(grid: array2<Cell>)
      requires Valid() && grid != board && grid.Length0 == 8 && grid.Length1 == 8
      requires forall r, c :: 0 <= r < 8 && 0 <= c < 8 ==> grid[r, c] == None
      modifies grid
      ensures forall r, c :: 0 <= r < 8 && 0 <= c < 8 ==> grid[r, c] == board[r, c]
    {
      for row := 0 to 8
        invariant forall r, c :: 0 <= r < 8 && 0 <= c < 8 ==> grid[r, c] == if r < row then board[r, c] else None
      {
        for col := 0 to 8
          invariant forall r, c :: 0 <= r < 8 && 0 <= c < 8 ==>
                      grid[r, c] == if r < row || (r == row && c < col) then board[r, c] else None
        {
          var currentPiece := board[row, col];
          if currentPiece != None {
            grid[row, col] := currentPiece;
          }
        }
      }
    }

    /**
     * `copy`: a new board whose grid refers, cell for cell, to copies of the pieces, with a
     * registry built from that grid. The original is not changed.
     */
    method Copy() returns (copiedBoard: ChessBoard)
      requires Valid()
      ensures fresh(copiedBoard) && fresh(copiedBoard.board) && copiedBoard.Valid()
      ensures copiedBoard.Snap() == CopyPosition(old(Snap()))
      ensures copiedBoard.pieceManager != null && copiedBoard.Registry() == Build(copiedBoard.Snap())
    {
      var source := Snap();
      copiedBoard := new ChessBoard();
      copiedBoard.pieces := CopyPosition(source).pieces;
      CopyCellsInto(copiedBoard.board);
      SameGrid(copiedBoard.Snap(), CopyPosition(source));
      assert copiedBoard.Snap() == CopyPosition(source);
      copiedBoard.InitializePieceManager();
    }
  }
}
