/**
 * What executing, undoing and redoing a move does to the board, stated over all boards on which
 * the move was generated: the pieces stand where the move says, and the squares it moves to are
 * free (or hold the captured piece).
 */
module MoveLaws {
  import opened Wrappers
  import opened Squares
  import opened Players
  import opened Pieces
  import opened Positions
  import opened Moves

  /** The piece in slot `id` stands on `s`, and the grid agrees. */
  predicate Placed(pos: Position, id: PieceId, s: Square) {
    Valid(pos) && id < |pos.pieces| && InBounds(s) && pos.pieces[id].square == s &&
    At(pos, s.row, s.col) == Some(id)
  }

  /** The board a plain move or an en passant capture was generated on. */
  predicate PlainSetting(pos: Position, m: Move) {
    MoveOk(pos, m) && m.variant.Plain? &&
    Placed(pos, m.piece, m.startSquare) && m.startSquare != m.endSquare &&
    match m.capturedPiece
    case None => At(pos, m.endSquare.row, m.endSquare.col) == None
    case Some(c) => c != m.piece && Placed(pos, c, m.endSquare) && pos.pieces[c].alive
  }

  /** After a plain move the mover stands on the end square, its start is empty, the captured piece is dead. */
  lemma {:induction false} PlainExecuteEffect(pos: Position, m: Move)
    requires PlainSetting(pos, m)
    ensures var e := Execute(pos, m).pos;
      Placed(e, m.piece, m.endSquare) &&
      At(e, m.startSquare.row, m.startSquare.col) == None &&
      (m.capturedPiece.Some? ==> !e.pieces[m.capturedPiece.value].alive) &&
      (forall i, j :: OnBoard(i, j) && Square(i, j) != m.startSquare && Square(i, j) != m.endSquare
         ==> At(e, i, j) == At(pos, i, j))
  {
  }

  /**
   * Undoing a plain move right after executing it gives back the board it started from; the
   * only difference is the mover's moved flag, which `execute` set (the history clears it).
   */
  lemma {:induction false} PlainUndoRestores(pos: Position, m: Move)
    requires PlainSetting(pos, m)
    ensures var o := Execute(pos, m);
      MoveOk(o.pos, o.move) && Executed(o.move) && Undo(o.pos, o.move) == MarkMoved(pos, m.piece, true)
  {
    var o := Execute(pos, m);
    var u := Undo(o.pos, o.move);
    var w := MarkMoved(pos, m.piece, true);
    if m.capturedPiece.None? {
      QuietUndoCells(pos, m);
      QuietUndoPieces(pos, m);
    } else {
      CaptureUndoCells(pos, m);
      CaptureUndoPieces(pos, m);
    }
    assert u == Position(u.cells, u.pieces);
  }

  lemma QuietUndoCells(pos: Position, m: Move)
    requires PlainSetting(pos, m) && m.capturedPiece.None?
    ensures var o := Execute(pos, m);
      MoveOk(o.pos, o.move) && Executed(o.move) && Undo(o.pos, o.move).cells == pos.cells
  {
    var o := Execute(pos, m);
    var e1 := Shift(pos, m.piece, m.endSquare);
    assert o.pos == MarkMoved(e1, m.piece, true);
    var u := Shift(o.pos, m.piece, m.startSquare);
    assert Undo(o.pos, o.move) == u;
    forall i, j | OnBoard(i, j) ensures At(u, i, j) == At(pos, i, j) {
    }
    SameGrid(u, pos);
  }

  lemma QuietUndoPieces(pos: Position, m: Move)
    requires PlainSetting(pos, m) && m.capturedPiece.None?
    ensures var o := Execute(pos, m);
      MoveOk(o.pos, o.move) && Executed(o.move) &&
      Undo(o.pos, o.move).pieces == MarkMoved(pos, m.piece, true).pieces
  {
    var o := Execute(pos, m);
    var e1 := Shift(pos, m.piece, m.endSquare);
    assert o.pos == MarkMoved(e1, m.piece, true);
    var u := Shift(o.pos, m.piece, m.startSquare);
    assert Undo(o.pos, o.move) == u;
  }

  lemma CaptureUndoCells(pos: Position, m: Move)
    requires PlainSetting(pos, m) && m.capturedPiece.Some?
    ensures var o := Execute(pos, m);
      MoveOk(o.pos, o.move) && Executed(o.move) && Undo(o.pos, o.move).cells == pos.cells
  {
    var c := m.capturedPiece.value;
    var o := Execute(pos, m);
    assert o.pos == MarkMoved(Shift(RemovePiece(SetAlive(pos, c, false), c), m.piece, m.endSquare), m.piece, true);
    assert Undo(o.pos, o.move) == AddPiece(Relocate(SetAlive(Shift(o.pos, m.piece, m.startSquare), c, true), c, m.endSquare), c);
    CaptureUndoGrid(pos, m, o.pos);
  }

  /** Undoing a capture from the board it left puts the grid back. */
  lemma CaptureUndoGrid(pos: Position, m: Move, e: Position)
    requires PlainSetting(pos, m) && m.capturedPiece.Some?
    requires e == MarkMoved(Shift(RemovePiece(SetAlive(pos, m.capturedPiece.value, false), m.capturedPiece.value),
                                  m.piece, m.endSquare), m.piece, true)
    ensures var c := m.capturedPiece.value;
      AddPiece(Relocate(SetAlive(Shift(e, m.piece, m.startSquare), c, true), c, m.endSquare), c).cells == pos.cells
  {
    var c := m.capturedPiece.value;
    var u := AddPiece(Relocate(SetAlive(Shift(e, m.piece, m.startSquare), c, true), c, m.endSquare), c);
    forall i, j | OnBoard(i, j) ensures At(u, i, j) == At(pos, i, j) {
    }
    SameGrid(u, pos);
  }


  lemma CaptureUndoPieces(pos: Position, m: Move)
    requires PlainSetting(pos, m) && m.capturedPiece.Some?
    ensures var o := Execute(pos, m);
      MoveOk(o.pos, o.move) && Executed(o.move) &&
      Undo(o.pos, o.move).pieces == MarkMoved(pos, m.piece, true).pieces
  {
    var c := m.capturedPiece.value;
    var o := Execute(pos, m);
    assert o.pos == MarkMoved(Shift(RemovePiece(SetAlive(pos, c, false), c), m.piece, m.endSquare), m.piece, true);
    assert Undo(o.pos, o.move) == AddPiece(Relocate(SetAlive(Shift(o.pos, m.piece, m.startSquare), c, true), c, m.endSquare), c);
    CaptureUndoSlots(pos, m, o.pos);
  }

  /** Undoing a capture from the board it left puts every piece record back but the mover's moved flag. */
  lemma CaptureUndoSlots(pos: Position, m: Move, e: Position)
    requires PlainSetting(pos, m) && m.capturedPiece.Some?
    requires e == MarkMoved(Shift(RemovePiece(SetAlive(pos, m.capturedPiece.value, false), m.capturedPiece.value),
                                  m.piece, m.endSquare), m.piece, true)
    ensures var c := m.capturedPiece.value;
      AddPiece(Relocate(SetAlive(Shift(e, m.piece, m.startSquare), c, true), c, m.endSquare), c).pieces ==
      MarkMoved(pos, m.piece, true).pieces
  {
    var c := m.capturedPiece.value;
    var u := AddPiece(Relocate(SetAlive(Shift(e, m.piece, m.startSquare), c, true), c, m.endSquare), c);
    var w := MarkMoved(pos, m.piece, true);
    assert |u.pieces| == |w.pieces|;
    forall k | 0 <= k < |u.pieces| ensures u.pieces[k] == w.pieces[k] {
      CaptureUndoSlot(pos, m, e, k);
    }
  }

  /** `CaptureUndoSlots` for one slot `k`. */
  lemma CaptureUndoSlot(pos: Position, m: Move, e: Position, k: nat)
    requires PlainSetting(pos, m) && m.capturedPiece.Some? && k < |pos.pieces|
    requires e == MarkMoved(Shift(RemovePiece(SetAlive(pos, m.capturedPiece.value, false), m.capturedPiece.value),
                                  m.piece, m.endSquare), m.piece, true)
    ensures var c := m.capturedPiece.value;
      AddPiece(Relocate(SetAlive(Shift(e, m.piece, m.startSquare), c, true), c, m.endSquare), c).pieces[k] ==
      MarkMoved(pos, m.piece, true).pieces[k]
  {
    var c := m.capturedPiece.value;
    var u := AddPiece(Relocate(SetAlive(Shift(e, m.piece, m.startSquare), c, true), c, m.endSquare), c);
    if k == c {
      assert u.pieces[k] == pos.pieces[c];
    } else if k == m.piece {
      assert u.pieces[k] == e.pieces[k].(square := m.startSquare);
    } else {
      assert u.pieces[k] == pos.pieces[k];
    }
  }


  // ---------------------------------------------------------------- castling

  /** The board a castling move is generated on: king and unmoved rook in place, both targets free. */
  predicate CastlingSetting(pos: Position, m: Move) {
    MoveOk(pos, m) && m.variant.Castling? && m.capturedPiece.None? &&
    Placed(pos, m.piece, m.startSquare) &&
    Placed(pos, m.variant.rook, m.variant.rookStartSquare) &&
    pos.pieces[m.variant.rook].hasMoved == Some(false) &&
    At(pos, m.endSquare.row, m.endSquare.col) == None &&
    At(pos, m.variant.rookEndSquare.row, m.variant.rookEndSquare.col) == None &&
    Distinct4(m.startSquare, m.endSquare, m.variant.rookStartSquare, m.variant.rookEndSquare)
  }

  predicate Distinct4(a: Square, b: Square, c: Square, d: Square) {
    a != b && a != c && a != d && b != c && b != d && c != d
  }

  /** The cell (i, j) after `Shift`, for one cell at a time. */
  lemma ShiftCell(pos: Position, id: PieceId, s: Square, i: int, j: int)
    requires Valid(pos) && id < |pos.pieces| && InBounds(s) && OnBoard(i, j)
    ensures At(Shift(pos, id, s), i, j) ==
      if Square(i, j) == s then Some(id)
      else if Square(i, j) == pos.pieces[id].square then None
      else At(pos, i, j)
  {
  }

  /** What cell (i, j) holds once king and rook have castled. */
  function CastledCell(pos: Position, m: Move, i: int, j: int): Cell
    requires CastlingSetting(pos, m) && OnBoard(i, j)
  {
    if Square(i, j) == m.variant.rookEndSquare then Some(m.variant.rook)
    else if Square(i, j) == m.variant.rookStartSquare then None
    else if Square(i, j) == m.endSquare then Some(m.piece)
    else if Square(i, j) == m.startSquare then None
    else At(pos, i, j)
  }

  /** The grid after a castling move: king and rook on their end squares, their start squares empty. */
  lemma CastlingExecuteCells(pos: Position, m: Move)
    requires CastlingSetting(pos, m)
    ensures var e := Execute(pos, m).pos;
      forall i, j | OnBoard(i, j) :: At(e, i, j) == CastledCell(pos, m, i, j)
  {
    var rook := m.variant.rook;
    var ks, ke, rs, re := m.startSquare, m.endSquare, m.variant.rookStartSquare, m.variant.rookEndSquare;
    var e0 := Shift(pos, m.piece, ke);
    var e1 := MarkMoved(e0, m.piece, true);
    var e2 := Shift(e1, rook, re);
    assert Execute(pos, m).pos == MarkMoved(e2, rook, true);
    forall i, j | OnBoard(i, j) ensures At(e2, i, j) ==
        if Square(i, j) == re then Some(rook) else if Square(i, j) == rs then None
        else if Square(i, j) == ke then Some(m.piece) else if Square(i, j) == ks then None
        else At(pos, i, j) {
      ShiftCell(pos, m.piece, ke, i, j);
      ShiftCell(e1, rook, re, i, j);
    }
  }

  /** The pieces after a castling move: king and rook relocated and flagged moved. */
  lemma CastlingExecutePieces(pos: Position, m: Move)
    requires CastlingSetting(pos, m)
    ensures var e := Execute(pos, m).pos;
      |e.pieces| == |pos.pieces| &&
      e.pieces[m.piece] == MarkMoved(pos, m.piece, true).pieces[m.piece].(square := m.endSquare) &&
      e.pieces[m.variant.rook] == pos.pieces[m.variant.rook].(square := m.variant.rookEndSquare,
                                                              hasMoved := Some(true)) &&
      forall k | 0 <= k < |pos.pieces| && k != m.piece && k != m.variant.rook :: e.pieces[k] == pos.pieces[k]
  {
    var rook := m.variant.rook;
    var e0 := Shift(pos, m.piece, m.endSquare);
    var e1 := MarkMoved(e0, m.piece, true);
    var e2 := Shift(e1, rook, m.variant.rookEndSquare);
    var e := MarkMoved(e2, rook, true);
    assert Execute(pos, m).pos == e;
    assert e1.pieces[m.piece] == MarkMoved(pos, m.piece, true).pieces[m.piece].(square := m.endSquare);
  }

  lemma CastlingUndoCells(pos: Position, m: Move)
    requires CastlingSetting(pos, m)
    ensures var o := Execute(pos, m);
      MoveOk(o.pos, o.move) && Executed(o.move) && Undo(o.pos, o.move).cells == pos.cells
  {
    var o := Execute(pos, m);
    CastlingExecuteCells(pos, m);
    CastlingExecutePieces(pos, m);
    assert o.move == m;
    CastlingUndoGrid(pos, o.pos, m);
  }

  /** Undoing a castling move from any board laid out as the move left it. */
  lemma CastlingUndoGrid(pos: Position, e: Position, m: Move)
    requires CastlingSetting(pos, m) && MoveOk(e, m)
    requires e.pieces[m.piece].square == m.endSquare
    requires e.pieces[m.variant.rook].square == m.variant.rookEndSquare
    requires forall i, j | OnBoard(i, j) :: At(e, i, j) == CastledCell(pos, m, i, j)
    ensures Undo(e, m).cells == pos.cells
  {
    var rook := m.variant.rook;
    var u1 := Shift(e, m.piece, m.startSquare);
    var u2 := Shift(u1, rook, m.variant.rookStartSquare);
    assert Undo(e, m).cells == u2.cells;
    forall i, j | OnBoard(i, j) ensures At(u2, i, j) == At(pos, i, j) {
      ShiftCell(e, m.piece, m.startSquare, i, j);
      ShiftCell(u1, rook, m.variant.rookStartSquare, i, j);
    }
    SameGrid(u2, pos);
  }

  lemma CastlingUndoPieces(pos: Position, m: Move)
    requires CastlingSetting(pos, m)
    ensures var o := Execute(pos, m);
      MoveOk(o.pos, o.move) && Executed(o.move) &&
      Undo(o.pos, o.move).pieces == MarkMoved(pos, m.piece, true).pieces
  {
    var o := Execute(pos, m);
    CastlingExecutePieces(pos, m);
    assert o.move == m;
    CastlingUndoSlots(pos, o.pos, m);
  }

  /** Undoing a castling move from any board whose pieces are as the move left them. */
  lemma CastlingUndoSlots(pos: Position, e: Position, m: Move)
    requires CastlingSetting(pos, m) && MoveOk(e, m) && |e.pieces| == |pos.pieces|
    requires e.pieces[m.piece] == MarkMoved(pos, m.piece, true).pieces[m.piece].(square := m.endSquare)
    requires e.pieces[m.variant.rook] ==
               pos.pieces[m.variant.rook].(square := m.variant.rookEndSquare, hasMoved := Some(true))
    requires forall k | 0 <= k < |pos.pieces| && k != m.piece && k != m.variant.rook ::
               e.pieces[k] == pos.pieces[k]
    ensures Undo(e, m).pieces == MarkMoved(pos, m.piece, true).pieces
  {
    var rook := m.variant.rook;
    var u1 := Shift(e, m.piece, m.startSquare);
    var u2 := Shift(u1, rook, m.variant.rookStartSquare);
    var u := MarkMoved(u2, rook, false);
    assert Undo(e, m) == u;
    var w := MarkMoved(pos, m.piece, true);
    forall k | 0 <= k < |u.pieces| ensures u.pieces[k] == w.pieces[k] {
      if k == rook {
        assert u.pieces[k] == pos.pieces[k];
      } else if k == m.piece {
        assert u.pieces[k] == e.pieces[k].(square := m.startSquare);
      }
    }
  }

  /**
   * Undoing a castling move right after executing it gives back the board: king and rook on
   * their start squares, the rook flagged unmoved again; only the king keeps its moved flag
   * (the history clears it).
   */
  lemma {:induction false} CastlingUndoRestores(pos: Position, m: Move)
    requires CastlingSetting(pos, m)
    ensures var o := Execute(pos, m);
      MoveOk(o.pos, o.move) && Executed(o.move) && Undo(o.pos, o.move) == MarkMoved(pos, m.piece, true)
  {
    CastlingUndoCells(pos, m);
    CastlingUndoPieces(pos, m);
  }

  /**
   * Redoing an undone castling move reproduces the executed board exactly, the rook's moved flag
   * included: `CastlingMove.redo` reaches `CastlingMove.execute` through `Move.redo`.
   */
  lemma {:induction false} CastlingRedoRepeats(pos: Position, m: Move)
    requires CastlingSetting(pos, m)
    ensures var o := Execute(pos, m);
      MoveOk(o.pos, o.move) && Executed(o.move) &&
      var u := Undo(o.pos, o.move);
      MoveOk(u, o.move) && Redo(u, o.move) == o
  {
    CastlingUndoRestores(pos, m);
    var o := Execute(pos, m);
    var u := Undo(o.pos, o.move);
    assert o.move == m;
    assert u == MarkMoved(pos, m.piece, true);
    CastlingExecuteIgnoresKingFlag(pos, m);
    RookShiftIdle(pos, m);
    CastlingRedoIs(u, m);
  }

  /** `redo` of a castling move is its `execute` followed by a second shift of the rook. */
  lemma CastlingRedoIs(u: Position, m: Move)
    requires MoveOk(u, m) && m.variant.Castling?
    ensures var e := CastlingExecute(u, m);
      Redo(u, m) == Outcome(Shift(e.pos, m.variant.rook, m.variant.rookEndSquare), e.move, true)
  {
  }

  /** Executing from a board that differs only in the king's moved flag gives the same result. */
  lemma CastlingExecuteIgnoresKingFlag(pos: Position, m: Move)
    requires CastlingSetting(pos, m)
    ensures CastlingExecute(MarkMoved(pos, m.piece, true), m) == CastlingExecute(pos, m)
  {
    var w := MarkMoved(pos, m.piece, true);
    var a := Shift(w, m.piece, m.endSquare);
    var b := Shift(pos, m.piece, m.endSquare);
    assert a.cells == b.cells;
    assert MarkMoved(a, m.piece, true) == MarkMoved(b, m.piece, true);
  }

  /** After the castling move the rook stands on its end square, so moving it there again changes nothing. */
  lemma RookShiftIdle(pos: Position, m: Move)
    requires CastlingSetting(pos, m)
    ensures var o := Execute(pos, m);
      Shift(o.pos, m.variant.rook, m.variant.rookEndSquare) == o.pos
  {
    var rook := m.variant.rook;
    var o := Execute(pos, m);
    var re := m.variant.rookEndSquare;
    var e1 := MarkMoved(Shift(pos, m.piece, m.endSquare), m.piece, true);
    var e2 := Shift(e1, rook, re);
    assert o.pos == MarkMoved(e2, rook, true);
    assert o.pos.pieces[rook].square == re;
    ShiftInPlace(o.pos, rook, re);
  }

  /** Moving a piece to the square it stands on, with its cell holding it, changes nothing. */
  lemma ShiftInPlace(pos: Position, id: PieceId, s: Square)
    requires Placed(pos, id, s)
    ensures Shift(pos, id, s) == pos
  {
    var t := Shift(pos, id, s);
    forall i, j | OnBoard(i, j) ensures At(t, i, j) == At(pos, i, j) {
    }
    SameGrid(t, pos);
    assert t.pieces == pos.pieces;
  }

  // ---------------------------------------------------------------- en passant

  /**
   * The board an en passant capture is generated on: the capturing pawn on its start square,
   * the target square empty, the captured pawn alive on the square beside it.
   */
  predicate EnPassantSetting(pos: Position, m: Move) {
    MoveOk(pos, m) && m.variant.EnPassant? && m.capturedPiece.Some? &&
    Placed(pos, m.piece, m.startSquare) &&
    At(pos, m.endSquare.row, m.endSquare.col) == None &&
    Placed(pos, m.capturedPiece.value, m.variant.originalSquareBeforeCapture) &&
    pos.pieces[m.capturedPiece.value].alive &&
    pos.pieces[m.capturedPiece.value].IsInstance(Pawn) &&
    m.startSquare != m.endSquare && m.variant.originalSquareBeforeCapture != m.endSquare &&
    m.variant.originalSquareBeforeCapture != m.startSquare
  }

  lemma EnPassantUndoCells(pos: Position, m: Move)
    requires EnPassantSetting(pos, m)
    ensures var o := Execute(pos, m);
      MoveOk(o.pos, o.move) && Executed(o.move) && Undo(o.pos, o.move).cells == pos.cells
  {
    var c := m.capturedPiece.value;
    var os := m.variant.originalSquareBeforeCapture;
    var o := Execute(pos, m);
    assert o.pos == MarkMoved(Shift(RemovePiece(SetAlive(pos, c, false), c), m.piece, m.endSquare), m.piece, true);
    assert o.pos.pieces[c].kind == pos.pieces[c].kind;
    EnPassantUndoIs(o.pos, o.move);
    EnPassantUndoGrid(pos, m, o.pos);
  }

  /** `EnPassantMove.undo` when the captured piece is a pawn: it is revived on its square, then the mover goes back. */
  lemma EnPassantUndoIs(e: Position, m: Move)
    requires MoveOk(e, m) && Executed(m) && m.variant.EnPassant? && m.capturedPiece.Some?
    requires e.pieces[m.capturedPiece.value].IsInstance(Pawn)
    ensures Undo(e, m) == Shift(Shift(SetAlive(e, m.capturedPiece.value, true), m.capturedPiece.value,
                                      m.variant.originalSquareBeforeCapture), m.piece, m.startSquare)
  {
  }

  /** Undoing an en passant capture from the board it left puts the grid back. */
  lemma EnPassantUndoGrid(pos: Position, m: Move, e: Position)
    requires EnPassantSetting(pos, m)
    requires e == MarkMoved(Shift(RemovePiece(SetAlive(pos, m.capturedPiece.value, false), m.capturedPiece.value),
                                  m.piece, m.endSquare), m.piece, true)
    ensures Shift(Shift(SetAlive(e, m.capturedPiece.value, true), m.capturedPiece.value,
                        m.variant.originalSquareBeforeCapture), m.piece, m.startSquare).cells == pos.cells
  {
    var c := m.capturedPiece.value;
    var os := m.variant.originalSquareBeforeCapture;
    var p1 := RemovePiece(SetAlive(pos, c, false), c);
    var v := SetAlive(e, c, true);
    var u1 := Shift(v, c, os);
    var u := Shift(u1, m.piece, m.startSquare);
    forall i, j | OnBoard(i, j) ensures At(u, i, j) == At(pos, i, j) {
      ShiftCell(p1, m.piece, m.endSquare, i, j);
      ShiftCell(v, c, os, i, j);
      ShiftCell(u1, m.piece, m.startSquare, i, j);
    }
    SameGrid(u, pos);
  }


  lemma EnPassantUndoPieces(pos: Position, m: Move)
    requires EnPassantSetting(pos, m)
    ensures var o := Execute(pos, m);
      MoveOk(o.pos, o.move) && Executed(o.move) &&
      Undo(o.pos, o.move).pieces == MarkMoved(pos, m.piece, true).pieces
  {
    var c := m.capturedPiece.value;
    var o := Execute(pos, m);
    var p1 := RemovePiece(SetAlive(pos, c, false), c);
    var e1 := Shift(p1, m.piece, m.endSquare);
    assert o.pos == MarkMoved(e1, m.piece, true);
    assert o.move == m.(isCapture := true);
    assert o.pos.pieces[c] == pos.pieces[c].(alive := false);
    assert o.pos.pieces[m.piece] == MarkMoved(pos, m.piece, true).pieces[m.piece].(square := m.endSquare);
    assert forall k | 0 <= k < |pos.pieces| && k != c && k != m.piece :: o.pos.pieces[k] == pos.pieces[k];
    EnPassantUndoSlots(pos, o.pos, o.move);
  }

  /** Undoing an en passant capture from any board whose pieces are as the capture left them. */
  lemma EnPassantUndoSlots(pos: Position, e: Position, m: Move)
    requires EnPassantSetting(pos, m) && MoveOk(e, m) && |e.pieces| == |pos.pieces|
    requires e.pieces[m.capturedPiece.value] == pos.pieces[m.capturedPiece.value].(alive := false)
    requires e.pieces[m.piece] == MarkMoved(pos, m.piece, true).pieces[m.piece].(square := m.endSquare)
    requires forall k | 0 <= k < |pos.pieces| && k != m.capturedPiece.value && k != m.piece ::
               e.pieces[k] == pos.pieces[k]
    ensures Undo(e, m).pieces == MarkMoved(pos, m.piece, true).pieces
  {
    var c := m.capturedPiece.value;
    var u1 := Shift(SetAlive(e, c, true), c, m.variant.originalSquareBeforeCapture);
    var u := Shift(u1, m.piece, m.startSquare);
    assert Undo(e, m) == u;
    var w := MarkMoved(pos, m.piece, true);
    forall k | 0 <= k < |u.pieces| ensures u.pieces[k] == w.pieces[k] {
      if k == c {
        assert u.pieces[k] == pos.pieces[c];
      } else if k == m.piece {
        assert u.pieces[k] == e.pieces[k].(square := m.startSquare);
      }
    }
  }

  /**
   * Undoing an en passant capture right after executing it puts both pawns back and revives
   * the captured one; only the mover's moved flag can differ, and a pawn has none.
   */
  lemma {:induction false} EnPassantUndoRestores(pos: Position, m: Move)
    requires EnPassantSetting(pos, m)
    ensures var o := Execute(pos, m);
      MoveOk(o.pos, o.move) && Executed(o.move) && Undo(o.pos, o.move) == MarkMoved(pos, m.piece, true)
    ensures !pos.pieces[m.piece].HasMoveStatus() ==>
      Undo(Execute(pos, m).pos, Execute(pos, m).move) == pos
  {
    EnPassantUndoCells(pos, m);
    EnPassantUndoPieces(pos, m);
  }

  // ---------------------------------------------------------------- promotion

  /** The board a promotion is generated on, with a token `promotePiece` accepts. */
  predicate PromotionSetting(pos: Position, m: Move) {
    MoveOk(pos, m) && m.variant.Promotion? && m.variant.promotedPiece.None? &&
    m.piece == m.variant.originalPiece &&
    m.variant.promotionType in {"QUEEN", "ROOK", "BISHOP", "KNIGHT"} &&
    Placed(pos, m.piece, m.startSquare) && m.startSquare != m.endSquare &&
    match m.capturedPiece
    case None => At(pos, m.endSquare.row, m.endSquare.col) == None
    case Some(c) => c != m.piece && Placed(pos, c, m.endSquare) && pos.pieces[c].alive
  }

  /** After a promotion the new piece stands on the end square and the pawn's square is empty. */
  lemma PromotionExecuteCells(pos: Position, m: Move)
    requires PromotionSetting(pos, m)
    ensures var e := Execute(pos, m).pos;
      var n := |pos.pieces|;
      |e.pieces| == n + 1 && e.pieces[n].square == m.endSquare &&
      e.pieces[..n] == TakeCaptured(pos, m).pieces &&
      forall i, j | OnBoard(i, j) :: At(e, i, j) ==
        (if Square(i, j) == m.endSquare then Some(n)
         else if Square(i, j) == m.startSquare then None else At(pos, i, j))
  {
    var o := Execute(pos, m);
    var n := |pos.pieces|;
    var p1 := TakeCaptured(pos, m);
    assert o.ok;
    var np := o.pos.pieces[n];
    var p2 := NewPiece(p1, np);
    var p3 := AddPiece(RemovePiece(p2, m.piece), n);
    assert o.pos == p3;
  }

  /** The board a successful promotion leaves, as `PromotionExecuteCells` describes it. */
  ghost predicate PromotedLayout(pos: Position, e: Position, m: Move)
    requires PromotionSetting(pos, m)
  {
    var n := |pos.pieces|;
    Valid(e) && |e.pieces| == n + 1 && e.pieces[n].square == m.endSquare &&
    e.pieces[..n] == TakeCaptured(pos, m).pieces &&
    forall i, j | OnBoard(i, j) :: At(e, i, j) ==
      (if Square(i, j) == m.endSquare then Some(n)
       else if Square(i, j) == m.startSquare then None else At(pos, i, j))
  }

  /** A promotion leaves the `PromotedLayout` board, and its move names the new piece. */
  lemma PromotedBy(pos: Position, m: Move)
    requires PromotionSetting(pos, m)
    ensures Execute(pos, m).ok && PromotedLayout(pos, Execute(pos, m).pos, m) &&
            Execute(pos, m).move == Promoted(pos, m)
  {
    PromotionExecuteCells(pos, m);
  }

  function Promoted(pos: Position, m: Move): Move
    requires m.variant.Promotion?
  {
    m.(piece := |pos.pieces|, variant := m.variant.(promotedPiece := Some(|pos.pieces|)))
  }

  /** The board the promotion's undo leaves once the promoted piece is lifted and the pawn put back. */
  function Lifted(pos: Position, e: Position, m: Move): Position
    requires PromotionSetting(pos, m) && PromotedLayout(pos, e, m)
  {
    AddPiece(Relocate(RemovePiece(e, |pos.pieces|), m.piece, m.startSquare), m.piece)
  }

  /** `PromotionMove.undo` on the board a promotion left, in terms of `Lifted`. */
  lemma PromotionUndoIs(pos: Position, e: Position, m: Move)
    requires PromotionSetting(pos, m) && PromotedLayout(pos, e, m)
    ensures MoveOk(e, Promoted(pos, m)) && Executed(Promoted(pos, m))
    ensures Undo(e, Promoted(pos, m)) == match m.capturedPiece
      case None => Lifted(pos, e, m)
      case Some(c) => Shift(SetAlive(Lifted(pos, e, m), c, true), c, m.endSquare)
  {
  }

  /** With the promoted piece lifted, the pawn is back on its square and in its slot. */
  lemma LiftedLayout(pos: Position, e: Position, m: Move)
    requires PromotionSetting(pos, m) && PromotedLayout(pos, e, m)
    ensures var l := Lifted(pos, e, m);
      Valid(l) && l.pieces == TakeCaptured(pos, m).pieces + [e.pieces[|pos.pieces|]] &&
      forall i, j | OnBoard(i, j) :: At(l, i, j) ==
        (if Square(i, j) == m.startSquare then Some(m.piece)
         else if Square(i, j) == m.endSquare then None else At(pos, i, j))
  {
    var n := |pos.pieces|;
    var l := Lifted(pos, e, m);
    var w := TakeCaptured(pos, m).pieces + [e.pieces[n]];
    assert forall k | 0 <= k < n :: e.pieces[k] == TakeCaptured(pos, m).pieces[k];
    forall k | 0 <= k < |l.pieces| ensures l.pieces[k] == w[k] {
    }
  }

  lemma PromotionUndoGrid(pos: Position, e: Position, m: Move)
    requires PromotionSetting(pos, m) && PromotedLayout(pos, e, m)
    ensures MoveOk(e, Promoted(pos, m)) && Undo(e, Promoted(pos, m)).cells == pos.cells
  {
    PromotionUndoIs(pos, e, m);
    LiftedLayout(pos, e, m);
    var l := Lifted(pos, e, m);
    match m.capturedPiece {
      case None =>
        SameGrid(l, pos);
      case Some(c) =>
        RevivedGrid(pos, e, m, c);
    }
  }

  /** The captured piece revived and put back on the end square fills the one cell `Lifted` left empty. */
  lemma RevivedGrid(pos: Position, e: Position, m: Move, c: PieceId)
    requires PromotionSetting(pos, m) && PromotedLayout(pos, e, m) && m.capturedPiece == Some(c)
    requires var l := Lifted(pos, e, m);
             Valid(l) &&
             (forall i, j | OnBoard(i, j) ::
                At(l, i, j) == (if Square(i, j) == m.startSquare then Some(m.piece)
                                else if Square(i, j) == m.endSquare then None else At(pos, i, j)))
    ensures Shift(SetAlive(Lifted(pos, e, m), c, true), c, m.endSquare).cells == pos.cells
  {
    var v := SetAlive(Lifted(pos, e, m), c, true);
    var u := Shift(v, c, m.endSquare);
    forall i, j | OnBoard(i, j) ensures At(u, i, j) == At(pos, i, j) {
      ShiftCell(v, c, m.endSquare, i, j);
    }
    SameGrid(u, pos);
  }

  lemma PromotionUndoSlots(pos: Position, e: Position, m: Move)
    requires PromotionSetting(pos, m) && PromotedLayout(pos, e, m)
    ensures MoveOk(e, Promoted(pos, m)) && Undo(e, Promoted(pos, m)).pieces == pos.pieces + [e.pieces[|pos.pieces|]]
  {
    PromotionUndoIs(pos, e, m);
    LiftedLayout(pos, e, m);
    var l := Lifted(pos, e, m);
    var w := pos.pieces + [e.pieces[|pos.pieces|]];
    match m.capturedPiece {
      case None =>
      case Some(c) =>
        var u := Shift(SetAlive(l, c, true), c, m.endSquare);
        forall k | 0 <= k < |u.pieces| ensures u.pieces[k] == w[k] {
          if k == c {
            assert u.pieces[k] == pos.pieces[c];
          }
        }
    }
  }

  /**
   * Undoing a promotion right after executing it gives back the board exactly, the captured
   * piece revived; the promoted piece stays behind in the arena, off the grid.
   */
  lemma {:induction false} PromotionUndoRestores(pos: Position, m: Move)
    requires PromotionSetting(pos, m)
    ensures var o := Execute(pos, m);
      o.ok && MoveOk(o.pos, o.move) && Executed(o.move) &&
      Undo(o.pos, o.move) == NewPiece(pos, o.pos.pieces[|pos.pieces|])
  {
    PromotedBy(pos, m);
    var o := Execute(pos, m);
    PromotionUndoGrid(pos, o.pos, m);
    PromotionUndoSlots(pos, o.pos, m);
  }

  /**
   * Redoing an undone promotion puts the promoted piece back on the end square, as `execute`
   * did, but the captured piece is not killed again: it stays alive, off the grid.
   */
  lemma {:induction false} PromotionRedoRevivesCaptured(pos: Position, m: Move)
    requires PromotionSetting(pos, m)
    ensures var o := Execute(pos, m);
      o.ok && MoveOk(o.pos, o.move) && Executed(o.move) &&
      var u := Undo(o.pos, o.move);
      MoveOk(u, o.move) && Redo(u, o.move).move == o.move &&
      Redo(u, o.move).pos == match m.capturedPiece
        case None => o.pos
        case Some(c) => SetAlive(o.pos, c, true)
  {
    PromotionUndoRestores(pos, m);
    PromotedBy(pos, m);
    PromotionRedoFrom(pos, Execute(pos, m).pos, m);
  }

  /** Redoing a promotion on the board its undo left. */
  lemma PromotionRedoFrom(pos: Position, e: Position, m: Move)
    requires PromotionSetting(pos, m) && PromotedLayout(pos, e, m)
    ensures var u := NewPiece(pos, e.pieces[|pos.pieces|]);
      MoveOk(u, Promoted(pos, m)) && Redo(u, Promoted(pos, m)).move == Promoted(pos, m) &&
      Redo(u, Promoted(pos, m)).pos == match m.capturedPiece
        case None => e
        case Some(c) => SetAlive(e, c, true)
  {
    PromotionRedoIs(pos, e, m);
    var r := Replaced(pos, e, m);
    var target := match m.capturedPiece case None => e case Some(c) => SetAlive(e, c, true);
    ReplacedCells(pos, e, m);
    ReplacedSlots(pos, e, m);
    assert r == Position(r.cells, r.pieces) && target == Position(target.cells, target.pieces);
  }

  /** `PromotionMove.redo` on the undone board: the pawn lifted, the promoted piece put back on the end square. */
  function Replaced(pos: Position, e: Position, m: Move): Position
    requires PromotionSetting(pos, m) && PromotedLayout(pos, e, m)
  {
    var n := |pos.pieces|;
    var u := NewPiece(pos, e.pieces[n]);
    Relocate(AddPiece(RemovePiece(u, m.piece), n), n, m.endSquare)
  }

  lemma PromotionRedoIs(pos: Position, e: Position, m: Move)
    requires PromotionSetting(pos, m) && PromotedLayout(pos, e, m)
    ensures var u := NewPiece(pos, e.pieces[|pos.pieces|]);
      MoveOk(u, Promoted(pos, m)) && Executed(Promoted(pos, m)) &&
      Redo(u, Promoted(pos, m)) == Outcome(Replaced(pos, e, m), Promoted(pos, m), true)
  {
  }

  lemma ReplacedCells(pos: Position, e: Position, m: Move)
    requires PromotionSetting(pos, m) && PromotedLayout(pos, e, m)
    ensures Replaced(pos, e, m).cells == e.cells
  {
    var r := Replaced(pos, e, m);
    forall i, j | OnBoard(i, j) ensures At(r, i, j) == At(e, i, j) {
    }
    SameGrid(r, e);
  }

  lemma ReplacedSlots(pos: Position, e: Position, m: Move)
    requires PromotionSetting(pos, m) && PromotedLayout(pos, e, m)
    ensures Replaced(pos, e, m).pieces == match m.capturedPiece
      case None => e.pieces
      case Some(c) => SetAlive(e, c, true).pieces
  {
    var n := |pos.pieces|;
    var r := Replaced(pos, e, m);
    var target := match m.capturedPiece case None => e case Some(c) => SetAlive(e, c, true);
    assert forall k | 0 <= k < n :: e.pieces[k] == TakeCaptured(pos, m).pieces[k];
    forall k | 0 <= k < |r.pieces| ensures r.pieces[k] == target.pieces[k] {
    }
  }
}
