/**
 * MoveHistory.js: the list of moves made, the redo buffer, and the two FEN clocks.
 *
 * A history's moves act on the board they were generated for, so every operation here takes that
 * board. The effect of each operation on the pair (board, history) is first given as a function on
 * values (`MakeMoveStep`, `UndoStep`, `RedoStep`); the class `MoveHistory` performs it in place and
 * states its result as that function. The lemmas then show that the clocks stay what the moves
 * recorded say they should be, and that undo and redo invert each other on the history.
 */
module History {
  import opened Wrappers
  import opened Squares
  import opened Players
  import opened Pieces
  import opened Positions
  import opened Moves
  import opened Board
  import MoveCommands
  import PawnStrategy

  // ------------------------------------------------------------ what the clocks read off a move

  /** `move.getPiece().getType() === PieceType.PAWN || move.isCapture`: the move resets the halfmove clock. */
  predicate Resets(pos: Position, m: Move)
    requires m.piece < |pos.pieces|
  {
    pos.pieces[m.piece].kind == Pawn || m.isCapture
  }

  /** `move.getPiece().getPlayer().getColor() === PlayerColor.BLACK`. */
  predicate ByBlack(pos: Position, m: Move)
    requires m.piece < |pos.pieces|
  {
    pos.pieces[m.piece].player.color == Black
  }

  /**
   * A move as `execute` leaves it: a promotion's piece is its promoted piece, and any other move
   * with a captured piece is flagged as a capture.
   */
  predicate Settled(m: Move) {
    if m.variant.Promotion? then m.variant.promotedPiece.Some? && m.piece == m.variant.promotedPiece.value
    else m.capturedPiece.Some? ==> m.isCapture
  }

  /** Every move of the list is a move of this board, as `execute` left it. */
  predicate Recorded(pos: Position, ms: seq<Move>) {
    forall k :: 0 <= k < |ms| ==> MoveOk(pos, ms[k]) && Settled(ms[k])
  }

  /**
   * The number of moves at the end of the list since the last pawn move or capture: the value
   * `calculateHalfMoveClockFromHistory` counts.
   */
  function QuietRun(pos: Position, ms: seq<Move>): (n: nat)
    requires Recorded(pos, ms)
    ensures n <= |ms|
    ensures forall k :: |ms| - n <= k < |ms| ==> !Resets(pos, ms[k])
    ensures n < |ms| ==> Resets(pos, ms[|ms| - 1 - n])
    decreases |ms|
  {
    if ms == [] then 0
    else if Resets(pos, ms[|ms| - 1]) then 0
    else QuietRun(pos, ms[..|ms| - 1]) + 1
  }

  /** The number of black moves in the list. */
  function BlackCount(pos: Position, ms: seq<Move>): (n: nat)
    requires Recorded(pos, ms)
    ensures n <= |ms|
    decreases |ms|
  {
    if ms == [] then 0
    else BlackCount(pos, ms[..|ms| - 1]) + if ByBlack(pos, ms[|ms| - 1]) then 1 else 0
  }

  /** `q` is `p` later on: the arena has only grown, and no piece changed its type or its owner. */
  predicate Keeps(p: Position, q: Position) {
    |p.pieces| <= |q.pieces| &&
    forall k :: 0 <= k < |p.pieces| ==> q.pieces[k].kind == p.pieces[k].kind && q.pieces[k].player == p.pieces[k].player
  }

  /** A later board reads the same clocks off a list of moves. */
  lemma {:induction false} KeptCounts(p: Position, q: Position, ms: seq<Move>)
    requires Recorded(p, ms) && Valid(q) && Keeps(p, q)
    ensures Recorded(q, ms)
    ensures QuietRun(q, ms) == QuietRun(p, ms) && BlackCount(q, ms) == BlackCount(p, ms)
    decreases |ms|
  {
    forall k | 0 <= k < |ms| ensures MoveOk(q, ms[k]) {
      MoveOkGrows(p, q, ms[k]);
    }
    if ms != [] {
      var init := ms[..|ms| - 1];
      assert Recorded(p, init) by {
        forall k | 0 <= k < |init| ensures MoveOk(p, init[k]) && Settled(init[k]) {
          assert init[k] == ms[k];
        }
      }
      KeptCounts(p, q, init);
    }
  }

  lemma KeepsTrans(a: Position, b: Position, c: Position)
    requires Keeps(a, b) && Keeps(b, c)
    ensures Keeps(a, c)
  {
  }

  /** Each piece setter and cell write keeps types and owners. */
  lemma StepsKeep(pos: Position, id: PieceId, s: Square, b: bool)
    requires Valid(pos) && id < |pos.pieces| && InBounds(s)
    ensures Keeps(pos, Relocate(pos, id, s)) && Keeps(pos, Shift(pos, id, s))
    ensures Keeps(pos, SetAlive(pos, id, b)) && Keeps(pos, MarkMoved(pos, id, b))
    ensures Keeps(pos, Positions.AddPiece(pos, id)) && Keeps(pos, Positions.RemovePiece(pos, id))
  {
  }

  lemma TakeCapturedKeeps(pos: Position, m: Move)
    requires MoveOk(pos, m)
    ensures Keeps(pos, TakeCaptured(pos, m))
  {
    if m.capturedPiece.Some? {
      var c := m.capturedPiece.value;
      StepsKeep(pos, c, m.endSquare, false);
      StepsKeep(SetAlive(pos, c, false), c, m.endSquare, false);
    }
  }

  lemma BaseExecuteKeeps(pos: Position, m: Move)
    requires MoveOk(pos, m)
    ensures Keeps(pos, BaseExecute(pos, m).pos)
  {
    var p1 := TakeCaptured(pos, m);
    TakeCapturedKeeps(pos, m);
    var p2 := Shift(p1, m.piece, m.endSquare);
    StepsKeep(p1, m.piece, m.endSquare, true);
    StepsKeep(p2, m.piece, m.endSquare, true);
    KeepsTrans(pos, p1, p2);
    KeepsTrans(pos, p2, MarkMoved(p2, m.piece, true));
  }

  lemma CastlingExecuteKeeps(pos: Position, m: Move)
    requires MoveOk(pos, m) && m.variant.Castling?
    ensures Keeps(pos, CastlingExecute(pos, m).pos)
  {
    var b := BaseExecute(pos, m).pos;
    BaseExecuteKeeps(pos, m);
    var rook := m.variant.rook;
    var p1 := Shift(b, rook, m.variant.rookEndSquare);
    StepsKeep(b, rook, m.variant.rookEndSquare, true);
    StepsKeep(p1, rook, m.variant.rookEndSquare, true);
  }

  lemma PromotionExecuteKeeps(pos: Position, m: Move)
    requires MoveOk(pos, m) && m.variant.Promotion?
    ensures Keeps(pos, PromotionExecute(pos, m).pos)
  {
    var p1 := TakeCaptured(pos, m);
    if m.capturedPiece.Some? {
      var c := m.capturedPiece.value;
      StepsKeep(pos, c, m.endSquare, false);
      StepsKeep(SetAlive(pos, c, false), c, m.endSquare, false);
    }
  }

  /** The moves' effects never change a piece's type or owner, and never shrink the arena. */
  lemma ExecuteKeeps(pos: Position, m: Move)
    requires MoveOk(pos, m)
    ensures Keeps(pos, Moves.Execute(pos, m).pos)
  {
    match m.variant
    case Plain => BaseExecuteKeeps(pos, m);
    case EnPassant(_) => BaseExecuteKeeps(pos, m);
    case Castling(_, _, _) => CastlingExecuteKeeps(pos, m);
    case Promotion(_, _, _) => PromotionExecuteKeeps(pos, m);
  }

  lemma BaseUndoKeeps(pos: Position, m: Move)
    requires MoveOk(pos, m)
    ensures Keeps(pos, BaseUndo(pos, m))
  {
    var p1 := Shift(pos, m.piece, m.startSquare);
    StepsKeep(pos, m.piece, m.startSquare, true);
    if m.capturedPiece.Some? {
      var c := m.capturedPiece.value;
      var p2 := SetAlive(p1, c, true);
      var p3 := Relocate(p2, c, m.endSquare);
      StepsKeep(p1, c, m.endSquare, true);
      StepsKeep(p2, c, m.endSquare, true);
      StepsKeep(p3, c, m.endSquare, true);
      KeepsTrans(pos, p1, p2);
      KeepsTrans(pos, p2, p3);
      KeepsTrans(pos, p3, Positions.AddPiece(p3, c));
    }
  }

  lemma EnPassantUndoKeeps(pos: Position, m: Move)
    requires MoveOk(pos, m) && m.variant.EnPassant?
    ensures Keeps(pos, EnPassantUndo(pos, m))
  {
    var o := m.variant.originalSquareBeforeCapture;
    if m.capturedPiece.Some? && pos.pieces[m.capturedPiece.value].IsInstance(Pawn) {
      var c := m.capturedPiece.value;
      var p1 := SetAlive(pos, c, true);
      var p2 := Shift(p1, c, o);
      StepsKeep(pos, c, o, true);
      StepsKeep(p1, c, o, true);
      StepsKeep(p2, m.piece, m.startSquare, true);
      KeepsTrans(pos, p1, p2);
      KeepsTrans(pos, p2, Shift(p2, m.piece, m.startSquare));
    } else {
      StepsKeep(pos, m.piece, m.startSquare, true);
    }
  }

  lemma CastlingUndoKeeps(pos: Position, m: Move)
    requires MoveOk(pos, m) && m.variant.Castling?
    ensures Keeps(pos, CastlingUndo(pos, m))
  {
    var rook, rs := m.variant.rook, m.variant.rookStartSquare;
    var b := BaseUndo(pos, m);
    BaseUndoKeeps(pos, m);
    StepsKeep(b, rook, rs, false);
    StepsKeep(Shift(b, rook, rs), rook, rs, false);
    KeepsTrans(pos, b, Shift(b, rook, rs));
    KeepsTrans(pos, Shift(b, rook, rs), MarkMoved(Shift(b, rook, rs), rook, false));
  }

  lemma PromotionUndoKeeps(pos: Position, m: Move)
    requires MoveOk(pos, m) && m.variant.Promotion? && m.variant.promotedPiece.Some?
    ensures Keeps(pos, PromotionUndo(pos, m))
  {
    var orig, promoted := m.variant.originalPiece, m.variant.promotedPiece.value;
    var p1 := Positions.RemovePiece(pos, promoted);
    var p2 := Relocate(p1, orig, m.startSquare);
    var p3 := Positions.AddPiece(p2, orig);
    StepsKeep(pos, promoted, m.startSquare, true);
    StepsKeep(p1, orig, m.startSquare, true);
    StepsKeep(p2, orig, m.startSquare, true);
    KeepsTrans(pos, p1, p2);
    KeepsTrans(pos, p2, p3);
    if m.capturedPiece.Some? {
      var c := m.capturedPiece.value;
      var p4 := SetAlive(p3, c, true);
      StepsKeep(p3, c, m.endSquare, true);
      StepsKeep(p4, c, m.endSquare, true);
      KeepsTrans(pos, p3, p4);
      KeepsTrans(pos, p4, Shift(p4, c, m.endSquare));
    }
  }

  lemma UndoOnlyKeeps(pos: Position, m: Move)
    requires MoveOk(pos, m) && Executed(m)
    ensures Keeps(pos, Moves.Undo(pos, m))
  {
    match m.variant
    case Plain => BaseUndoKeeps(pos, m);
    case EnPassant(_) => EnPassantUndoKeeps(pos, m);
    case Castling(_, _, _) => CastlingUndoKeeps(pos, m);
    case Promotion(_, _, _) => PromotionUndoKeeps(pos, m);
  }

  lemma UndoKeeps(pos: Position, m: Move)
    requires MoveOk(pos, m) && Executed(m)
    ensures Keeps(pos, MarkMoved(pos, m.piece, false))
    ensures Keeps(pos, Moves.Undo(MarkMoved(pos, m.piece, false), m))
  {
    StepsKeep(pos, m.piece, m.startSquare, false);
    UndoOnlyKeeps(MarkMoved(pos, m.piece, false), m);
  }

  lemma CastlingRedoKeeps(pos: Position, m: Move)
    requires MoveOk(pos, m) && m.variant.Castling?
    ensures Keeps(pos, Moves.Redo(pos, m).pos)
  {
    CastlingExecuteKeeps(pos, m);
    StepsKeep(CastlingExecute(pos, m).pos, m.variant.rook, m.variant.rookEndSquare, true);
  }

  lemma PromotionRedoKeeps(pos: Position, m: Move)
    requires MoveOk(pos, m) && m.variant.Promotion? && m.variant.promotedPiece.Some?
    ensures Keeps(pos, Moves.Redo(pos, m).pos)
  {
    var orig, q := m.variant.originalPiece, m.variant.promotedPiece.value;
    StepsKeep(pos, orig, m.endSquare, true);
    var p2 := Positions.RemovePiece(pos, orig);
    StepsKeep(p2, q, m.endSquare, true);
    StepsKeep(Positions.AddPiece(p2, q), q, m.endSquare, true);
  }

  lemma RedoKeeps(pos: Position, m: Move)
    requires MoveOk(pos, m) && Executed(m)
    ensures Keeps(pos, MarkMoved(pos, m.piece, true))
    ensures Keeps(pos, Moves.Redo(MarkMoved(pos, m.piece, true), m).pos)
  {
    StepsKeep(pos, m.piece, m.startSquare, true);
    var p1 := MarkMoved(pos, m.piece, true);
    MoveOkGrows(pos, p1, m);
    match m.variant
    case Plain => BaseExecuteKeeps(p1, m);
    case EnPassant(_) => BaseExecuteKeeps(p1, m);
    case Castling(_, _, _) => CastlingRedoKeeps(p1, m);
    case Promotion(_, _, _) => PromotionRedoKeeps(p1, m);
  }

  /** `redo` hands back a settled move unchanged: it is the move `execute` produced the first time. */
  lemma RedoSettled(pos: Position, m: Move)
    requires MoveOk(pos, m) && Settled(m)
    ensures Moves.Redo(pos, m).move == m
  {
  }

  // ------------------------------------------------------------ the history as a value

  /** The four fields of a MoveHistory. */
  datatype Log = Log(history: seq<Move>, undone: seq<Move>, halfMoveClock: int, fullMoveNumber: int)

  /** A board and a history after an operation; `ok` is false when `makeMove` threw. */
  datatype Step = Step(pos: Position, log: Log, ok: bool)

  /**
   * The history agrees with its moves: every recorded move belongs to the board, the halfmove
   * clock counts the moves since the last pawn move or capture, and the fullmove number is one
   * more than the number of black moves. A new history is consistent on any board.
   */
  predicate Consistent(pos: Position, log: Log) {
    Valid(pos) && Recorded(pos, log.history) && Recorded(pos, log.undone) &&
    log.halfMoveClock == QuietRun(pos, log.history) &&
    log.fullMoveNumber == 1 + BlackCount(pos, log.history)
  }

  /**
   * `makeMove`: execute, then read the clocks off the executed move, append it and empty the
   * redo buffer. When `execute` throws the history is untouched (the board keeps what `execute`
   * did before throwing).
   */
  function MakeMoveStep(pos: Position, log: Log, m: Move): (s: Step)
    requires MoveOk(pos, m)
    ensures Valid(s.pos) && s.ok == Moves.Execute(pos, m).ok
    ensures !s.ok ==> s.log == log
    ensures s.ok ==> s.log.history == log.history + [Moves.Execute(pos, m).move] && s.log.undone == []
  {
    var o := Moves.Execute(pos, m);
    if !o.ok then Step(o.pos, log, false)
    else
      var half := if Resets(o.pos, o.move) then 0 else log.halfMoveClock + 1;
      var full := if ByBlack(o.pos, o.move) then log.fullMoveNumber + 1 else log.fullMoveNumber;
      Step(o.pos, Log(log.history + [o.move], [], half, full), true)
  }

  /**
   * `undoMove`: nothing on an empty history. Otherwise the last move is popped, the clocks are
   * wound back (the halfmove clock recounted from the remaining moves when the popped move was a
   * pawn move or capture), the mover's `hasMoved` is cleared, the move is undone and pushed onto
   * the redo buffer.
   */
  function UndoStep(pos: Position, log: Log): (s: Step)
    requires Valid(pos) && Recorded(pos, log.history)
    ensures Valid(s.pos) && s.ok
    ensures |s.log.history| + |s.log.undone| == |log.history| + |log.undone|
    ensures log.history == [] ==> s.pos == pos && s.log == log
    ensures log.history != [] ==> s.log.history + [log.history[|log.history| - 1]] == log.history &&
                                  s.log.undone == log.undone + [log.history[|log.history| - 1]]
  {
    if log.history == [] then Step(pos, log, true)
    else
      var last := log.history[|log.history| - 1];
      var rest := log.history[..|log.history| - 1];
      assert Recorded(pos, rest) by {
        forall k | 0 <= k < |rest| ensures MoveOk(pos, rest[k]) && Settled(rest[k]) {
          assert rest[k] == log.history[k];
        }
      }
      var half := if Resets(pos, last) then QuietRun(pos, rest) else log.halfMoveClock - 1;
      var full := if ByBlack(pos, last) then log.fullMoveNumber - 1 else log.fullMoveNumber;
      var p1 := MarkMoved(pos, last.piece, false);
      assert MoveOk(p1, last) by { MoveOkGrows(pos, p1, last); }
      assert rest + [last] == log.history;
      Step(Moves.Undo(p1, last), Log(rest, log.undone + [last], half, full), true)
  }

  /**
   * `redoMove`: nothing on an empty redo buffer. Otherwise its last move is popped, the clocks
   * are advanced as `makeMove` would, the mover's `hasMoved` is set, the move is redone and
   * appended to the history.
   */
  function RedoStep(pos: Position, log: Log): (s: Step)
    requires Valid(pos) && Recorded(pos, log.undone)
    ensures Valid(s.pos) && s.ok
    ensures |s.log.history| + |s.log.undone| == |log.history| + |log.undone|
    ensures log.undone == [] ==> s.pos == pos && s.log == log
    ensures log.undone != [] ==> s.log.undone + [log.undone[|log.undone| - 1]] == log.undone &&
                                 |s.log.history| == |log.history| + 1 &&
                                 s.log.history[..|log.history|] == log.history
  {
    if log.undone == [] then Step(pos, log, true)
    else
      var m := log.undone[|log.undone| - 1];
      var rest := log.undone[..|log.undone| - 1];
      assert rest + [m] == log.undone;
      var half := if Resets(pos, m) then 0 else log.halfMoveClock + 1;
      var full := if ByBlack(pos, m) then log.fullMoveNumber + 1 else log.fullMoveNumber;
      var p1 := MarkMoved(pos, m.piece, true);
      assert MoveOk(p1, m) by { MoveOkGrows(pos, p1, m); }
      var o := Moves.Redo(p1, m);
      assert (log.history + [o.move])[..|log.history|] == log.history;
      Step(o.pos, Log(log.history + [o.move], rest, half, full), true)
  }

  // ------------------------------------------------------------ what the operations keep

  /** `execute` leaves the move settled. */
  lemma ExecuteSettles(pos: Position, m: Move)
    requires MoveOk(pos, m) && Moves.Execute(pos, m).ok
    ensures Settled(Moves.Execute(pos, m).move)
  {
    match m.variant
    case Plain =>
    case EnPassant(_) =>
    case Castling(_, _, _) =>
    case Promotion(_, _, _) =>
  }

  /** One move appended: the clocks advance as `makeMove` advances them. */
  lemma {:induction false} CountsSnoc(pos: Position, ms: seq<Move>, m: Move)
    requires Recorded(pos, ms + [m])
    ensures Recorded(pos, ms) && MoveOk(pos, m) && Settled(m)
    ensures QuietRun(pos, ms + [m]) == if Resets(pos, m) then 0 else QuietRun(pos, ms) + 1
    ensures BlackCount(pos, ms + [m]) == BlackCount(pos, ms) + if ByBlack(pos, m) then 1 else 0
  {
    assert (ms + [m])[..|ms|] == ms;
    assert (ms + [m])[|ms|] == m;
    forall k | 0 <= k < |ms| ensures MoveOk(pos, ms[k]) && Settled(ms[k]) {
      assert ms[k] == (ms + [m])[k];
    }
  }

  lemma RecordedSnoc(pos: Position, ms: seq<Move>, m: Move)
    requires Recorded(pos, ms) && MoveOk(pos, m) && Settled(m)
    ensures Recorded(pos, ms + [m])
  {
  }

  /** `makeMove` keeps the history consistent with its board. */
  lemma MakeMoveConsistent(pos: Position, log: Log, m: Move)
    requires Consistent(pos, log) && MoveOk(pos, m)
    ensures Consistent(MakeMoveStep(pos, log, m).pos, MakeMoveStep(pos, log, m).log)
  {
    var o := Moves.Execute(pos, m);
    ExecuteKeeps(pos, m);
    KeptCounts(pos, o.pos, log.history);
    KeptCounts(pos, o.pos, log.undone);
    if o.ok {
      ExecuteSettles(pos, m);
      RecordedSnoc(o.pos, log.history, o.move);
      CountsSnoc(o.pos, log.history, o.move);
    }
  }

  /** `undoMove` keeps the history consistent with its board. */
  lemma UndoConsistent(pos: Position, log: Log)
    requires Consistent(pos, log)
    ensures Consistent(UndoStep(pos, log).pos, UndoStep(pos, log).log)
  {
    if log.history != [] {
      var last := log.history[|log.history| - 1];
      var rest := log.history[..|log.history| - 1];
      assert rest + [last] == log.history;
      CountsSnoc(pos, rest, last);
      RecordedSnoc(pos, log.undone, last);
      UndoKeeps(pos, last);
      var q := UndoStep(pos, log).pos;
      KeptCounts(pos, q, rest);
      KeptCounts(pos, q, log.undone + [last]);
    }
  }

  /** `redoMove` keeps the history consistent with its board. */
  lemma RedoConsistent(pos: Position, log: Log)
    requires Consistent(pos, log)
    ensures Consistent(RedoStep(pos, log).pos, RedoStep(pos, log).log)
  {
    if log.undone != [] {
      var m := log.undone[|log.undone| - 1];
      var rest := log.undone[..|log.undone| - 1];
      assert rest + [m] == log.undone;
      CountsSnoc(pos, rest, m);
      RecordedSnoc(pos, log.history, m);
      CountsSnoc(pos, log.history, m);
      RedoLog(pos, log);
      RedoKeeps(pos, m);
      var q := RedoStep(pos, log).pos;
      KeptCounts(pos, q, log.history + [m]);
      KeptCounts(pos, q, rest);
    }
  }

  /** A later board reads the same clock effects off a move. */
  lemma KeptReads(p: Position, q: Position, m: Move)
    requires Keeps(p, q) && m.piece < |p.pieces|
    ensures m.piece < |q.pieces|
    ensures Resets(q, m) == Resets(p, m) && ByBlack(q, m) == ByBlack(p, m)
  {
    assert q.pieces[m.piece].kind == p.pieces[m.piece].kind;
    assert q.pieces[m.piece].player == p.pieces[m.piece].player;
  }

  /** The log `undoMove` leaves behind, spelled out. */
  lemma UndoLog(pos: Position, log: Log)
    requires Consistent(pos, log) && log.history != []
    ensures var last := log.history[|log.history| - 1];
            var u := UndoStep(pos, log);
            Keeps(pos, u.pos) && MoveOk(pos, last) && Settled(last) &&
            u.log.history + [last] == log.history && u.log.undone == log.undone + [last] &&
            (if Resets(pos, last) then 0 else u.log.halfMoveClock + 1) == log.halfMoveClock &&
            (if ByBlack(pos, last) then u.log.fullMoveNumber + 1 else u.log.fullMoveNumber) == log.fullMoveNumber
  {
    var last := log.history[|log.history| - 1];
    var rest := log.history[..|log.history| - 1];
    assert rest + [last] == log.history;
    CountsSnoc(pos, rest, last);
    UndoKeeps(pos, last);
  }

  /** The log `redoMove` leaves behind, spelled out: a settled move goes back unchanged. */
  lemma RedoLog(pos: Position, log: Log)
    requires Valid(pos) && Recorded(pos, log.undone) && log.undone != []
    ensures var m := log.undone[|log.undone| - 1];
            RedoStep(pos, log).log ==
            Log(log.history + [m], log.undone[..|log.undone| - 1],
                if Resets(pos, m) then 0 else log.halfMoveClock + 1,
                if ByBlack(pos, m) then log.fullMoveNumber + 1 else log.fullMoveNumber)
  {
    var m := log.undone[|log.undone| - 1];
    var p1 := MarkMoved(pos, m.piece, true);
    MoveOkGrows(pos, p1, m);
    RedoSettled(p1, m);
  }

  /** Redo after undo gives the history back, clocks included. */
  lemma UndoThenRedo(pos: Position, log: Log)
    requires Consistent(pos, log) && log.history != []
    ensures Consistent(UndoStep(pos, log).pos, UndoStep(pos, log).log)
    ensures RedoStep(UndoStep(pos, log).pos, UndoStep(pos, log).log).log == log
  {
    UndoConsistent(pos, log);
    UndoLog(pos, log);
    var last := log.history[|log.history| - 1];
    var u := UndoStep(pos, log);
    KeptReads(pos, u.pos, last);
    assert u.log.undone[..|u.log.undone| - 1] == log.undone;
    RedoLog(u.pos, u.log);
  }

  /** Undo after redo gives the history back, clocks included. */
  lemma RedoThenUndo(pos: Position, log: Log)
    requires Consistent(pos, log) && log.undone != []
    ensures Consistent(RedoStep(pos, log).pos, RedoStep(pos, log).log)
    ensures UndoStep(RedoStep(pos, log).pos, RedoStep(pos, log).log).log == log
  {
    RedoConsistent(pos, log);
    RedoUndoLog(pos, log);
  }

  /** The log half of `RedoThenUndo`: the move goes back to the redo buffer and both clocks return. */
  lemma RedoUndoLog(pos: Position, log: Log)
    requires Consistent(pos, log) && log.undone != []
    requires Recorded(RedoStep(pos, log).pos, RedoStep(pos, log).log.history)
    ensures UndoStep(RedoStep(pos, log).pos, RedoStep(pos, log).log).log == log
  {
    RedoLog(pos, log);
    var m := log.undone[|log.undone| - 1];
    var r := RedoStep(pos, log);
    RedoKeeps(pos, m);
    KeptReads(pos, r.pos, m);
    assert r.log.history[..|r.log.history| - 1] == log.history;
    assert log.undone[..|log.undone| - 1] + [m] == log.undone;
    UndoStepIs(r.pos, r.log);
    KeptCounts(pos, r.pos, log.history);
  }

  /** Undo right after `makeMove` restores the history and both clocks; the move waits in the redo buffer. */
  lemma MakeThenUndo(pos: Position, log: Log, m: Move)
    requires Consistent(pos, log) && MoveOk(pos, m) && Moves.Execute(pos, m).ok
    ensures Consistent(MakeMoveStep(pos, log, m).pos, MakeMoveStep(pos, log, m).log)
    ensures UndoStep(MakeMoveStep(pos, log, m).pos, MakeMoveStep(pos, log, m).log).log ==
            log.(undone := [Moves.Execute(pos, m).move])
  {
    MakeMoveConsistent(pos, log, m);
    var o := Moves.Execute(pos, m);
    var s := MakeMoveStep(pos, log, m);
    assert s.log.history[..|s.log.history| - 1] == log.history;
    ExecuteKeeps(pos, m);
    KeptCounts(pos, o.pos, log.history);
  }

  /**
   * A promotion does not reset the halfmove clock: after `execute` the move's piece is the new
   * queen, rook, bishop or knight, and the move is not flagged as a capture, even when it took a
   * piece.
   */
  lemma PromotionAdvancesClock(pos: Position, log: Log, m: Move)
    requires MoveOk(pos, m) && m.variant.Promotion? && !m.isCapture && Moves.Execute(pos, m).ok
    ensures MakeMoveStep(pos, log, m).log.halfMoveClock == log.halfMoveClock + 1
  {
    var np := PromotePiece(m.variant.promotionType, pos.pieces[m.variant.originalPiece].player, m.endSquare);
    assert np.Ok? && TypeName(np.value.kind) != "PAWN";
  }

  /**
   * Undoing a plain move of a king or rook leaves it flagged as never moved, whatever moves it
   * made before.
   */
  lemma UndoForgetsEarlierMoves(pos: Position, log: Log)
    requires Valid(pos) && Recorded(pos, log.history) && log.history != []
    requires log.history[|log.history| - 1].variant.Plain?
    requires pos.pieces[log.history[|log.history| - 1].piece].HasMoveStatus()
    ensures UndoStep(pos, log).pos.pieces[log.history[|log.history| - 1].piece].hasMoved == Some(false)
  {
    var last := log.history[|log.history| - 1];
    var p1 := MarkMoved(pos, last.piece, false);
    assert p1.pieces[last.piece].hasMoved == Some(false);
    var p2 := Shift(p1, last.piece, last.startSquare);
    assert p2.pieces[last.piece].hasMoved == Some(false);
  }

  /** The moves before the last are recorded too. */
  lemma RecordedPrefix(pos: Position, ms: seq<Move>)
    requires Recorded(pos, ms) && ms != []
    ensures Recorded(pos, ms[..|ms| - 1]) && MoveOk(pos, ms[|ms| - 1]) && Settled(ms[|ms| - 1])
  {
    var rest := ms[..|ms| - 1];
    forall k | 0 <= k < |rest| ensures MoveOk(pos, rest[k]) && Settled(rest[k]) {
      assert rest[k] == ms[k];
    }
  }

  /** `undoMove` on a non-empty history, step by step. */
  lemma UndoStepIs(pos: Position, log: Log)
    requires Valid(pos) && Recorded(pos, log.history) && log.history != []
    ensures var last := log.history[|log.history| - 1];
            Recorded(pos, log.history[..|log.history| - 1]) && MoveOk(pos, last) &&
            MoveOk(MarkMoved(pos, last.piece, false), last) && Executed(last)
    ensures var last := log.history[|log.history| - 1];
            var rest := log.history[..|log.history| - 1];
            var p1 := MarkMoved(pos, last.piece, false);
            UndoStep(pos, log) ==
            Step(Moves.Undo(p1, last),
                 Log(rest, log.undone + [last],
                     if Resets(pos, last) then QuietRun(pos, rest) else log.halfMoveClock - 1,
                     if ByBlack(pos, last) then log.fullMoveNumber - 1 else log.fullMoveNumber),
                 true)
  {
    RecordedPrefix(pos, log.history);
    var last := log.history[|log.history| - 1];
    MoveOkGrows(pos, MarkMoved(pos, last.piece, false), last);
  }

  /** Where `undoMove` leaves the board. */
  lemma UndoStepPos(pos: Position, log: Log)
    requires Valid(pos) && Recorded(pos, log.history) && log.history != []
    ensures var last := log.history[|log.history| - 1];
            MoveOk(pos, last) && Executed(last) &&
            UndoStep(pos, log).pos == Moves.Undo(MarkMoved(pos, last.piece, false), last)
  {
    UndoStepIs(pos, log);
  }

  /** `redoMove` on a non-empty redo buffer, step by step. */
  lemma RedoStepIs(pos: Position, log: Log)
    requires Valid(pos) && Recorded(pos, log.undone) && log.undone != []
    ensures var m := log.undone[|log.undone| - 1];
            MoveOk(pos, m) && MoveOk(MarkMoved(pos, m.piece, true), m) && Executed(m)
    ensures var m := log.undone[|log.undone| - 1];
            var o := Moves.Redo(MarkMoved(pos, m.piece, true), m);
            RedoStep(pos, log) ==
            Step(o.pos,
                 Log(log.history + [o.move], log.undone[..|log.undone| - 1],
                     if Resets(pos, m) then 0 else log.halfMoveClock + 1,
                     if ByBlack(pos, m) then log.fullMoveNumber + 1 else log.fullMoveNumber),
                 true)
  {
    RecordedPrefix(pos, log.undone);
    var m := log.undone[|log.undone| - 1];
    MoveOkGrows(pos, MarkMoved(pos, m.piece, true), m);
  }

  /** Only one count of trailing quiet moves ends at a resetting move or at the start of the list. */
  lemma QuietRunUnique(pos: Position, ms: seq<Move>, c: nat)
    requires Recorded(pos, ms) && c <= |ms|
    requires forall k :: |ms| - c <= k < |ms| ==> !Resets(pos, ms[k])
    requires c < |ms| ==> Resets(pos, ms[|ms| - 1 - c])
    ensures c == QuietRun(pos, ms)
  {
  }

  // ------------------------------------------------------------ reading the last move

  /**
   * `getEnPassantTarget`: when the last move's piece is a Pawn (by class) and moved two rows, the
   * square halfway between its start and end rows, in its start column.
   */
  function EnPassantTarget(pos: Position, last: Option<Move>): (t: Option<Square>)
    requires PawnStrategy.LastOk(pos, last)
    ensures t.Some? <==> last.Some? && pos.pieces[last.value.piece].IsInstance(Pawn) &&
                         (last.value.endSquare.row - last.value.startSquare.row == 2 ||
                          last.value.startSquare.row - last.value.endSquare.row == 2)
    ensures t.Some? ==> InBounds(t.value) && t.value.col == last.value.startSquare.col &&
                        t.value.row != last.value.startSquare.row && t.value.row != last.value.endSquare.row &&
                        2 * t.value.row == last.value.startSquare.row + last.value.endSquare.row
  {
    match last
    case None => None
    case Some(m) =>
      var difference := m.endSquare.row - m.startSquare.row;
      if pos.pieces[m.piece].IsInstance(Pawn) && (difference == 2 || difference == -2)
      then Some(Square((m.endSquare.row + m.startSquare.row) / 2, m.startSquare.col))
      else None
  }

  /**
   * The en-passant square the history reports is the square an en-passant capture answering that
   * double step lands on, whenever the pawn went straight ahead and is not a copy.
   */
  lemma EnPassantTargetIsCaptureSquare(pos: Position, id: PieceId, last: Option<Move>, m: Move)
    requires Valid(pos) && id < |pos.pieces| && PawnStrategy.LastOk(pos, last) && pos.pieces[id].kind == Pawn
    requires m in PawnStrategy.PawnMoves(pos, id, last) && m.variant.EnPassant?
    requires last.Some? && last.value.startSquare.col == last.value.endSquare.col
    requires !pos.pieces[last.value.piece].baseCopy
    ensures EnPassantTarget(pos, last) == Some(m.endSquare)
  {
    PawnStrategy.PawnEnPassantAnswersDoubleStep(pos, id, last, m);
  }

  /** The last move holds the board's en-passant target only after a pawn's double step. */
  lemma NoTargetAfterSingleStep(pos: Position, m: Move)
    requires MoveOk(pos, m)
    requires m.endSquare.row - m.startSquare.row in {-1, 0, 1}
    ensures EnPassantTarget(pos, Some(m)) == None
  {
  }

  // ------------------------------------------------------------ the MoveHistory object

  /** MoveHistory.js: the moves made, the moves undone, and the two FEN clocks, updated in place. */
  class MoveHistory {
    var history: seq<Move>
    var undone: seq<Move>
    var halfMoveClock: int
    var fullMoveNumber: int

    /** The four fields as a value. */
    function State(): Log
      reads this
    {
      Log(history, undone, halfMoveClock, fullMoveNumber)
    }

    /** `new MoveHistory()`: no moves, halfmove clock 0, fullmove number 1. */
    constructor()
      ensures State() == Log([], [], 0, 1)
    {
      history := [];
      undone := [];
      halfMoveClock := 0;
      fullMoveNumber := 1;
    }

    /** `resetMoveHistory`: back to the state of a new history. */
    method ResetMoveHistory()
      modifies this
      ensures State() == Log([], [], 0, 1)
    {
      halfMoveClock := 0;
      fullMoveNumber := 1;
      history := [];
      undone := [];
    }

    /** `getLastMove`: the last move made, or none on an empty history. */
    function GetLastMove(): (last: Option<Move>)
      reads this
      ensures last.None? <==> history == []
      ensures last.Some? ==> history == history[..|history| - 1] + [last.value]
    {
      if |history| > 0 then Some(history[|history| - 1]) else None
    }

    /** `getEnPassantTarget`. */
    function GetEnPassantTarget(pos: Position): (t: Option<Square>)
      reads this
      requires Recorded(pos, history)
      ensures t == EnPassantTarget(pos, GetLastMove())
    {
      if |history| > 0 then EnPassantTarget(pos, Some(history[|history| - 1])) else None
    }

    /**
     * `calculateHalfMoveClockFromHistory`: walking back from the last move, the moves counted
     * before the first pawn move or capture.
     */
    method CalculateHalfMoveClockFromHistory(pos: Position) returns (counter: nat)
      requires Recorded(pos, history)
      ensures counter == QuietRun(pos, history)
    {
      counter := 0;
      var i := |history| - 1;
      while i >= 0
        invariant -1 <= i < |history| && counter == |history| - 1 - i
        invariant forall k :: i < k < |history| ==> !Resets(pos, history[k])
      {
        var move := history[i];
        if pos.pieces[move.piece].kind == Pawn || move.isCapture {
          break;
        }
        counter := counter + 1;
        i := i - 1;
      }
      QuietRunUnique(pos, history, counter);
    }

    /**
     * `makeMove`: `execute`, then the clocks read off the executed move, the move appended and the
     * redo buffer emptied. When `execute` throws the history is left as it was.
     */
    method MakeMove(board: ChessBoard, move: Move) returns (ok: bool)
      requires board.Valid() && MoveOk(board.Snap(), move)
      modifies this, board, board.board
      ensures board.Valid() && board.board == old(board.board) && board.pieceManager == old(board.pieceManager)
      ensures var s := MakeMoveStep(old(board.Snap()), old(State()), move);
              board.Snap() == s.pos && State() == s.log && ok == s.ok
    {
      ghost var s := MakeMoveStep(board.Snap(), State(), move);
      var executed;
      executed, ok := MoveCommands.Execute(board, move);
      if ok {
        var pos := board.Snap();
        assert s.log == Log(history + [executed], [],
                            if Resets(pos, executed) then 0 else halfMoveClock + 1,
                            if ByBlack(pos, executed) then fullMoveNumber + 1 else fullMoveNumber);
        RecordMove(pos, executed);
      }
    }

    /** The bookkeeping half of `makeMove`, on the board as `execute` left it. */
    method RecordMove(pos: Position, executed: Move)
      requires executed.piece < |pos.pieces|
      modifies this
      ensures State() == Log(old(history) + [executed], [],
                             if Resets(pos, executed) then 0 else old(halfMoveClock) + 1,
                             if ByBlack(pos, executed) then old(fullMoveNumber) + 1 else old(fullMoveNumber))
    {
      var piece := pos.pieces[executed.piece];
      if piece.kind == Pawn || executed.isCapture {
        halfMoveClock := 0;
      } else {
        halfMoveClock := halfMoveClock + 1;
      }
      if piece.player.color == Black {
        fullMoveNumber := fullMoveNumber + 1;
      }
      history := history + [executed];
      undone := [];
    }

    /**
     * `resetMoveClocksForUndo`, called once the move has been popped: the halfmove clock is
     * recounted from the remaining moves after a pawn move or capture, and counts down otherwise.
     */
    method ResetMoveClocksForUndo(pos: Position, lastMove: Move)
      requires Recorded(pos, history) && lastMove.piece < |pos.pieces|
      modifies this
      ensures history == old(history) && undone == old(undone)
      ensures halfMoveClock == if Resets(pos, lastMove) then QuietRun(pos, history) else old(halfMoveClock) - 1
      ensures fullMoveNumber == if ByBlack(pos, lastMove) then old(fullMoveNumber) - 1 else old(fullMoveNumber)
    {
      if pos.pieces[lastMove.piece].kind == Pawn || lastMove.isCapture {
        halfMoveClock := CalculateHalfMoveClockFromHistory(pos);
      } else {
        halfMoveClock := halfMoveClock - 1;
      }
      if pos.pieces[lastMove.piece].player.color == Black {
        fullMoveNumber := fullMoveNumber - 1;
      }
    }

    /** `resetMoveClocksForRedo`: the clocks advance as `makeMove` advances them. */
    method ResetMoveClocksForRedo(pos: Position, redoMove: Move)
      requires redoMove.piece < |pos.pieces|
      modifies this
      ensures history == old(history) && undone == old(undone)
      ensures halfMoveClock == if Resets(pos, redoMove) then 0 else old(halfMoveClock) + 1
      ensures fullMoveNumber == if ByBlack(pos, redoMove) then old(fullMoveNumber) + 1 else old(fullMoveNumber)
    {
      if pos.pieces[redoMove.piece].kind == Pawn || redoMove.isCapture {
        halfMoveClock := 0;
      } else {
        halfMoveClock := halfMoveClock + 1;
      }
      if pos.pieces[redoMove.piece].player.color == Black {
        fullMoveNumber := fullMoveNumber + 1;
      }
    }

    /** `resetHasMovedFlagForUndo(move)` followed by `move.undo()`. */
    static method ResetHasMovedFlagForUndoAndUndo(board: ChessBoard, move: Move)
      requires board.Valid() && MoveOk(board.Snap(), move) && Executed(move)
      modifies board, board.board
      ensures board.Valid() && board.board == old(board.board) && board.pieceManager == old(board.pieceManager)
      ensures MoveOk(MarkMoved(old(board.Snap()), move.piece, false), move)
      ensures board.Snap() == Moves.Undo(MarkMoved(old(board.Snap()), move.piece, false), move)
    {
      MoveCommands.MarkMovedOn(board, move.piece, false);
      MoveOkGrows(old(board.Snap()), board.Snap(), move);
      MoveCommands.Undo(board, move);
    }

    /** `resetHasMovedFlagForRedo(move)` followed by `move.redo()`. */
    static method ResetHasMovedFlagForRedoAndRedo(board: ChessBoard, move: Move) returns (redone: Move)
      requires board.Valid() && MoveOk(board.Snap(), move) && Executed(move)
      modifies board, board.board
      ensures board.Valid() && board.board == old(board.board) && board.pieceManager == old(board.pieceManager)
      ensures MoveOk(MarkMoved(old(board.Snap()), move.piece, true), move)
      ensures var o := Moves.Redo(MarkMoved(old(board.Snap()), move.piece, true), move);
              board.Snap() == o.pos && redone == o.move
    {
      MoveCommands.MarkMovedOn(board, move.piece, true);
      MoveOkGrows(old(board.Snap()), board.Snap(), move);
      redone := MoveCommands.Redo(board, move);
    }

    /**
     * The part of `undoMove` that touches only the history: the last move is popped, the clocks
     * are rewound and the move is kept for redo.
     */
    method PopForUndo(pos: Position) returns (lastMove: Move)
      requires Valid(pos) && Recorded(pos, history) && history != []
      modifies this
      ensures lastMove == old(history)[|old(history)| - 1]
      ensures State() == UndoStep(pos, old(State())).log
    {
      ghost var log0 := State();
      UndoStepIs(pos, log0);
      lastMove := history[|history| - 1];
      history := history[..|history| - 1];
      ResetMoveClocksForUndo(pos, lastMove);
      undone := undone + [lastMove];
    }

    /** The part of `undoMove` that touches only the board, for the last move of `log`. */
    static method UndoOnBoard(board: ChessBoard, lastMove: Move, ghost pos: Position, ghost log: Log)
      requires board.Valid() && board.Snap() == pos && Recorded(pos, log.history)
      requires log.history != [] && lastMove == log.history[|log.history| - 1]
      modifies board, board.board
      ensures board.Valid() && board.board == old(board.board) && board.pieceManager == old(board.pieceManager)
      ensures board.Snap() == UndoStep(pos, log).pos
    {
      UndoStepPos(pos, log);
      ResetHasMovedFlagForUndoAndUndo(board, lastMove);
    }

    /**
     * `undoMove`: pop the last move, rewind the clocks, clear the moved flag and undo the move
     * on the board, and keep the move for redo. An empty history changes nothing.
     */
    method UndoMove(board: ChessBoard)
      requires board.Valid() && Recorded(board.Snap(), history)
      modifies this, board, board.board
      ensures board.Valid() && board.board == old(board.board) && board.pieceManager == old(board.pieceManager)
      ensures var s := UndoStep(old(board.Snap()), old(State()));
              board.Snap() == s.pos && State() == s.log
    {
      if |history| > 0 {
        var pos0 := board.Snap();
        ghost var log0 := State();
        var lastMove := PopForUndo(pos0);
        UndoOnBoard(board, lastMove, pos0, log0);
      }
    }

    /**
     * The part of `redoMove` that touches only the history: the last undone move is popped, the
     * clocks advance and the move is pushed onto the history. The history holds the move object
     * itself, which the redo on the board then updates in place; the model pushes the value the
     * move has once redone.
     */
    method PopForRedo(pos: Position) returns (redoMove: Move)
      requires Valid(pos) && Recorded(pos, undone) && undone != []
      modifies this
      ensures redoMove == old(undone)[|old(undone)| - 1]
      ensures State() == RedoStep(pos, old(State())).log
    {
      ghost var log0 := State();
      RedoStepIs(pos, log0);
      redoMove := undone[|undone| - 1];
      undone := undone[..|undone| - 1];
      ResetMoveClocksForRedo(pos, redoMove);
      history := history + [Moves.Redo(MarkMoved(pos, redoMove.piece, true), redoMove).move];
    }

    /** The part of `redoMove` that touches only the board, for the last undone move of `log`. */
    static method RedoOnBoard(board: ChessBoard, redoMove: Move, ghost pos: Position, ghost log: Log)
      requires board.Valid() && board.Snap() == pos && Recorded(pos, log.undone)
      requires log.undone != [] && redoMove == log.undone[|log.undone| - 1]
      modifies board, board.board
      ensures board.Valid() && board.board == old(board.board) && board.pieceManager == old(board.pieceManager)
      ensures board.Snap() == RedoStep(pos, log).pos
    {
      RedoStepIs(pos, log);
      var redone := ResetHasMovedFlagForRedoAndRedo(board, redoMove);
    }

    /**
     * `redoMove`: pop the last undone move, advance the clocks, mark the piece as moved and redo
     * the move on the board, and record it in the history. An empty redo buffer changes nothing.
     */
    method RedoMove(board: ChessBoard)
      requires board.Valid() && Recorded(board.Snap(), undone)
      modifies this, board, board.board
      ensures board.Valid() && board.board == old(board.board) && board.pieceManager == old(board.pieceManager)
      ensures var s := RedoStep(old(board.Snap()), old(State()));
              board.Snap() == s.pos && State() == s.log
    {
      if |undone| > 0 {
        var pos0 := board.Snap();
        ghost var log0 := State();
        var redoMove := PopForRedo(pos0);
        RedoOnBoard(board, redoMove, pos0, log0);
      }
    }

    /**
     * `copy`: a new history with a copy of every move, in order, and the same clocks. A copied
     * move is a base `Move`.
     */
    method Copy() returns (copiedHistory: MoveHistory)
      ensures fresh(copiedHistory)
      ensures |copiedHistory.history| == |history| && |copiedHistory.undone| == |undone|
      ensures forall k :: 0 <= k < |history| ==> copiedHistory.history[k] == CopyMove(history[k])
      ensures forall k :: 0 <= k < |undone| ==> copiedHistory.undone[k] == CopyMove(undone[k])
      ensures copiedHistory.halfMoveClock == halfMoveClock && copiedHistory.fullMoveNumber == fullMoveNumber
    {
      copiedHistory := new MoveHistory();
      for i := 0 to |history|
        invariant |copiedHistory.history| == i
        invariant forall k :: 0 <= k < i ==> copiedHistory.history[k] == CopyMove(history[k])
        invariant copiedHistory.undone == []
      {
        copiedHistory.history := copiedHistory.history + [CopyMove(history[i])];
      }
      for i := 0 to |undone|
        invariant |copiedHistory.history| == |history|
        invariant forall k :: 0 <= k < |history| ==> copiedHistory.history[k] == CopyMove(history[k])
        invariant |copiedHistory.undone| == i
        invariant forall k :: 0 <= k < i ==> copiedHistory.undone[k] == CopyMove(undone[k])
      {
        copiedHistory.undone := copiedHistory.undone + [CopyMove(undone[i])];
      }
      copiedHistory.halfMoveClock := halfMoveClock;
      copiedHistory.fullMoveNumber := fullMoveNumber;
    }
  }
}
