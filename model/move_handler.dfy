/**
 * public/chess/model/moves/MoveHandler.js: the click, drag, undo and redo state machine over the
 * board, the move history, the game state, the piece manager and the stack of game-state
 * mementos. The GUI calls are left out; the promotion dialog's callback is modelled as a pending
 * promotion that `ResolvePromotion` completes.
 *
 * The objects the handler drives are summed up as a `World` value; each handler operation is
 * proved to move the objects exactly as a function on that value says, and the properties of the
 * operations are lemmas about those functions.
 */
module Handlers {
  import opened Wrappers
  import opened Squares
  import opened Players
  import opened Pieces
  import opened Positions
  import opened Moves
  import opened PieceRegistry
  import opened PawnStrategy
  import opened Attacks
  import opened Legality
  import opened Board
  import opened PieceManagers
  import opened History
  import opened Mementos
  import GameStates
  import BaseStrategy
  import KingStrategy

  // ------------------------------------------------------------ moves the handler can pass on

  /** `isPromotion` is set exactly on a PromotionMove. */
  predicate Tagged(m: Move) {
    m.isPromotion == m.variant.Promotion?
  }

  predicate AllTagged(ms: seq<Move>) {
    forall k :: 0 <= k < |ms| ==> Tagged(ms[k])
  }

  /** Every legal move names pieces and squares of the board and is tagged. */
  lemma LegalMovesHeld(pos: Position, reg: Registry, id: PieceId, last: Option<Move>)
    requires Registered(pos, reg) && id < |pos.pieces| && LastOk(pos, last)
    ensures var ms := LegalMoves(pos, reg, id, last);
            forall k :: 0 <= k < |ms| ==> MoveOk(pos, ms[k]) && Tagged(ms[k])
  {
    var ms := LegalMoves(pos, reg, id, last);
    forall k | 0 <= k < |ms| ensures MoveOk(pos, ms[k]) && Tagged(ms[k]) {
      LegalMovesMeans(pos, reg, id, last, ms[k]);
      assert ms[k] in ms;
    }
  }

  /** `execute` keeps a move's tag. */
  lemma ExecuteTagged(pos: Position, m: Move)
    requires MoveOk(pos, m) && Tagged(m)
    ensures Tagged(Moves.Execute(pos, m).move)
  {
  }

  // ------------------------------------------------------------ the objects as one value

  /**
   * The board, the piece manager's registry, the history, the game state's players and lists,
   * its game-over flag, and the memento stack.
   */
  datatype World = World(pos: Position, reg: Registry, log: Log, turn: GameStateMemento, over: bool,
                         mementos: seq<GameStateMemento>)

  /** The registry and the history belong to the board, and every recorded move is tagged. */
  predicate Sound(pos: Position, reg: Registry, log: Log) {
    Valid(pos) && RegistryOk(reg, |pos.pieces|) && KeysUnique(reg) &&
    Recorded(pos, log.history) && Recorded(pos, log.undone) &&
    AllTagged(log.history) && AllTagged(log.undone)
  }

  predicate WorldOk(w: World) {
    Sound(w.pos, w.reg, w.log)
  }

  /** `getLastMove`. */
  function Last(ms: seq<Move>): (r: Option<Move>)
    ensures r.None? <==> ms == []
    ensures r.Some? ==> r.value == ms[|ms| - 1]
  {
    if |ms| > 0 then Some(ms[|ms| - 1]) else None
  }

  /** The last recorded move can be handed to `handlePromotion`, `handleUndoPromotion` and the generators. */
  lemma LastSound(pos: Position, reg: Registry, log: Log)
    requires Sound(pos, reg, log)
    ensures LastOk(pos, Last(log.history))
    ensures log.history != [] ==>
              var m := log.history[|log.history| - 1];
              Settled(m) && Tagged(m) && (m.isPromotion ==> m.variant.Promotion? && m.variant.promotedPiece.Some?)
  {
  }

  /** `swapPlayers` on the game state's fields. */
  function Swap(t: GameStateMemento): (r: GameStateMemento)
    ensures r.currentPlayer == t.opposingPlayer && r.opposingPlayer == t.currentPlayer
    ensures r.(currentPlayer := t.currentPlayer, opposingPlayer := t.opposingPlayer) == t
  {
    t.(currentPlayer := t.opposingPlayer, opposingPlayer := t.currentPlayer)
  }

  /** The registry after `handlePromotion(m)`. */
  function Promoted(pos: Position, reg: Registry, m: Move): Registry
    requires MoveOk(pos, m) && (m.isPromotion ==> m.variant.Promotion? && m.variant.promotedPiece.Some?)
  {
    if m.isPromotion then
      Add(Remove(reg, m.variant.originalPiece, pos.pieces[m.variant.originalPiece].player),
          m.variant.promotedPiece.value, pos.pieces[m.variant.promotedPiece.value].player)
    else reg
  }

  /** The registry after `handleUndoPromotion(last)`. */
  function Unpromoted(pos: Position, reg: Registry, last: Option<Move>): Registry
    requires last.Some? ==> MoveOk(pos, last.value)
    requires last.Some? && last.value.isPromotion ==>
               last.value.variant.Promotion? && last.value.variant.promotedPiece.Some?
  {
    if last.Some? && last.value.isPromotion then
      var m := last.value;
      Add(Remove(reg, m.variant.promotedPiece.value, pos.pieces[m.variant.promotedPiece.value].player),
          m.variant.originalPiece, pos.pieces[m.variant.originalPiece].player)
    else reg
  }

  /** A registry over the board stays one over a larger board, and keeps its keys unique. */
  lemma PromotedSound(pos: Position, q: Position, reg: Registry, m: Move)
    requires Valid(q) && RegistryOk(reg, |pos.pieces|) && KeysUnique(reg) && |pos.pieces| <= |q.pieces|
    requires MoveOk(pos, m) && (m.isPromotion ==> m.variant.Promotion? && m.variant.promotedPiece.Some?)
    ensures RegistryOk(Promoted(pos, reg, m), |q.pieces|) && KeysUnique(Promoted(pos, reg, m))
  {
    assert RegistryOk(reg, |q.pieces|);
  }

  lemma UnpromotedSound(pos: Position, q: Position, reg: Registry, last: Option<Move>)
    requires Valid(q) && RegistryOk(reg, |pos.pieces|) && KeysUnique(reg) && |pos.pieces| <= |q.pieces|
    requires last.Some? ==> MoveOk(pos, last.value)
    requires last.Some? && last.value.isPromotion ==>
               last.value.variant.Promotion? && last.value.variant.promotedPiece.Some?
    ensures RegistryOk(Unpromoted(pos, reg, last), |q.pieces|) && KeysUnique(Unpromoted(pos, reg, last))
  {
    assert RegistryOk(reg, |q.pieces|);
  }

  // ------------------------------------------------------------ what the history steps keep

  /** `makeMove` keeps the history on its board and tagged. */
  lemma MakeSound(pos: Position, log: Log, m: Move)
    requires Valid(pos) && Recorded(pos, log.history) && Recorded(pos, log.undone)
    requires AllTagged(log.history) && AllTagged(log.undone) && MoveOk(pos, m) && Tagged(m)
    ensures var s := MakeMoveStep(pos, log, m);
            Keeps(pos, s.pos) && Recorded(s.pos, s.log.history) && Recorded(s.pos, s.log.undone) &&
            AllTagged(s.log.history) && AllTagged(s.log.undone)
  {
    var o := Moves.Execute(pos, m);
    ExecuteKeeps(pos, m);
    KeptCounts(pos, o.pos, log.history);
    KeptCounts(pos, o.pos, log.undone);
    if o.ok {
      ExecuteSettles(pos, m);
      ExecuteTagged(pos, m);
      RecordedSnoc(o.pos, log.history, o.move);
    }
  }

  /** `undoMove` keeps the history on its board and tagged. */
  lemma UndoSound(pos: Position, log: Log)
    requires Valid(pos) && Recorded(pos, log.history) && Recorded(pos, log.undone)
    requires AllTagged(log.history) && AllTagged(log.undone)
    ensures var u := UndoStep(pos, log);
            Keeps(pos, u.pos) && Recorded(u.pos, u.log.history) && Recorded(u.pos, u.log.undone) &&
            AllTagged(u.log.history) && AllTagged(u.log.undone)
  {
    if log.history != [] {
      var last := log.history[|log.history| - 1];
      var rest := log.history[..|log.history| - 1];
      assert rest + [last] == log.history;
      CountsSnoc(pos, rest, last);
      RecordedSnoc(pos, log.undone, last);
      UndoKeeps(pos, last);
      UndoStepPos(pos, log);
      var q := UndoStep(pos, log).pos;
      KeptCounts(pos, q, rest);
      KeptCounts(pos, q, log.undone + [last]);
    }
  }

  /** `redoMove` keeps the history on its board and tagged. */
  lemma RedoSound(pos: Position, log: Log)
    requires Valid(pos) && Recorded(pos, log.history) && Recorded(pos, log.undone)
    requires AllTagged(log.history) && AllTagged(log.undone)
    ensures var r := RedoStep(pos, log);
            Keeps(pos, r.pos) && Recorded(r.pos, r.log.history) && Recorded(r.pos, r.log.undone) &&
            AllTagged(r.log.history) && AllTagged(r.log.undone)
  {
    if log.undone != [] {
      var m := log.undone[|log.undone| - 1];
      var rest := log.undone[..|log.undone| - 1];
      assert rest + [m] == log.undone;
      CountsSnoc(pos, rest, m);
      RecordedSnoc(pos, log.history, m);
      RedoLog(pos, log);
      RedoKeeps(pos, m);
      RedoStepIs(pos, log);
      var q := RedoStep(pos, log).pos;
      KeptCounts(pos, q, log.history + [m]);
      KeptCounts(pos, q, rest);
    }
  }

  // ------------------------------------------------------------ the handler's steps as functions

  /**
   * `continueFinalizingMove`: the move made through the history; when it went through, the
   * registry follows a promotion and the players swap. When `makeMove` throws (an unknown
   * promotion token), the call ends there: the second component is false.
   */
  function Commit(w: World, m: Move): (World, bool)
    requires WorldOk(w) && MoveOk(w.pos, m) && Tagged(m)
  {
    var s := MakeMoveStep(w.pos, w.log, m);
    MakeSound(w.pos, w.log, m);
    assert RegistryOk(w.reg, |s.pos.pieces|);
    if !s.ok then (w.(pos := s.pos), false)
    else
      LastSound(s.pos, w.reg, s.log);
      var last := s.log.history[|s.log.history| - 1];
      PromotedSound(s.pos, s.pos, w.reg, last);
      (World(s.pos, Promoted(s.pos, w.reg, last), s.log, Swap(w.turn), w.over, w.mementos), true)
  }

  /**
   * A commit keeps the world sound and the piece arena growing, leaves the memento stack and the
   * game-over flag alone, and either makes the move and swaps the players or changes nothing but
   * the board.
   */
  lemma CommitSound(w: World, m: Move)
    requires WorldOk(w) && MoveOk(w.pos, m) && Tagged(m)
    ensures var r := Commit(w, m);
            WorldOk(r.0) && |w.pos.pieces| <= |r.0.pos.pieces| &&
            r.0.mementos == w.mementos && r.0.over == w.over &&
            r.1 == MakeMoveStep(w.pos, w.log, m).ok &&
            (!r.1 ==> r.0 == w.(pos := MakeMoveStep(w.pos, w.log, m).pos)) &&
            (r.1 ==> r.0.turn == Swap(w.turn) && r.0.log == MakeMoveStep(w.pos, w.log, m).log)
  {
    var s := MakeMoveStep(w.pos, w.log, m);
    MakeSound(w.pos, w.log, m);
    if s.ok {
      assert RegistryOk(w.reg, |s.pos.pieces|);
      LastSound(s.pos, w.reg, s.log);
      var last := s.log.history[|s.log.history| - 1];
      PromotedSound(s.pos, s.pos, w.reg, last);
    }
  }

  /** What `Commit` is, spelled out for the handler's method. */
  lemma CommitIs(w: World, m: Move)
    requires WorldOk(w) && MoveOk(w.pos, m) && Tagged(m)
    ensures var s := MakeMoveStep(w.pos, w.log, m);
            s.ok ==> s.log.history != [] &&
                     var last := s.log.history[|s.log.history| - 1];
                     MoveOk(s.pos, last) && (last.isPromotion ==> last.variant.Promotion? && last.variant.promotedPiece.Some?) &&
                     Commit(w, m) == (World(s.pos, Promoted(s.pos, w.reg, last), s.log, Swap(w.turn), w.over, w.mementos), true)
    ensures var s := MakeMoveStep(w.pos, w.log, m);
            !s.ok ==> Commit(w, m) == (w.(pos := s.pos), false)
  {
    var s := MakeMoveStep(w.pos, w.log, m);
    MakeSound(w.pos, w.log, m);
    if s.ok {
      assert RegistryOk(w.reg, |s.pos.pieces|);
      LastSound(s.pos, w.reg, s.log);
    }
  }

  /**
   * `finalizeMove`: a memento of the game state is pushed; a promotion by a human player waits
   * for the dialog and nothing else changes yet, any other move is committed at once. The second
   * component is false when `makeMove` threw.
   */
  function Finalize(w: World, m: Move): (World, bool)
    requires WorldOk(w) && MoveOk(w.pos, m) && Tagged(m)
  {
    var pushed := w.(mementos := w.mementos + [w.turn]);
    if AwaitsChoice(m, w.turn.currentPlayer) then (pushed, true) else Commit(pushed, m)
  }

  /**
   * Finalizing keeps the world sound and the arena growing, pushes exactly the game state it
   * started from, keeps the game-over flag, and changes nothing else while the move waits.
   */
  lemma FinalizeSound(w: World, m: Move)
    requires WorldOk(w) && MoveOk(w.pos, m) && Tagged(m)
    ensures var f := Finalize(w, m);
            WorldOk(f.0) && |w.pos.pieces| <= |f.0.pos.pieces| &&
            f.0.mementos == w.mementos + [w.turn] && f.0.over == w.over &&
            (AwaitsChoice(m, w.turn.currentPlayer) ==> f == (w.(mementos := w.mementos + [w.turn]), true))
  {
    CommitSound(w.(mementos := w.mementos + [w.turn]), m);
  }

  /** `finalizeMove` and then `handleCheckAndCheckmate`, which is skipped when `makeMove` threw. */
  function Played(w: World, m: Move): World
    requires WorldOk(w) && MoveOk(w.pos, m) && Tagged(m)
  {
    FinalizeSound(w, m);
    var f := Finalize(w, m);
    if f.1 then Judged(f.0) else f.0
  }

  /** The handler's own fields: first click, selection, moves, pending promotion. */
  type Controls = (bool, Option<PieceId>, seq<Move>, Option<Move>)

  /** The handler's own fields after `finalizeMove(m)`, where `ok` is false when `makeMove` threw. */
  function Finalized(c: Controls, m: Move, current: Player, ok: bool): Controls {
    var waits := AwaitsChoice(m, current);
    (c.0 || (ok && !waits), c.1, c.2, if waits then Some(m) else c.3)
  }

  /** What `SingleUndo` is, spelled out for the handler's method. */
  lemma UndoIs(w: World)
    requires WorldOk(w) && w.mementos != []
    ensures LastOk(w.pos, Last(w.log.history)) && Recorded(w.pos, w.log.history)
    ensures var last := Last(w.log.history);
            last.Some? && last.value.isPromotion ==> last.value.variant.Promotion? && last.value.variant.promotedPiece.Some?
    ensures var s := UndoStep(w.pos, w.log);
            SingleUndo(w) == World(s.pos, Unpromoted(w.pos, w.reg, Last(w.log.history)), s.log,
                                   w.mementos[|w.mementos| - 1], false, w.mementos[..|w.mementos| - 1])
  {
    LastSound(w.pos, w.reg, w.log);
  }

  /**
   * The end of `handleSingleRedo` on the world: the registry follows a promotion by the last
   * move, a memento of the game state is pushed and the players swap.
   */
  function RedoTail(w: World): World
    requires WorldOk(w) && w.log.history != []
  {
    LastSound(w.pos, w.reg, w.log);
    var last := w.log.history[|w.log.history| - 1];
    w.(reg := Promoted(w.pos, w.reg, last), turn := Swap(w.turn), mementos := w.mementos + [w.turn])
  }

  /** `SingleRedo` is the history's redo followed by `RedoTail`. */
  lemma RedoIs(w: World)
    requires WorldOk(w) && w.log.undone != []
    ensures Recorded(w.pos, w.log.undone)
    ensures var s := RedoStep(w.pos, w.log);
            var w1 := w.(pos := s.pos, log := s.log);
            WorldOk(w1) && w1.log.history != [] && SingleRedo(w) == RedoTail(w1)
  {
    RedoSound(w.pos, w.log);
    var s := RedoStep(w.pos, w.log);
    assert RegistryOk(w.reg, |s.pos.pieces|);
  }

  /**
   * `handleSingleUndo`: the game-over flag cleared, the registry's promotion exchange reversed,
   * the move undone, and the top memento popped and restored.
   */
  function SingleUndo(w: World): (r: World)
    requires WorldOk(w) && w.mementos != []
    ensures WorldOk(r) && |w.pos.pieces| <= |r.pos.pieces|
    ensures r.turn == w.mementos[|w.mementos| - 1] && r.mementos == w.mementos[..|w.mementos| - 1] && !r.over
    ensures r.log == UndoStep(w.pos, w.log).log
  {
    LastSound(w.pos, w.reg, w.log);
    UndoSound(w.pos, w.log);
    var s := UndoStep(w.pos, w.log);
    UnpromotedSound(w.pos, s.pos, w.reg, Last(w.log.history));
    World(s.pos, Unpromoted(w.pos, w.reg, Last(w.log.history)), s.log,
          w.mementos[|w.mementos| - 1], false, w.mementos[..|w.mementos| - 1])
  }

  /**
   * `handleSingleRedo`: the move redone, the registry following a promotion, a memento of the
   * game state pushed, and the players swapped.
   */
  function SingleRedo(w: World): (r: World)
    requires WorldOk(w) && w.log.undone != []
    ensures WorldOk(r) && |w.pos.pieces| <= |r.pos.pieces|
    ensures r.turn == Swap(w.turn) && r.mementos == w.mementos + [w.turn] && r.over == w.over
    ensures r.log == RedoStep(w.pos, w.log).log
  {
    RedoSound(w.pos, w.log);
    var s := RedoStep(w.pos, w.log);
    LastSound(s.pos, w.reg, s.log);
    var last := s.log.history[|s.log.history| - 1];
    assert RegistryOk(w.reg, |s.pos.pieces|);
    PromotedSound(s.pos, s.pos, w.reg, last);
    World(s.pos, Promoted(s.pos, w.reg, last), s.log, Swap(w.turn), w.over, w.mementos + [w.turn])
  }

  /** `undoCount` and `redoCount`: two plies against the engine when player1 is to move, else one. */
  function PlyCount(t: GameStateMemento): (n: nat)
    ensures n == 1 || n == 2
  {
    if t.currentPlayer == t.player1 && t.player2.IsStockfish() then 2 else 1
  }

  /** `k` single undos in a row. */
  function UndoN(w: World, k: nat): (r: World)
    requires WorldOk(w) && k <= |w.mementos|
    ensures WorldOk(r) && |r.mementos| + k == |w.mementos|
    decreases k
  {
    if k == 0 then w else SingleUndo(UndoN(w, k - 1))
  }

  /** `k` single redos in a row. */
  function RedoN(w: World, k: nat): (r: World)
    requires WorldOk(w) && k <= |w.log.undone|
    ensures WorldOk(r) && |r.log.undone| + k == |w.log.undone| && |r.mementos| == |w.mementos| + k
    decreases k
  {
    if k == 0 then w else SingleRedo(RedoN(w, k - 1))
  }

  /** A single undo when a memento is left to restore, otherwise the world as it is. */
  function UndoOrStay(w: World): World {
    if WorldOk(w) && w.mementos != [] then SingleUndo(w) else w
  }

  /** `k` steps of `f` from `w`. */
  ghost function Iterate(f: World -> World, w: World, k: nat): World
    decreases k
  {
    if k == 0 then w else f(Iterate(f, w, k - 1))
  }

  /** Each world of the list is `f` of the one before it. */
  ghost predicate Chain(f: World -> World, ws: seq<World>) {
    |ws| > 0 && forall k: nat :: k + 1 < |ws| ==> ws[k + 1] == f(ws[k])
  }

  lemma {:induction false} ChainAt(f: World -> World, ws: seq<World>, i: nat)
    requires Chain(f, ws) && i < |ws|
    ensures ws[i] == Iterate(f, ws[0], i)
  {
    if i > 0 {
      ChainAt(f, ws, i - 1);
      assert ws[i] == f(ws[i - 1]);
    }
  }

  lemma ChainGrows(f: World -> World, ws: seq<World>)
    requires Chain(f, ws)
    ensures Chain(f, ws + [f(ws[|ws| - 1])])
  {
    var xs := ws + [f(ws[|ws| - 1])];
    forall k: nat | k + 1 < |xs| ensures xs[k + 1] == f(xs[k]) {
      assert xs[k] == ws[k];
      if k + 1 < |ws| {
        assert xs[k + 1] == ws[k + 1];
      }
    }
  }

  /** While mementos last, iterating `UndoOrStay` is `UndoN`. */
  lemma {:induction false} IterateUndo(w: World, k: nat)
    requires WorldOk(w) && k <= |w.mementos|
    ensures Iterate(UndoOrStay, w, k) == UndoN(w, k)
  {
    if k > 0 {
      IterateUndo(w, k - 1);
      IterateNext(UndoOrStay, w, k);
      UndoOrStayUndoes(UndoN(w, k - 1));
      UndoNStep(w, k);
    }
  }

  lemma IterateNext(f: World -> World, w: World, k: nat)
    requires k > 0
    ensures Iterate(f, w, k) == f(Iterate(f, w, k - 1))
  {
  }

  lemma UndoOrStayUndoes(w: World)
    requires WorldOk(w) && w.mementos != []
    ensures var f: World -> World := UndoOrStay; f(w) == SingleUndo(w)
  {
  }

  /** One more undo on top of `i - 1` of them. */
  lemma UndoNStep(w: World, i: nat)
    requires WorldOk(w) && 0 < i <= |w.mementos|
    ensures UndoN(w, i) == SingleUndo(UndoN(w, i - 1))
  {
  }

  /** The world at place `i` of an undo chain is `UndoN` from the first, while mementos last. */
  lemma UndoChainAt(ws: seq<World>, i: nat)
    requires Chain(UndoOrStay, ws) && WorldOk(ws[0]) && i < |ws| && i <= |ws[0].mementos|
    ensures ws[i] == UndoN(ws[0], i)
  {
    ChainAt(UndoOrStay, ws, i);
    IterateUndo(ws[0], i);
  }

  lemma UndoChainEnds(ws: seq<World>, n: nat)
    requires Chain(UndoOrStay, ws) && WorldOk(ws[0]) && |ws| - 1 <= n && |ws| - 1 <= |ws[0].mementos|
    requires |ws| - 1 == n || ws[|ws| - 1].mementos == []
    ensures UndoPlies(ws[0], n) == (ws[|ws| - 1], |ws| - 1 == n)
  {
    var m := |ws| - 1;
    UndoChainAt(ws, m);
    assert m == if n <= |ws[0].mementos| then n else |ws[0].mementos|;
  }


  /**
   * The loop of `handleUndoMove` over `n` turns: the world, and whether every turn found a
   * memento (otherwise the loop returned early and `finalizeUndoRedo` does not run). One memento
   * is popped per ply for as long as there are mementos, and the loop runs to the end exactly
   * when there were at least `n`.
   */
  function UndoPlies(w: World, n: nat): (r: (World, bool))
    requires WorldOk(w)
    ensures WorldOk(r.0)
    ensures r.1 <==> n <= |w.mementos|
    ensures r.1 ==> |r.0.mementos| + n == |w.mementos|
    ensures !r.1 ==> r.0.mementos == []
  {
    var k := if n <= |w.mementos| then n else |w.mementos|;
    (UndoN(w, k), k == n)
  }

  /**
   * The loop of `handleRedoMove` over `n` turns, stopping when the redo buffer is empty. One
   * move leaves the redo buffer and one memento is pushed per ply for as long as there are
   * undone moves, and the loop runs to the end exactly when there were at least `n`.
   */
  function RedoPlies(w: World, n: nat): (r: (World, bool))
    requires WorldOk(w)
    ensures WorldOk(r.0)
    ensures r.1 <==> n <= |w.log.undone|
    ensures r.1 ==> |r.0.log.undone| + n == |w.log.undone| && |r.0.mementos| == |w.mementos| + n
    ensures !r.1 ==> r.0.log.undone == [] && |r.0.mementos| == |w.mementos| + |w.log.undone|
  {
    var k := if n <= |w.log.undone| then n else |w.log.undone|;
    (RedoN(w, k), k == n)
  }


  /**
   * A redo followed by an undo gives back the players, the memento stack and, on a consistent
   * history, the history itself; the game-over flag is cleared.
   */
  lemma RedoThenUndoWorld(w: World)
    requires WorldOk(w) && w.log.undone != [] && Consistent(w.pos, w.log)
    ensures SingleRedo(w).mementos != []
    ensures var u := SingleUndo(SingleRedo(w));
            u.turn == w.turn && u.mementos == w.mementos && u.log == w.log && !u.over
  {
    RedoThenUndo(w.pos, w.log);
    var r := SingleRedo(w);
    assert r.mementos[..|r.mementos| - 1] == w.mementos;
  }

  /**
   * Undoing a move the handler has just committed gives back the players, the memento stack and
   * the history, with the move waiting in the redo buffer.
   */
  lemma FinalizeThenUndo(w: World, m: Move)
    requires WorldOk(w) && MoveOk(w.pos, m) && Tagged(m) && Consistent(w.pos, w.log)
    requires !AwaitsChoice(m, w.turn.currentPlayer) && Moves.Execute(w.pos, m).ok
    ensures var c := Finalize(w, m).0;
            WorldOk(c) && c.mementos != [] &&
            SingleUndo(c).turn == w.turn && SingleUndo(c).mementos == w.mementos &&
            SingleUndo(c).log == w.log.(undone := [Moves.Execute(w.pos, m).move])
  {
    MakeThenUndo(w.pos, w.log, m);
    var w1 := w.(mementos := w.mementos + [w.turn]);
    CommitSound(w1, m);
    FinalizeSound(w, m);
    assert w1.mementos[..|w1.mementos| - 1] == w.mementos;
  }

  // ------------------------------------------------------------ handleCheckAndCheckmate

  /** The branch `handleCheckAndCheckmate` takes; the GUI calls differ between them. */
  datatype Verdict = Checkmate | Stalemate | Check | Quiet

  /** `.filter((piece) => piece.isAlive())`. */
  function LiveOnly(pos: Position, ids: seq<PieceId>): (r: seq<PieceId>)
    requires AllExist(ids, |pos.pieces|)
    ensures |r| <= |ids| && AllExist(r, |pos.pieces|)
    ensures forall x :: x in r <==> x in ids && pos.pieces[x].alive
    decreases |ids|
  {
    if ids == [] then []
    else
      var rest := LiveOnly(pos, ids[1..]);
      assert forall x :: x in ids <==> x == ids[0] || x in ids[1..];
      if pos.pieces[ids[0]].alive then [ids[0]] + rest else rest
  }

  /** Some piece of the list has a legal move: the `for ... break` of `handleCheckAndCheckmate`. */
  predicate HasLegalMoves(pos: Position, reg: Registry, ids: seq<PieceId>, last: Option<Move>)
    requires Registered(pos, reg) && AllExist(ids, |pos.pieces|) && LastOk(pos, last)
    decreases |ids|
  {
    |ids| > 0 && (|LegalMoves(pos, reg, ids[0], last)| > 0 || HasLegalMoves(pos, reg, ids[1..], last))
  }

  /** The search finds a legal move exactly when some piece of the list has one. */
  lemma {:induction false} HasLegalMovesMeans(pos: Position, reg: Registry, ids: seq<PieceId>, last: Option<Move>)
    requires Registered(pos, reg) && AllExist(ids, |pos.pieces|) && LastOk(pos, last)
    ensures HasLegalMoves(pos, reg, ids, last) <==>
              exists k :: 0 <= k < |ids| && |LegalMoves(pos, reg, ids[k], last)| > 0
    decreases |ids|
  {
    if |ids| > 0 {
      HasLegalMovesMeans(pos, reg, ids[1..], last);
      if HasLegalMoves(pos, reg, ids[1..], last) {
        var k :| 0 <= k < |ids[1..]| && |LegalMoves(pos, reg, ids[1..][k], last)| > 0;
        assert ids[k + 1] == ids[1..][k];
      }
      if exists k :: 0 <= k < |ids| && |LegalMoves(pos, reg, ids[k], last)| > 0 {
        var k :| 0 <= k < |ids| && |LegalMoves(pos, reg, ids[k], last)| > 0;
        if k > 0 {
          assert ids[1..][k - 1] == ids[k];
        }
      }
    }
  }

  /** The live pieces the registry files under a player. */
  function LivePieces(pos: Position, reg: Registry, player: Player): (r: seq<PieceId>)
    requires Registered(pos, reg)
    ensures AllExist(r, |pos.pieces|)
  {
    PlayerPiecesOk(reg, player, |pos.pieces|);
    MembersExist(PlayerPieces(reg, player), |pos.pieces|);
    LiveOnly(pos, PlayerPieces(reg, player))
  }

  /**
   * The branches of `handleCheckAndCheckmate`, for the player to move: no legal move and in check;
   * no legal move, or one live piece on each side; in check; none of these.
   */
  function Judge(pos: Position, reg: Registry, current: Player, opposing: Player, last: Option<Move>): (v: Verdict)
    requires Registered(pos, reg) && LastOk(pos, last)
    ensures var mine := LivePieces(pos, reg, current);
            var theirs := LivePieces(pos, reg, opposing);
            var has := HasLegalMoves(pos, reg, mine, last);
            var check := KingInCheck(pos, reg, current, last);
            (v == Checkmate <==> !has && check) &&
            (v == Stalemate <==> !(!has && check) && (!has || (|mine| == 1 && |theirs| == 1))) &&
            (v == Check <==> has && !(|mine| == 1 && |theirs| == 1) && check)
  {
    var mine := LivePieces(pos, reg, current);
    var theirs := LivePieces(pos, reg, opposing);
    var has := HasLegalMoves(pos, reg, mine, last);
    var check := KingInCheck(pos, reg, current, last);
    if !has && check then Checkmate
    else if !has || (|mine| == 1 && |theirs| == 1) then Stalemate
    else if check then Check
    else Quiet
  }

  /** The game is over after the check: a halfmove clock of 100, a checkmate or a stalemate. */
  predicate Ends(v: Verdict, halfMoveClock: int) {
    halfMoveClock == 100 || v == Checkmate || v == Stalemate
  }

  /** The world after `handleCheckAndCheckmate`: only the game-over flag can change, and only to true. */
  function Judged(w: World): (r: World)
    requires WorldOk(w)
    ensures WorldOk(r) && r.(over := w.over) == w && (w.over ==> r.over)
  {
    LastSound(w.pos, w.reg, w.log);
    var v := Judge(w.pos, w.reg, w.turn.currentPlayer, w.turn.opposingPlayer, Last(w.log.history));
    w.(over := w.over || Ends(v, w.log.halfMoveClock))
  }

  /**
   * The game ends exactly when the halfmove clock reads 100, the player to move has no legal
   * move, or each side is down to one live piece; a lone piece on each side is reported on the
   * stalemate branch even when moves remain.
   */
  lemma JudgedMeans(w: World)
    requires WorldOk(w)
    ensures LastOk(w.pos, Last(w.log.history))
    ensures var mine := LivePieces(w.pos, w.reg, w.turn.currentPlayer);
            var theirs := LivePieces(w.pos, w.reg, w.turn.opposingPlayer);
            Judged(w).over <==>
              w.over || w.log.halfMoveClock == 100 ||
              !HasLegalMoves(w.pos, w.reg, mine, Last(w.log.history)) || (|mine| == 1 && |theirs| == 1)
  {
    LastSound(w.pos, w.reg, w.log);
  }

  /** The loop of `handleCheckAndCheckmate`: whether some piece of the list has a legal move. */
  method AnyLegalMove(pos: Position, reg: Registry, pieces: seq<PieceId>, last: Option<Move>) returns (has: bool)
    requires Registered(pos, reg) && AllExist(pieces, |pos.pieces|) && LastOk(pos, last)
    ensures has == HasLegalMoves(pos, reg, pieces, last)
  {
    has := false;
    var i := 0;
    while i < |pieces|
      invariant 0 <= i <= |pieces| && AllExist(pieces[i..], |pos.pieces|)
      invariant HasLegalMoves(pos, reg, pieces, last) == HasLegalMoves(pos, reg, pieces[i..], last)
    {
      var found := CalculateLegalMoves(pos, reg, pieces[i], last);
      assert pieces[i..][0] == pieces[i] && pieces[i..][1..] == pieces[i + 1..];
      if |found| > 0 {
        has := true;
        break;
      }
      i := i + 1;
    }
  }

  // ------------------------------------------------------------ the handler

  /** `moves.find((m) => m.getEndSquare().equals(target))`: the first move ending on the square. */
  function FindEnd(ms: seq<Move>, target: Square): (r: Option<Move>)
    ensures r.None? <==> forall k :: 0 <= k < |ms| ==> ms[k].endSquare != target
    ensures r.Some? ==> exists k :: 0 <= k < |ms| && ms[k] == r.value && r.value.endSquare == target &&
                                    forall j :: 0 <= j < k ==> ms[j].endSquare != target
    decreases |ms|
  {
    if ms == [] then None
    else if Squares.Equals(ms[0].endSquare, Some(target)) then Some(ms[0])
    else
      var r := FindEnd(ms[1..], target);
      if r.Some? then
        ghost var k :| 0 <= k < |ms[1..]| && ms[1..][k] == r.value && r.value.endSquare == target &&
                       forall j :: 0 <= j < k ==> ms[1..][j].endSquare != target;
        assert ms[k + 1] == r.value && forall j :: 0 <= j < k + 1 ==> ms[j].endSquare != target;
        r
      else r
  }

  /** The moves, the selected piece and the pending promotion name pieces of the board. */
  predicate Held(pos: Position, moves: seq<Move>, selected: Option<PieceId>, pending: Option<Move>) {
    (forall k :: 0 <= k < |moves| ==> MoveOk(pos, moves[k]) && Tagged(moves[k])) &&
    (selected.Some? ==> selected.value < |pos.pieces|) &&
    (pending.Some? ==> MoveOk(pos, pending.value) && pending.value.variant.Promotion? && Tagged(pending.value))
  }

  lemma HeldGrows(p: Position, q: Position, moves: seq<Move>, selected: Option<PieceId>, pending: Option<Move>)
    requires Held(p, moves, selected, pending) && Valid(q) && |p.pieces| <= |q.pieces|
    ensures Held(q, moves, selected, pending)
  {
    forall k | 0 <= k < |moves| ensures MoveOk(q, moves[k]) {
      MoveOkGrows(p, q, moves[k]);
    }
    if pending.Some? {
      MoveOkGrows(p, q, pending.value);
    }
  }

  /** A new selection on the same board, with either the old moves or moves of that board. */
  lemma HeldSelect(pos: Position, old_moves: seq<Move>, old_selected: Option<PieceId>, pending: Option<Move>,
                   own: bool, ms: seq<Move>, selected: Option<PieceId>)
    requires Held(pos, old_moves, old_selected, pending)
    requires forall k :: 0 <= k < |ms| ==> MoveOk(pos, ms[k]) && Tagged(ms[k])
    requires selected.Some? ==> selected.value < |pos.pieces|
    ensures Held(pos, if own then ms else old_moves, selected, pending)
  {
  }

  /** A piece of the player to move is selected. */
  predicate OwnPiece(pos: Position, selected: Option<PieceId>, player: Player) {
    selected.Some? && selected.value < |pos.pieces| && pos.pieces[selected.value].player == player
  }

  /** `isPromotion && !currentPlayer.isStockfish()`: the move waits for the promotion dialog. */
  predicate AwaitsChoice(m: Move, current: Player) {
    m.isPromotion && !current.IsStockfish()
  }

  /** Changing only the handler's fields other than the memento stack keeps the world. */
  twostate lemma WorldKept(h: MoveHandler)
    requires old(h.Wired()) && unchanged(h.board, h.pm, h.move, h.gs) && unchanged(h.board.board)
    requires h.mementos == old(h.mementos)
    ensures h.Wired() && h.W() == old(h.W())
  {
  }

  /** Changing only the game state's game-over flag keeps the rest of the world. */
  twostate lemma OverKept(h: MoveHandler)
    requires old(h.Wired()) && unchanged(h.board, h.pm, h.move, h) && unchanged(h.board.board)
    requires h.gs.CreateMemento() == old(h.gs.CreateMemento())
    ensures h.Wired() && h.W() == old(h.W()).(over := h.gs.isGameOver)
  {
  }

  /**
   * The handler is valid when its objects are wired together, its world is sound, and its moves,
   * selection and pending promotion belong to a board `p0` no larger than the world's.
   */
  lemma Rewired(h: MoveHandler, p0: Position, w: World)
    requires h.Linked() && h.W() == w && WorldOk(w)
    requires Held(p0, h.moves, h.selectedPiece, h.pendingPromotion) && |p0.pieces| <= |w.pos.pieces|
    ensures h.Valid()
  {
    HeldGrows(p0, h.board.Snap(), h.moves, h.selectedPiece, h.pendingPromotion);
  }

  /** A handler whose world is the commit of a sound world stays valid. */
  lemma CommitValid(h: MoveHandler, w0: World, m: Move)
    requires WorldOk(w0) && MoveOk(w0.pos, m) && Tagged(m)
    requires h.Linked() && h.W() == Commit(w0, m).0
    requires Held(w0.pos, h.moves, h.selectedPiece, h.pendingPromotion)
    ensures h.Valid()
  {
    CommitSound(w0, m);
    Rewired(h, w0.pos, Commit(w0, m).0);
  }

  /** A handler whose world is the redo of a sound world stays valid. */
  lemma RedoValid(h: MoveHandler, w0: World)
    requires WorldOk(w0) && w0.log.undone != []
    requires h.Linked() && h.W() == SingleRedo(w0)
    requires Held(w0.pos, h.moves, h.selectedPiece, h.pendingPromotion)
    ensures h.Valid()
  {
    Rewired(h, w0.pos, SingleRedo(w0));
  }

  /** Leaving the board and the history alone keeps their snapshots. */
  twostate lemma BoardKept(h: MoveHandler)
    requires old(h.Linked()) && unchanged(h.board, h.move) && unchanged(h.board.board)
    ensures h.board.Snap() == old(h.board.Snap()) && h.move.State() == old(h.move.State())
  {
  }

  /** Leaving the registry, the game state and the memento stack alone keeps them in the world. */
  twostate lemma OthersKept(h: MoveHandler)
    requires old(h.Linked()) && h.Linked() && unchanged(h.pm, h.gs) && h.mementos == old(h.mementos)
    ensures h.W() == old(h.W()).(pos := h.board.Snap(), log := h.move.State())
  {
  }

  /** Pushing onto the memento stack changes only the stack in the world. */
  twostate lemma MementosKept(h: MoveHandler)
    requires old(h.Wired()) && unchanged(h.board, h.pm, h.move, h.gs) && unchanged(h.board.board)
    ensures h.Wired() && h.W() == old(h.W()).(mementos := h.mementos)
  {
  }

  class MoveHandler {
    const board: ChessBoard
    const move: MoveHistory
    const gs: GameStates.GameState
    const pm: PieceManager
    var mementos: seq<GameStateMemento>
    var isFirstClick: bool
    var selectedPiece: Option<PieceId>
    var moves: seq<Move>
    /** The promotion move the dialog's callback will complete, if one is open. */
    var pendingPromotion: Option<Move>

    /** The handler's objects are the ones the board and the game state point at. */
    ghost predicate Linked()
      reads board
    {
      board.board.Length0 == 8 && board.board.Length1 == 8 && board.pieceManager == pm && gs.board == board
    }

    /** The objects are wired together and the history and the registry belong to the board. */
    ghost predicate Wired()
      reads board, board.board, board.pieceManager, pm, move
    {
      board.Valid() && board.pieceManager == pm && gs.board == board &&
      Sound(board.Snap(), pm.piecesByPlayer, move.State())
    }

    /** Wired, and the moves, the selection and the pending promotion belong to the board. */
    ghost predicate Valid()
      reads this, board, board.board, board.pieceManager, pm, move, gs
    {
      Wired() && Held(board.Snap(), moves, selectedPiece, pendingPromotion)
    }

    ghost function W(): World
      reads this`mementos, board, board.board, pm, move, gs
      requires board.board.Length0 == 8 && board.board.Length1 == 8
    {
      World(board.Snap(), pm.piecesByPlayer, move.State(), gs.CreateMemento(), gs.isGameOver, mementos)
    }

    /** The handler's own fields other than the memento stack. */
    function Ui(): (bool, Option<PieceId>, seq<Move>, Option<Move>)
      reads this
    {
      (isFirstClick, selectedPiece, moves, pendingPromotion)
    }

    /** `new MoveHandler(...)`: first click expected, nothing selected, no moves. */
    constructor(board: ChessBoard, moveHistory: MoveHistory, gameState: GameStates.GameState,
                mementos: seq<GameStateMemento>, pieceManager: PieceManager)
      ensures this.board == board && move == moveHistory && gs == gameState && pm == pieceManager
      ensures this.mementos == mementos
      ensures isFirstClick && selectedPiece == None && moves == [] && pendingPromotion == None
    {
      this.board := board;
      move := moveHistory;
      gs := gameState;
      this.mementos := mementos;
      pm := pieceManager;
      isFirstClick := true;
      selectedPiece := None;
      moves := [];
      pendingPromotion := None;
    }

    /** The piece on the square and, when it belongs to the player to move, its legal moves. */
    method PieceAndMoves(row: int, col: int) returns (sel: Option<PieceId>, own: bool, ms: seq<Move>)
      requires Wired() && OnBoard(row, col)
      ensures sel == At(board.Snap(), row, col) && (sel.Some? ==> sel.value < |board.pieces|)
      ensures own <==> OwnPiece(board.Snap(), sel, gs.currentPlayer)
      ensures own ==> ms == LegalMoves(board.Snap(), pm.piecesByPlayer, sel.value, move.GetLastMove())
      ensures forall k :: 0 <= k < |ms| ==> MoveOk(board.Snap(), ms[k]) && Tagged(ms[k])
    {
      sel := board.GetPieceAt(row, col);
      own := sel.Some? && board.pieces[sel.value].player == gs.currentPlayer;
      ms := [];
      if own {
        LastSound(board.Snap(), pm.piecesByPlayer, move.State());
        LegalMovesHeld(board.Snap(), pm.piecesByPlayer, sel.value, move.GetLastMove());
        ms := CalculateLegalMoves(board.Snap(), pm.piecesByPlayer, sel.value, move.GetLastMove());
      }
    }

    /**
     * `handleSelectPieceClick`: the piece on the square is selected. An empty square or a piece
     * of the other side changes nothing else; a piece of the player to move gets its legal moves,
     * and the first click is over exactly when it has at least one.
     */
    method HandleSelectPieceClick(row: int, col: int)
      requires Valid() && OnBoard(row, col)
      modifies this
      ensures Valid() && W() == old(W()) && mementos == old(mementos)
      ensures selectedPiece == At(board.Snap(), row, col) && pendingPromotion == old(pendingPromotion)
      ensures !OwnPiece(board.Snap(), selectedPiece, gs.currentPlayer) ==>
                moves == old(moves) && isFirstClick == old(isFirstClick)
      ensures OwnPiece(board.Snap(), selectedPiece, gs.currentPlayer) ==>
                moves == LegalMoves(board.Snap(), pm.piecesByPlayer, selectedPiece.value, move.GetLastMove()) &&
                (isFirstClick <==> old(isFirstClick) && moves == [])
    {
      var sel, own, ms := PieceAndMoves(row, col);
      ghost var pos := board.Snap();
      HeldSelect(pos, moves, selectedPiece, pendingPromotion, own, ms, sel);
      var newMoves, first := moves, isFirstClick;
      if own {
        newMoves := ms;
        if |newMoves| > 0 {
          first := false;
        }
      }
      selectedPiece, moves, isFirstClick := sel, newMoves, first;
      WorldKept(this);
      assert board.Snap() == pos;
    }

    /**
     * `handleDragStart`: as a select click, except that the first-click flag is left alone and
     * the moves are replaced even when there are none.
     */
    method HandleDragStart(row: int, col: int)
      requires Valid() && OnBoard(row, col)
      modifies this
      ensures Valid() && W() == old(W()) && mementos == old(mementos)
      ensures selectedPiece == At(board.Snap(), row, col)
      ensures isFirstClick == old(isFirstClick) && pendingPromotion == old(pendingPromotion)
      ensures !OwnPiece(board.Snap(), selectedPiece, gs.currentPlayer) ==> moves == old(moves)
      ensures OwnPiece(board.Snap(), selectedPiece, gs.currentPlayer) ==>
                moves == LegalMoves(board.Snap(), pm.piecesByPlayer, selectedPiece.value, move.GetLastMove())
    {
      var sel, own, ms := PieceAndMoves(row, col);
      ghost var pos := board.Snap();
      HeldSelect(pos, moves, selectedPiece, pendingPromotion, own, ms, sel);
      selectedPiece := sel;
      if own {
        moves := ms;
      }
      WorldKept(this);
      assert board.Snap() == pos;
    }

    /**
     * The branch `handleCheckAndCheckmate` takes: the first live piece of the player to move with
     * a legal move is looked for, then check, checkmate and stalemate are told apart.
     * `isKingInCheck` reads only the board, so it is asked once, up front.
     */
    method ChooseBranch() returns (verdict: Verdict)
      requires Wired()
      ensures LastOk(board.Snap(), move.GetLastMove())
      ensures verdict == Judge(board.Snap(), pm.piecesByPlayer, gs.currentPlayer, gs.opposingPlayer, move.GetLastMove())
    {
      var pos := board.Snap();
      var reg := pm.piecesByPlayer;
      var last := move.GetLastMove();
      LastSound(pos, reg, move.State());
      var playerPieces := LivePieces(pos, reg, gs.currentPlayer);
      var opponentPieces := LivePieces(pos, reg, gs.opposingPlayer);
      var hasLegalMoves := AnyLegalMove(pos, reg, playerPieces, last);
      var inCheck := board.IsKingInCheck(gs.currentPlayer, last);
      if !hasLegalMoves && inCheck {
        verdict := Checkmate;
      } else if !hasLegalMoves || (|playerPieces| == 1 && |opponentPieces| == 1) {
        verdict := Stalemate;
      } else if inCheck {
        verdict := Check;
      } else {
        verdict := Quiet;
      }
    }

    /** The `setGameOver(true)` calls of `handleCheckAndCheckmate`, given the branch it took. */
    method SetGameOverFor(verdict: Verdict)
      requires Valid()
      modifies gs
      ensures Valid() && W() == old(W()).(over := old(W()).over || Ends(verdict, move.halfMoveClock))
    {
      if move.halfMoveClock == 100 {
        gs.SetGameOver(true);
      }
      if verdict == Checkmate || verdict == Stalemate {
        gs.SetGameOver(true);
      }
      OverKept(this);
    }

    /**
     * `handleCheckAndCheckmate`: the game is over when the halfmove clock reads 100 and on the
     * checkmate and stalemate branches; the game-over flag is the only state that changes.
     */
    method HandleCheckAndCheckmate() returns (verdict: Verdict)
      requires Valid()
      modifies gs
      ensures Valid() && W() == Judged(old(W()))
      ensures verdict == Judge(old(W()).pos, old(W()).reg, old(W()).turn.currentPlayer,
                               old(W()).turn.opposingPlayer, Last(old(W()).log.history))
    {
      ghost var w0 := W();
      verdict := ChooseBranch();
      assert move.GetLastMove() == Last(w0.log.history);
      SetGameOverFor(verdict);
    }

    /**
     * `continueFinalizingMove`: the move is made through the history; when `makeMove` throws the
     * call ends there. Otherwise the registry follows a promotion, the first click is expected
     * again and the players swap.
     */
    method ContinueFinalizingMove(legalMove: Move) returns (ok: bool)
      requires Valid() && MoveOk(board.Snap(), legalMove) && Tagged(legalMove)
      modifies this`isFirstClick, board, board.board, move, gs, pm
      ensures Valid() && W() == Commit(old(W()), legalMove).0 && ok == Commit(old(W()), legalMove).1
      ensures Ui() == (old(isFirstClick) || ok, old(selectedPiece), old(moves), old(pendingPromotion))
    {
      ghost var w0 := W();
      CommitIs(w0, legalMove);
      ok := move.MakeMove(board, legalMove);
      OthersKept(this);
      if ok {
        var last := move.GetLastMove().value;
        FinishMove(last);
      }
      CommitValid(this, w0, legalMove);
    }

    /** The part of `continueFinalizingMove` after the move went through. */
    method FinishMove(last: Move)
      requires board.Valid() && pm.Valid() && MoveOk(board.Snap(), last)
      requires last.isPromotion ==> last.variant.Promotion? && last.variant.promotedPiece.Some?
      modifies this`isFirstClick, gs, pm
      ensures pm.Valid() && pm.piecesByPlayer == Promoted(board.Snap(), old(pm.piecesByPlayer), last)
      ensures board.Snap() == old(board.Snap()) && move.State() == old(move.State())
      ensures gs.CreateMemento() == Swap(old(gs.CreateMemento())) && gs.isGameOver == old(gs.isGameOver)
      ensures Ui() == (true, old(selectedPiece), old(moves), old(pendingPromotion)) && mementos == old(mementos)
    {
      pm.HandlePromotion(board.Snap(), last);
      isFirstClick := true;
      gs.SwapPlayers();
    }

    /** `mementos.push(gs.createMemento())`. */
    method PushMemento()
      requires Valid()
      modifies this`mementos
      ensures Valid() && W() == old(W()).(mementos := old(mementos) + [old(gs.CreateMemento())])
    {
      mementos := mementos + [gs.CreateMemento()];
      MementosKept(this);
    }

    /**
     * `finalizeMove`: a memento is pushed; a promotion by a human player is left pending for the
     * dialog, any other move goes through `continueFinalizingMove`.
     */
    method FinalizeMove(legalMove: Move) returns (ok: bool)
      requires Valid() && MoveOk(board.Snap(), legalMove) && Tagged(legalMove)
      modifies this`mementos, this`isFirstClick, this`pendingPromotion, board, board.board, move, gs, pm
      ensures Valid() && W() == Finalize(old(W()), legalMove).0 && ok == Finalize(old(W()), legalMove).1
      ensures Ui() == Finalized(old(Ui()), legalMove, old(gs.currentPlayer), ok)
    {
      ghost var w0 := W();
      FinalizeSound(w0, legalMove);
      PushMemento();
      if legalMove.isPromotion && !gs.currentPlayer.IsStockfish() {
        pendingPromotion := Some(legalMove);
        ok := true;
      } else {
        ok := ContinueFinalizingMove(legalMove);
      }
    }

    /**
     * The promotion dialog's callback: the chosen token is set on the pending move, which is then
     * committed. Check detection does not run from the callback.
     */
    method ResolvePromotion(promotionType: string) returns (ok: bool)
      requires Valid() && pendingPromotion.Some?
      modifies this`mementos, this`isFirstClick, this`pendingPromotion, board, board.board, move, gs, pm
      ensures var m := SetPromotionType(old(pendingPromotion).value, promotionType);
              MoveOk(old(board.Snap()), m) && Tagged(m) &&
              Valid() && W() == Commit(old(W()), m).0 && ok == Commit(old(W()), m).1
      ensures Ui() == (old(isFirstClick) || ok, old(selectedPiece), old(moves), None)
    {
      var legalMove := SetPromotionType(pendingPromotion.value, promotionType);
      pendingPromotion := None;
      ok := ContinueFinalizingMove(legalMove);
    }

    /**
     * The end shared by `handleMovePieceClick` and `handleDragDrop`: the move is finalized and,
     * unless `makeMove` threw, checks and the end of the game are detected.
     */
    method PlayMove(legalMove: Move) returns (ok: bool)
      requires Valid() && MoveOk(board.Snap(), legalMove) && Tagged(legalMove)
      modifies this`mementos, this`isFirstClick, this`pendingPromotion, board, board.board, move, gs, pm
      ensures Valid() && W() == Played(old(W()), legalMove) && ok == Finalize(old(W()), legalMove).1
      ensures Ui() == Finalized(old(Ui()), legalMove, old(gs.currentPlayer), ok)
    {
      ok := FinalizeMove(legalMove);
      if ok {
        var verdict := HandleCheckAndCheckmate();
      }
    }

    /**
     * `handleMovePieceClick`: without a selection the first click is expected again. A piece of
     * the player to move on the square is selected instead; a square no listed move ends on
     * changes nothing; otherwise the first listed move ending there is played.
     */
    method HandleMovePieceClick(row: int, col: int)
      requires Valid() && OnBoard(row, col)
      modifies this, board, board.board, move, gs, pm
      ensures Valid()
      ensures old(selectedPiece).None? ==>
                W() == old(W()) && Ui() == (true, None, old(moves), old(pendingPromotion))
      ensures old(selectedPiece).Some? && OwnPiece(old(board.Snap()), At(old(board.Snap()), row, col), old(gs.currentPlayer)) ==>
                W() == old(W()) && selectedPiece == At(board.Snap(), row, col) &&
                pendingPromotion == old(pendingPromotion) &&
                moves == LegalMoves(board.Snap(), pm.piecesByPlayer, selectedPiece.value, move.GetLastMove()) &&
                (isFirstClick <==> old(isFirstClick) && moves == [])
      ensures var found := FindEnd(old(moves), Square(row, col));
              old(selectedPiece).Some? && !OwnPiece(old(board.Snap()), At(old(board.Snap()), row, col), old(gs.currentPlayer)) ==>
                (found.None? ==> W() == old(W()) && Ui() == old(Ui())) &&
                (found.Some? ==> MoveOk(old(board.Snap()), found.value) && Tagged(found.value) &&
                                 W() == Played(old(W()), found.value) &&
                                 Ui() == Finalized(old(Ui()), found.value, old(gs.currentPlayer), Finalize(old(W()), found.value).1))
    {
      if selectedPiece.None? {
        isFirstClick := true;
        return;
      }
      var targetSquare := Square(row, col);
      var pieceAtTargetSquare := board.GetPieceAt(row, col);
      if pieceAtTargetSquare.Some? && board.pieces[pieceAtTargetSquare.value].player == gs.currentPlayer {
        HandleSelectPieceClick(row, col);
        return;
      }
      var legalMove := FindEnd(moves, targetSquare);
      if legalMove.None? {
        return;
      }
      var ok := PlayMove(legalMove.value);
    }

    /**
     * `handleDragDrop`: when no listed move ends on the square, or the selected piece is not the
     * mover's, the selection is dropped and the first click is expected again; otherwise the
     * first listed move ending there is played. A listed move with no selection makes the source
     * throw before any change.
     */
    method HandleDragDrop(endRow: int, endCol: int)
      requires Valid()
      modifies this, board, board.board, move, gs, pm
      ensures Valid()
      ensures var found := FindEnd(old(moves), Square(endRow, endCol));
              found.None? || (old(selectedPiece).Some? && !OwnPiece(old(board.Snap()), old(selectedPiece), old(gs.currentPlayer))) ==>
                W() == old(W()) && Ui() == (true, None, old(moves), old(pendingPromotion))
      ensures FindEnd(old(moves), Square(endRow, endCol)).Some? && old(selectedPiece).None? ==>
                W() == old(W()) && Ui() == old(Ui())
      ensures var found := FindEnd(old(moves), Square(endRow, endCol));
              found.Some? && OwnPiece(old(board.Snap()), old(selectedPiece), old(gs.currentPlayer)) ==>
                MoveOk(old(board.Snap()), found.value) && Tagged(found.value) &&
                W() == Played(old(W()), found.value) &&
                Ui() == Finalized(old(Ui()), found.value, old(gs.currentPlayer), Finalize(old(W()), found.value).1)
    {
      var targetSquare := Square(endRow, endCol);
      var legalMove := FindEnd(moves, targetSquare);
      if legalMove.Some? && selectedPiece.None? {
        return;
      }
      if legalMove.None? || board.pieces[selectedPiece.value].player != gs.currentPlayer {
        isFirstClick := true;
        selectedPiece := None;
        return;
      }
      var ok := PlayMove(legalMove.value);
    }

    /** The start of `handleSingleUndo`: the game-over flag cleared and the promotion exchange reversed. */
    method ClearAndUnpromote()
      requires board.Valid() && pm.Valid() && LastOk(board.Snap(), move.GetLastMove())
      requires var last := move.GetLastMove();
               last.Some? && last.value.isPromotion ==> last.value.variant.Promotion? && last.value.variant.promotedPiece.Some?
      modifies gs, pm
      ensures pm.Valid() && pm.piecesByPlayer == Unpromoted(board.Snap(), old(pm.piecesByPlayer), move.GetLastMove())
      ensures board.Snap() == old(board.Snap()) && move.State() == old(move.State())
      ensures gs.CreateMemento() == old(gs.CreateMemento()) && !gs.isGameOver
    {
      if gs.isGameOver {
        gs.SetGameOver(false);
      }
      pm.HandleUndoPromotion(board.Snap(), move.GetLastMove());
    }

    /** The end of `handleSingleUndo`: the top memento popped and restored. */
    method PopMemento()
      requires Linked() && mementos != []
      modifies this`mementos, gs
      ensures mementos == old(mementos[..|mementos| - 1]) && gs.CreateMemento() == old(mementos[|mementos| - 1])
      ensures gs.isGameOver == old(gs.isGameOver)
      ensures board.Snap() == old(board.Snap()) && move.State() == old(move.State())
    {
      var memento := mementos[|mementos| - 1];
      mementos := mementos[..|mementos| - 1];
      gs.RestoreFromMemento(memento);
    }

    /** `handleSingleUndo`, called only while there is a memento to pop. */
    method HandleSingleUndo()
      requires Valid() && mementos != []
      modifies this`mementos, board, board.board, move, gs, pm
      ensures Valid() && W() == SingleUndo(old(W())) && board.board == old(board.board)
    {
      ghost var w0 := W();
      UndoIs(w0);
      ClearAndUnpromote();
      move.UndoMove(board);
      PopMemento();
      Rewired(this, w0.pos, SingleUndo(w0));
    }

    /**
     * The end of `handleSingleRedo`: the registry follows a promotion, a memento of the game
     * state is pushed, the first click is expected again and the players swap.
     */
    method AfterRedo()
      requires Wired() && move.history != []
      modifies this`mementos, this`isFirstClick, gs, pm
      ensures Wired() && W() == RedoTail(old(W()))
      ensures Ui() == (true, old(selectedPiece), old(moves), old(pendingPromotion))
    {
      ghost var w := W();
      LastSound(w.pos, w.reg, w.log);
      var last := move.GetLastMove().value;
      PromotedSound(w.pos, w.pos, w.reg, last);
      pm.HandlePromotion(board.Snap(), last);
      mementos := mementos + [gs.CreateMemento()];
      isFirstClick := true;
      gs.SwapPlayers();
      BoardKept(this);
    }

    /** `handleSingleRedo`, called only while a move waits in the redo buffer. */
    method HandleSingleRedo()
      requires Valid() && move.undone != []
      modifies this`mementos, this`isFirstClick, board, board.board, move, gs, pm
      ensures Valid() && W() == SingleRedo(old(W())) && board.board == old(board.board)
      ensures Ui() == (true, old(selectedPiece), old(moves), old(pendingPromotion))
    {
      ghost var w0 := W();
      RedoIs(w0);
      move.RedoMove(board);
      OthersKept(this);
      AfterRedo();
      RedoValid(this, w0);
    }

    /**
     * `finalizeUndoRedo`: the selection is dropped, the first click is expected again, and checks
     * and the end of the game are detected.
     */
    method FinalizeUndoRedo()
      requires Valid()
      modifies this, gs
      ensures Valid() && W() == Judged(old(W()))
      ensures Ui() == (true, None, old(moves), old(pendingPromotion))
    {
      ResetSelection();
      var verdict := HandleCheckAndCheckmate();
    }

    /** `selectedPiece = null; isFirstClick = true`. */
    method ResetSelection()
      requires Valid()
      modifies this`selectedPiece, this`isFirstClick
      ensures Valid() && W() == old(W()) && Ui() == (true, None, old(moves), old(pendingPromotion))
    {
      selectedPiece := None;
      isFirstClick := true;
    }

    /**
     * The loop of `handleUndoMove`: up to `n` single undos, stopping early when the memento stack
     * runs out; `done` says whether all `n` ran. `n` is the ply count, one or two.
     */
    method UndoTurns(n: nat) returns (done: bool)
      requires Valid()
      modifies this`mementos, board, board.board, move, gs, pm
      ensures Valid() && board.board == old(board.board) && Ui() == old(Ui())
      ensures W() == UndoPlies(old(W()), n).0 && done == UndoPlies(old(W()), n).1
    {
      ghost var w0 := W();
      ghost var ws := [w0];
      var i := 0;
      while i < n
        invariant 0 <= i <= n && i <= |w0.mementos| && |ws| == i + 1 && Chain(UndoOrStay, ws) && ws[0] == w0
        invariant Valid() && board.board == old(board.board) && Ui() == old(Ui())
        invariant W() == ws[i]
      {
        if |mementos| < 1 {
          UndoChainEnds(ws, n);
          return false;
        }
        UndoChainAt(ws, i);
        ghost var prev := W();
        HandleSingleUndo();
        assert W() == UndoOrStay(prev);
        ChainGrows(UndoOrStay, ws);
        ws := ws + [W()];
        i := i + 1;
      }
      UndoChainEnds(ws, n);
      return true;
    }

    /**
     * `handleUndoMove`: one turn, or two when player1 is to move against the engine; when the
     * memento stack runs out first, the source returns without `finalizeUndoRedo`.
     */
    method HandleUndoMove()
      requires Valid()
      modifies this, board, board.board, move, gs, pm
      ensures var u := UndoPlies(old(W()), PlyCount(old(W()).turn));
              Valid() && W() == (if u.1 then Judged(u.0) else u.0) &&
              Ui() == (if u.1 then (true, None, old(moves), old(pendingPromotion)) else old(Ui()))
    {
      var undoCount := if gs.currentPlayer == gs.player1 && gs.player2.IsStockfish() then 2 else 1;
      var done := UndoTurns(undoCount);
      if done {
        FinalizeUndoRedo();
      }
    }

    /**
     * The loop of `handleRedoMove`: up to `n` single redos, stopping early when the redo buffer
     * runs out; `done` says whether all `n` ran. `n` is the ply count, one or two.
     */
    method RedoTurns(n: nat) returns (done: bool)
      requires Valid()
      modifies this`mementos, this`isFirstClick, board, board.board, move, gs, pm
      ensures Valid() && board.board == old(board.board)
      ensures W() == RedoPlies(old(W()), n).0 && done == RedoPlies(old(W()), n).1
      ensures isFirstClick <==> old(isFirstClick) || (n > 0 && old(W()).log.undone != [])
    {
      ghost var w0 := W();
      var i := 0;
      while i < n
        invariant 0 <= i <= n && i <= |w0.log.undone|
        invariant Valid() && board.board == old(board.board)
        invariant W() == RedoN(w0, i)
        invariant isFirstClick <==> old(isFirstClick) || i > 0
      {
        if |move.undone| < 1 {
          assert i == |w0.log.undone| && RedoPlies(w0, n) == (RedoN(w0, i), false);
          return false;
        }
        HandleSingleRedo();
        i := i + 1;
      }
      assert RedoPlies(w0, n) == (RedoN(w0, i), true);
      return true;
    }

    /**
     * `handleRedoMove`: one turn, or two when player1 is to move against the engine; when the
     * redo buffer runs out first, the source returns without `finalizeUndoRedo`.
     */
    method HandleRedoMove()
      requires Valid()
      modifies this, board, board.board, move, gs, pm
      ensures var u := RedoPlies(old(W()), PlyCount(old(W()).turn));
              Valid() && W() == (if u.1 then Judged(u.0) else u.0) &&
              Ui() == (if u.1 then (true, None, old(moves), old(pendingPromotion))
                       else (old(isFirstClick) || old(W()).log.undone != [], old(selectedPiece), old(moves), old(pendingPromotion)))
    {
      var redoCount := if gs.currentPlayer == gs.player1 && gs.player2.IsStockfish() then 2 else 1;
      var done := RedoTurns(redoCount);
      if done {
        FinalizeUndoRedo();
      }
    }
  }
}
