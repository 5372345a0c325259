/**
 * BaseMovementStrategy.js: the self-check filter every strategy shares. A raw move is legal when
 * trying it on a copy of the board does not leave the mover's king attacked.
 */
module BaseStrategy {
  import opened Wrappers
  import opened Squares
  import opened Players
  import opened Pieces
  import opened Positions
  import opened Moves
  import opened PieceRegistry
  import opened Sliding
  import opened PawnStrategy
  import opened Attacks

  /** Every move of the list can be executed on `pos`. */
  predicate AllOk(pos: Position, moves: seq<Move>) {
    forall m :: m in moves ==> MoveOk(pos, m)
  }

  /**
   * Executing a move of slot `n = |pos.pieces|` on a board whose first slots copy `pos` and whose
   * slot `n` copies the mover: the copies stay as they are and only slot `n` moves.
   */
  lemma ExecuteNewest(pos: Position, id: PieceId, q: Position, mv: Move)
    requires Mover(pos, id) && MoveOk(q, mv) && mv.piece == |pos.pieces|
    requires forall k :: 0 <= k < |pos.pieces| ==> q.pieces[k] == Copy(pos.pieces[k])
    requires q.pieces[|pos.pieces|] == Copy(pos.pieces[id])
    requires mv.capturedPiece.Some? ==> mv.capturedPiece.value > |pos.pieces|
    ensures forall k :: 0 <= k < |pos.pieces| ==> BaseExecute(q, mv).pos.pieces[k] == Copy(pos.pieces[k])
    ensures BaseExecute(q, mv).pos.pieces[|pos.pieces|] == WithSquare(Copy(pos.pieces[id]), mv.endSquare)
  {
    var n := |pos.pieces|;
    var p1 := TakeCaptured(q, mv);
    assert forall k :: 0 <= k <= n ==> p1.pieces[k] == q.pieces[k];
    assert !p1.pieces[n].HasMoveStatus();
  }

  /**
   * `wouldResultInCheck`, lines before the check: the board is copied (every piece a fresh copy
   * in the same slot), the mover is copied into a new slot `n` and the captured piece, if any,
   * into slot `n + 1`; a plain `Move` of those copies is then executed by `makeMove`.
   */
  function Simulate(pos: Position, id: PieceId, m: Move): (o: Outcome)
    requires Mover(pos, id) && MoveOk(pos, m)
    ensures Valid(o.pos) && LastOk(o.pos, Some(o.move))
    ensures |o.pos.pieces| == |pos.pieces| + (if m.capturedPiece.Some? then 2 else 1)
    ensures o.move.variant.Plain? && !o.move.isPromotion && o.move.piece == |pos.pieces|
    ensures o.move.startSquare == m.startSquare && o.move.endSquare == m.endSquare
    ensures o.move.isCapture <==> m.capturedPiece.Some?
    ensures m.capturedPiece.Some? <==> o.move.capturedPiece == Some(|pos.pieces| + 1)
    ensures forall k :: 0 <= k < |pos.pieces| ==> o.pos.pieces[k] == Copy(pos.pieces[k])
    ensures o.pos.pieces[|pos.pieces|] == WithSquare(Copy(pos.pieces[id]), m.endSquare)
  {
    var n := |pos.pieces|;
    var withMover := NewPiece(CopyPosition(pos), Copy(pos.pieces[id]));
    var q := if m.capturedPiece.Some? then NewPiece(withMover, Copy(pos.pieces[m.capturedPiece.value]))
             else withMover;
    var mv := NewMove(n, m.startSquare, m.endSquare, if m.capturedPiece.Some? then Some(n + 1) else None);
    assert q.pieces[..n + 1] == withMover.pieces;
    ExecuteNewest(pos, id, q, mv);
    BaseExecute(q, mv)
  }

  /**
   * `wouldResultInCheck`: after the simulated move the registry of the copied board is rebuilt
   * from its grid, and the answer is `isKingInCheck` for the mover's player, with the simulated
   * move as the last move of the copied history.
   */
  predicate WouldResultInCheck(pos: Position, id: PieceId, m: Move)
    requires Mover(pos, id) && MoveOk(pos, m)
  {
    var o := Simulate(pos, id, m);
    KingInCheck(o.pos, Build(o.pos), pos.pieces[id].player, Some(o.move))
  }

  /** What cell (i, j) of the simulated board holds. */
  function SimulatedCell(pos: Position, id: PieceId, m: Move, i: int, j: int): Cell
    requires Mover(pos, id) && MoveOk(pos, m) && OnBoard(i, j)
  {
    if Square(i, j) == m.endSquare then Some(|pos.pieces|)
    else if Square(i, j) == pos.pieces[id].square then None
    else if m.capturedPiece.Some? && Square(i, j) == pos.pieces[m.capturedPiece.value].square then None
    else At(pos, i, j)
  }

  /**
   * The simulated board: the mover's copy stands on the end square; the mover's own square and
   * the captured piece's square are cleared; every other cell is as on the live board.
   */
  lemma SimulatedBoard(pos: Position, id: PieceId, m: Move, i: int, j: int)
    requires Mover(pos, id) && MoveOk(pos, m) && OnBoard(i, j)
    ensures At(Simulate(pos, id, m).pos, i, j) == SimulatedCell(pos, id, m, i, j)
  {
    var n := |pos.pieces|;
    var withMover := NewPiece(CopyPosition(pos), Copy(pos.pieces[id]));
    assert withMover.cells == pos.cells;
    match m.capturedPiece
    case None =>
      var mv := NewMove(n, m.startSquare, m.endSquare, None);
      assert TakeCaptured(withMover, mv) == withMover;
    case Some(c) =>
      var withBoth := NewPiece(withMover, Copy(pos.pieces[c]));
      var mv := NewMove(n, m.startSquare, m.endSquare, Some(n + 1));
      var dead := SetAlive(withBoth, n + 1, false);
      assert dead.pieces[n + 1].square == pos.pieces[c].square;
      assert TakeCaptured(withBoth, mv) == RemovePiece(dead, n + 1);
  }

  /** The registry rebuilt after the simulation lists the mover's copy under the mover's player. */
  lemma SimulatedMoverRegistered(pos: Position, id: PieceId, m: Move)
    requires Mover(pos, id) && MoveOk(pos, m)
    ensures |pos.pieces| in PlayerPieces(Build(Simulate(pos, id, m).pos), pos.pieces[id].player)
  {
    var o := Simulate(pos, id, m);
    SimulatedBoard(pos, id, m, m.endSquare.row, m.endSquare.col);
    assert At(o.pos, m.endSquare.row, m.endSquare.col) == Some(|pos.pieces|);
    BuildFiles(o.pos, pos.pieces[id].player, |pos.pieces|);
  }

  /**
   * A piece absent from the simulated grid is listed under no player once the registry is
   * rebuilt: the copy of the captured piece in slot n + 1, and any live-board piece whose only
   * cells were the mover's square or the captured piece's square, so a captured attacker no
   * longer counts.
   */
  lemma SimulatedUnregistered(pos: Position, id: PieceId, m: Move, q: Player, x: PieceId)
    requires Mover(pos, id) && MoveOk(pos, m)
    requires x == |pos.pieces| + 1 || OnlyAt(pos, x, pos.pieces[id].square, m.capturedPiece)
    ensures x !in PlayerPieces(Build(Simulate(pos, id, m).pos), q)
  {
    var o := Simulate(pos, id, m);
    SimulatedNowhere(pos, id, m, x);
    if x < |o.pos.pieces| {
      BuildFiles(o.pos, q, x);
    }
  }

  /** The grid half of `SimulatedUnregistered`: no cell of the simulated board holds `x`. */
  lemma SimulatedNowhere(pos: Position, id: PieceId, m: Move, x: PieceId)
    requires Mover(pos, id) && MoveOk(pos, m)
    requires x == |pos.pieces| + 1 || OnlyAt(pos, x, pos.pieces[id].square, m.capturedPiece)
    ensures forall i, j | OnBoard(i, j) :: At(Simulate(pos, id, m).pos, i, j) != Some(x)
  {
    forall i, j | OnBoard(i, j) ensures At(Simulate(pos, id, m).pos, i, j) != Some(x) {
      SimulatedBoard(pos, id, m, i, j);
    }
  }

  /** Piece `x` stands in no cell but `s` and the square of the piece `c` names. */
  ghost predicate OnlyAt(pos: Position, x: PieceId, s: Square, c: Option<PieceId>)
    requires Valid(pos) && (c.Some? ==> c.value < |pos.pieces|)
  {
    x < |pos.pieces| &&
    forall i, j :: OnBoard(i, j) && At(pos, i, j) == Some(x) ==>
      Square(i, j) == s || (c.Some? && Square(i, j) == pos.pieces[c.value].square)
  }

  /** `calculateLegalMoves`, as a value: the raw moves, in order, that do not leave the king attacked. */
  function SafeMoves(pos: Position, id: PieceId, raw: seq<Move>): (legal: seq<Move>)
    requires Mover(pos, id) && AllOk(pos, raw)
    ensures |legal| <= |raw|
    ensures forall m :: m in legal <==> m in raw && !WouldResultInCheck(pos, id, m)
  {
    if |raw| == 0 then []
    else
      PrefixMembers(raw, |raw| - 1);
      var last := raw[|raw| - 1];
      assert raw == raw[..|raw| - 1] + [last];
      SafeMoves(pos, id, raw[..|raw| - 1]) + (if WouldResultInCheck(pos, id, last) then [] else [last])
  }

  /** The filter is taken move by move: filtering a concatenation filters each part, in order. */
  lemma {:induction false} SafeMovesAppend(pos: Position, id: PieceId, a: seq<Move>, b: seq<Move>)
    requires Mover(pos, id) && AllOk(pos, a) && AllOk(pos, b)
    ensures AllOk(pos, a + b)
    ensures SafeMoves(pos, id, a + b) == SafeMoves(pos, id, a) + SafeMoves(pos, id, b)
    decreases |b|
  {
    if |b| > 0 {
      var init := b[..|b| - 1];
      SafeMovesLast(pos, id, b);
      DropLastAppend(a, b);
      SafeMovesLast(pos, id, a + b);
      assert AllOk(pos, a + b);
      assert AllOk(pos, a + init);
      SafeMovesAppend(pos, id, a, init);
      var t := if WouldResultInCheck(pos, id, b[|b| - 1]) then [] else [b[|b| - 1]];
      assert SafeMoves(pos, id, a + b) == SafeMoves(pos, id, a + init) + t;
      assert SafeMoves(pos, id, b) == SafeMoves(pos, id, init) + t;
      AppendAssoc(SafeMoves(pos, id, a), SafeMoves(pos, id, init), t);
    } else {
      assert a + b == a;
    }
  }

  /** A single move is kept exactly when it does not leave the king attacked. */
  lemma SafeMovesOne(pos: Position, id: PieceId, m: Move)
    requires Mover(pos, id) && MoveOk(pos, m)
    ensures SafeMoves(pos, id, [m]) == if WouldResultInCheck(pos, id, m) then [] else [m]
  {
    assert [m][..0] == [];
  }

  /** The filtered moves of the first i + 1 raw moves. */
  /** Concatenation of move lists is associative. */
  lemma AppendAssoc(x: seq<Move>, y: seq<Move>, z: seq<Move>)
    ensures (x + y) + z == x + (y + z)
  {
  }

  /** Dropping the last element of `a + b`, for a non-empty `b`, drops it from `b`. */
  lemma DropLastAppend(a: seq<Move>, b: seq<Move>)
    requires |b| > 0
    ensures (a + b)[..|a + b| - 1] == a + b[..|b| - 1] && (a + b)[|a + b| - 1] == b[|b| - 1]
  {
  }

  /** `SafeMoves` of a non-empty list: the filtered front, then the last move if it is safe. */
  lemma SafeMovesLast(pos: Position, id: PieceId, raw: seq<Move>)
    requires Mover(pos, id) && AllOk(pos, raw) && |raw| > 0
    ensures AllOk(pos, raw[..|raw| - 1]) && MoveOk(pos, raw[|raw| - 1])
    ensures SafeMoves(pos, id, raw) == SafeMoves(pos, id, raw[..|raw| - 1]) +
              (if WouldResultInCheck(pos, id, raw[|raw| - 1]) then [] else [raw[|raw| - 1]])
  {
    PrefixMembers(raw, |raw| - 1);
    assert raw[|raw| - 1] in raw;
  }

  lemma SafeMovesSnoc(pos: Position, id: PieceId, raw: seq<Move>, i: nat)
    requires Mover(pos, id) && AllOk(pos, raw) && i < |raw|
    ensures AllOk(pos, raw[..i]) && AllOk(pos, raw[..i + 1])
    ensures SafeMoves(pos, id, raw[..i + 1]) ==
              SafeMoves(pos, id, raw[..i]) + (if WouldResultInCheck(pos, id, raw[i]) then [] else [raw[i]])
  {
    PrefixMembers(raw, i);
    PrefixMembers(raw, i + 1);
    assert raw[..i + 1][..i] == raw[..i];
  }

  /** Whether raw move `i` leaves the king in check, with the filter's step over that move. */
  function Unsafe(pos: Position, id: PieceId, raw: seq<Move>, i: nat): (b: bool)
    requires Mover(pos, id) && AllOk(pos, raw) && i < |raw|
    ensures AllOk(pos, raw[..i]) && AllOk(pos, raw[..i + 1])
    ensures SafeMoves(pos, id, raw[..i + 1]) == SafeMoves(pos, id, raw[..i]) + (if b then [] else [raw[i]])
  {
    SafeMovesSnoc(pos, id, raw, i);
    assert raw[i] in raw;
    WouldResultInCheck(pos, id, raw[i])
  }

  /** `calculateLegalMoves`: the loop that pushes every raw move the simulation finds safe. */
  method CalculateLegalMoves(pos: Position, id: PieceId, rawLegalMoves: seq<Move>) returns (legalMoves: seq<Move>)
    requires Mover(pos, id) && AllOk(pos, rawLegalMoves)
    ensures legalMoves == SafeMoves(pos, id, rawLegalMoves)
  {
    legalMoves := [];
    for i := 0 to |rawLegalMoves|
      invariant AllOk(pos, rawLegalMoves[..i])
      invariant legalMoves == SafeMoves(pos, id, rawLegalMoves[..i])
    {
      var move := rawLegalMoves[i];
      var unsafe := Unsafe(pos, id, rawLegalMoves, i);
      if !unsafe {
        legalMoves := legalMoves + [move];
      }
    }
    assert rawLegalMoves[..|rawLegalMoves|] == rawLegalMoves;
  }

  /** Raw moves of any strategy can be tried on the board they were generated on. */
  lemma RawMovesOk(pos: Position, id: PieceId, last: Option<Move>)
    requires Mover(pos, id) && LastOk(pos, last)
    ensures AllOk(pos, RawMoves(pos, id, last))
  {
  }
}
