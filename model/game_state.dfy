/**
 * public/chess/model/game/GameState.js: whose turn it is, the two players, the captured pieces
 * and each player's list of them, and three flags. The state is a class whose methods update its
 * fields in place; the captured-piece lists hold arena ids of the board's pieces, and a piece's
 * owner is read from the board's arena as `piece.getPlayer()` reads it from the object.
 */
module GameStates {
  import opened Wrappers
  import opened Players
  import opened Pieces
  import opened Positions
  import opened Board
  import opened PieceRegistry
  import opened Mementos

  // ------------------------------------------------------------ updateCapturedPieces as a function

  /** Every id in the list names a piece of the arena. */
  predicate Owned(pieces: seq<ChessPiece>, ids: seq<PieceId>) {
    forall k :: 0 <= k < |ids| ==> ids[k] < |pieces|
  }

  /** No id occurs twice. */
  predicate NoDup(ids: seq<PieceId>) {
    forall i, j :: 0 <= i < j < |ids| ==> ids[i] != ids[j]
  }

  /**
   * One step of the `forEach` in `updateCapturedPieces`: a piece of player1 not yet in player1's
   * list is appended there; otherwise a piece of player2 not yet in player2's list is appended
   * there; otherwise nothing changes.
   */
  function File(pieces: seq<ChessPiece>, p1: Player, p2: Player, l1: seq<PieceId>, l2: seq<PieceId>, id: PieceId)
    : (r: (seq<PieceId>, seq<PieceId>))
    requires id < |pieces|
    ensures l1 <= r.0 && l2 <= r.1
    ensures r.0 == l1 || r.0 == l1 + [id]
    ensures r.1 == l2 || r.1 == l2 + [id]
  {
    var owner := pieces[id].player;
    if owner == p1 && id !in l1 then (l1 + [id], l2)
    else if owner == p2 && id !in l2 then (l1, l2 + [id])
    else (l1, l2)
  }

  /** The whole `forEach`: the captured pieces filed in order, starting from the lists given. */
  function Distribute(pieces: seq<ChessPiece>, captured: seq<PieceId>, p1: Player, p2: Player,
                      l1: seq<PieceId>, l2: seq<PieceId>): (r: (seq<PieceId>, seq<PieceId>))
    requires Owned(pieces, captured)
    ensures l1 <= r.0 && l2 <= r.1
    ensures |r.0| + |r.1| <= |l1| + |l2| + |captured|
    decreases |captured|
  {
    if captured == [] then (l1, l2)
    else
      var s := File(pieces, p1, p2, l1, l2, captured[0]);
      Distribute(pieces, captured[1..], p1, p2, s.0, s.1)
  }

  /**
   * With two distinct players, a piece ends in player1's list exactly when it was there already or
   * is a captured piece of player1, and likewise for player2.
   */
  lemma {:induction false} DistributeMembers(pieces: seq<ChessPiece>, captured: seq<PieceId>, p1: Player, p2: Player,
                                             l1: seq<PieceId>, l2: seq<PieceId>)
    requires Owned(pieces, captured) && p1 != p2
    ensures var r := Distribute(pieces, captured, p1, p2, l1, l2);
            (forall x :: x in r.0 <==> x in l1 || (x in captured && pieces[x].player == p1)) &&
            (forall x :: x in r.1 <==> x in l2 || (x in captured && pieces[x].player == p2))
    decreases |captured|
  {
    if captured != [] {
      var s := File(pieces, p1, p2, l1, l2, captured[0]);
      DistributeMembers(pieces, captured[1..], p1, p2, s.0, s.1);
      assert captured == [captured[0]] + captured[1..];
    }
  }

  /** Filing never puts an id into a list twice. */
  lemma {:induction false} DistributeNoDup(pieces: seq<ChessPiece>, captured: seq<PieceId>, p1: Player, p2: Player,
                                           l1: seq<PieceId>, l2: seq<PieceId>)
    requires Owned(pieces, captured) && NoDup(l1) && NoDup(l2)
    ensures var r := Distribute(pieces, captured, p1, p2, l1, l2); NoDup(r.0) && NoDup(r.1)
    decreases |captured|
  {
    if captured != [] {
      var s := File(pieces, p1, p2, l1, l2, captured[0]);
      assert NoDup(s.0) && NoDup(s.1);
      DistributeNoDup(pieces, captured[1..], p1, p2, s.0, s.1);
    }
  }

  /** Lists already holding every captured piece they should: filing changes nothing. */
  predicate Settled(pieces: seq<ChessPiece>, captured: seq<PieceId>, p1: Player, p2: Player,
                    l1: seq<PieceId>, l2: seq<PieceId>)
    requires Owned(pieces, captured)
  {
    forall k :: 0 <= k < |captured| ==>
      (pieces[captured[k]].player == p1 ==> captured[k] in l1) &&
      (pieces[captured[k]].player == p2 ==> captured[k] in l2)
  }

  lemma {:induction false} DistributeSettled(pieces: seq<ChessPiece>, captured: seq<PieceId>, p1: Player, p2: Player,
                                             l1: seq<PieceId>, l2: seq<PieceId>)
    requires Owned(pieces, captured) && Settled(pieces, captured, p1, p2, l1, l2)
    ensures Distribute(pieces, captured, p1, p2, l1, l2) == (l1, l2)
    decreases |captured|
  {
    if captured != [] {
      assert File(pieces, p1, p2, l1, l2, captured[0]) == (l1, l2);
      assert Settled(pieces, captured[1..], p1, p2, l1, l2) by {
        forall k | 0 <= k < |captured[1..]|
          ensures (pieces[captured[1..][k]].player == p1 ==> captured[1..][k] in l1) &&
                  (pieces[captured[1..][k]].player == p2 ==> captured[1..][k] in l2)
        {
          assert captured[1..][k] == captured[k + 1];
        }
      }
      DistributeSettled(pieces, captured[1..], p1, p2, l1, l2);
    }
  }

  /** `updateCapturedPieces` is idempotent: a second run over the same captured pieces adds nothing. */
  lemma DistributeIdempotent(pieces: seq<ChessPiece>, captured: seq<PieceId>, p1: Player, p2: Player,
                             l1: seq<PieceId>, l2: seq<PieceId>)
    requires Owned(pieces, captured) && p1 != p2
    ensures var r := Distribute(pieces, captured, p1, p2, l1, l2);
            Distribute(pieces, captured, p1, p2, r.0, r.1) == r
  {
    var r := Distribute(pieces, captured, p1, p2, l1, l2);
    DistributeMembers(pieces, captured, p1, p2, l1, l2);
    assert Settled(pieces, captured, p1, p2, r.0, r.1) by {
      forall k | 0 <= k < |captured|
        ensures (pieces[captured[k]].player == p1 ==> captured[k] in r.0) &&
                (pieces[captured[k]].player == p2 ==> captured[k] in r.1)
      {
        assert captured[k] in captured;
      }
    }
    DistributeSettled(pieces, captured, p1, p2, r.0, r.1);
  }

  /** One more captured piece at the end is filed after all the others. */
  lemma {:induction false} DistributeSnoc(pieces: seq<ChessPiece>, captured: seq<PieceId>, p1: Player, p2: Player,
                                          l1: seq<PieceId>, l2: seq<PieceId>, x: PieceId)
    requires Owned(pieces, captured) && x < |pieces|
    ensures Owned(pieces, captured + [x])
    ensures var r := Distribute(pieces, captured, p1, p2, l1, l2);
            Distribute(pieces, captured + [x], p1, p2, l1, l2) == File(pieces, p1, p2, r.0, r.1, x)
    decreases |captured|
  {
    if captured == [] {
      assert ([] + [x])[1..] == [];
    } else {
      var s := File(pieces, p1, p2, l1, l2, captured[0]);
      DistributeSnoc(pieces, captured[1..], p1, p2, s.0, s.1, x);
      assert (captured + [x])[1..] == captured[1..] + [x];
    }
  }

  /**
   * `addCapturedPiece` on up-to-date lists: the new piece goes to the end of its owner's list when
   * it is not there yet, and neither list gains anything else.
   */
  lemma AddCapturedFiles(pieces: seq<ChessPiece>, captured: seq<PieceId>, p1: Player, p2: Player,
                         l1: seq<PieceId>, l2: seq<PieceId>, x: PieceId)
    requires Owned(pieces, captured) && x < |pieces| && p1 != p2
    requires Settled(pieces, captured, p1, p2, l1, l2)
    ensures Owned(pieces, captured + [x])
    ensures var r := Distribute(pieces, captured + [x], p1, p2, l1, l2);
            r.0 == (if pieces[x].player == p1 && x !in l1 then l1 + [x] else l1) &&
            r.1 == (if pieces[x].player == p2 && x !in l2 then l2 + [x] else l2)
  {
    DistributeSnoc(pieces, captured, p1, p2, l1, l2, x);
    DistributeSettled(pieces, captured, p1, p2, l1, l2);
  }

  /**
   * `removeCapturedPiece` leaves `capturedPieces` alone, so the next `updateCapturedPieces` puts
   * a removed piece of either player straight back into its owner's list.
   */
  lemma RemovedPieceComesBack(pieces: seq<ChessPiece>, captured: seq<PieceId>, p1: Player, p2: Player,
                              l1: seq<PieceId>, l2: seq<PieceId>, x: PieceId)
    requires Owned(pieces, captured) && p1 != p2 && x in captured
    requires pieces[x].player == p1 || pieces[x].player == p2
    ensures var r := Distribute(pieces, captured, p1, p2, RemoveFirst(l1, x), RemoveFirst(l2, x));
            (pieces[x].player == p1 ==> x in r.0) && (pieces[x].player == p2 ==> x in r.1)
  {
    DistributeMembers(pieces, captured, p1, p2, RemoveFirst(l1, x), RemoveFirst(l2, x));
  }

  /** The player of the given colour among two players. */
  function Active(whiteToMove: bool, player1: Player, player2: Player): (p: Player)
    ensures player1.color != player2.color ==> (p.IsWhite() <==> whiteToMove)
    ensures p == player1 || p == player2
  {
    if whiteToMove == player1.IsWhite() then player1 else player2
  }

  /** `indexOf` then `splice(index, 1)` when the index is not -1: the first occurrence taken out. */
  method Splice(list: seq<PieceId>, piece: PieceId) returns (r: seq<PieceId>)
    ensures r == RemoveFirst(list, piece)
  {
    r := list;
    if piece in list {
      var index := FirstIndex(list, piece);
      r := list[..index] + list[index + 1..];
    }
  }

  // ------------------------------------------------------------ the class

  class GameState {
    const board: ChessBoard
    var player1: Player
    var player2: Player
    var currentPlayer: Player
    var opposingPlayer: Player
    var capturedPieces: seq<PieceId>
    var player1CapturedPieces: seq<PieceId>
    var player2CapturedPieces: seq<PieceId>
    /** The field; the method of the same name is shadowed by it (see README). */
    var isGameOver: bool
    var isBoardLocked: bool
    var stockfishElo: int

    /** Every captured-piece list names pieces of the board's arena. */
    ghost predicate ListsOwned()
      reads this, board
    {
      Owned(board.pieces, capturedPieces) && Owned(board.pieces, player1CapturedPieces) &&
      Owned(board.pieces, player2CapturedPieces)
    }

    /** The two players, one to move and one waiting. */
    predicate TurnOk()
      reads this
    {
      multiset{currentPlayer, opposingPlayer} == multiset{player1, player2}
    }

    /**
     * `new GameState(board, player1, player2)`: `init`, then no game over, an unlocked board and no
     * Stockfish rating.
     */
    constructor(board: ChessBoard, player1: Player, player2: Player)
      requires board.Valid()
      modifies board, board.board
      ensures this.board == board && this.player1 == player1 && this.player2 == player2
      ensures board.Valid() && board.pieceManager != null && board.Registry() == Build(board.Snap())
      ensures TurnOk() && (player1.color != player2.color ==> currentPlayer.IsWhite() && !opposingPlayer.IsWhite())
      ensures capturedPieces == [] && player1CapturedPieces == [] && player2CapturedPieces == []
      ensures !isGameOver && !isBoardLocked && stockfishElo == -1
    {
      this.board := board;
      this.player1 := player1;
      this.player2 := player2;
      isGameOver := false;
      isBoardLocked := false;
      stockfishElo := -1;
      new;
      Init();
    }

    /**
     * `init`: the board set to the starting layout, the white player to move, and the three
     * captured-piece lists emptied. The field updates do not depend on the board, so they come
     * first here.
     */
    method Init()
      requires board.Valid()
      modifies this, board, board.board
      ensures board.Valid() && board.board == old(board.board) && board.pieceManager != null
      ensures forall r, c :: OnBoard(r, c) ==>
                match StartCell(player1, player2, r, c)
                case None => board.board[r, c] == None
                case Some(tp) => board.Holds(r, c, tp.0, tp.1)
      ensures board.Registry() == Build(board.Snap())
      ensures player1 == old(player1) && player2 == old(player2)
      ensures TurnOk() && (player1.color != player2.color ==> currentPlayer.IsWhite() && !opposingPlayer.IsWhite())
      ensures capturedPieces == [] && player1CapturedPieces == [] && player2CapturedPieces == []
      ensures isGameOver == old(isGameOver) && isBoardLocked == old(isBoardLocked) && stockfishElo == old(stockfishElo)
    {
      StartTurn();
      board.Init(player1, player2);
    }

    /** The part of `init` after the board: white to move, no captured pieces. */
    method StartTurn()
      modifies this
      ensures player1 == old(player1) && player2 == old(player2)
      ensures TurnOk() && (player1.color != player2.color ==> currentPlayer.IsWhite() && !opposingPlayer.IsWhite())
      ensures capturedPieces == [] && player1CapturedPieces == [] && player2CapturedPieces == []
      ensures isGameOver == old(isGameOver) && isBoardLocked == old(isBoardLocked) && stockfishElo == old(stockfishElo)
    {
      if player1.color == White {
        currentPlayer, opposingPlayer := player1, player2;
      } else {
        currentPlayer, opposingPlayer := player2, player1;
      }
      capturedPieces, player1CapturedPieces, player2CapturedPieces := [], [], [];
    }

    /** `createMemento`: the players and copies of the three lists. */
    function CreateMemento(): (m: GameStateMemento)
      reads this
      ensures m.currentPlayer == currentPlayer && m.opposingPlayer == opposingPlayer
      ensures m.player1 == player1 && m.player2 == player2
      ensures m.capturedPieces == capturedPieces
      ensures m.player1CapturedPieces == player1CapturedPieces && m.player2CapturedPieces == player2CapturedPieces
    {
      GameStateMemento(currentPlayer, opposingPlayer, player1, player2,
                       capturedPieces, player1CapturedPieces, player2CapturedPieces)
    }

    /**
     * `restoreFromMemento`: every field the memento holds is set from it, so a memento taken now
     * is the one restored; the flags are left alone.
     */
    method RestoreFromMemento(memento: GameStateMemento)
      modifies this
      ensures CreateMemento() == memento
      ensures isGameOver == old(isGameOver) && isBoardLocked == old(isBoardLocked) && stockfishElo == old(stockfishElo)
    {
      currentPlayer := memento.currentPlayer;
      opposingPlayer := memento.opposingPlayer;
      player1 := memento.player1;
      player2 := memento.player2;
      capturedPieces := memento.capturedPieces;
      player1CapturedPieces := memento.player1CapturedPieces;
      player2CapturedPieces := memento.player2CapturedPieces;
    }

    /** `swapPlayers`: the player to move and the waiting player change places; twice is no change. */
    method SwapPlayers()
      modifies this
      ensures currentPlayer == old(opposingPlayer) && opposingPlayer == old(currentPlayer)
      ensures CreateMemento() == old(CreateMemento()).(currentPlayer := old(opposingPlayer), opposingPlayer := old(currentPlayer))
      ensures TurnOk() == old(TurnOk())
      ensures isGameOver == old(isGameOver) && isBoardLocked == old(isBoardLocked) && stockfishElo == old(stockfishElo)
    {
      var temp := currentPlayer;
      currentPlayer := opposingPlayer;
      opposingPlayer := temp;
    }

    /**
     * `setCurrentPlayerFromFEN`: with players of different colours, the player of the FEN's active
     * colour ("w" for white, anything else for black) moves next and the other one waits.
     */
    method SetCurrentPlayerFromFEN(activeColor: string)
      modifies this
      ensures currentPlayer == Active(activeColor == "w", player1, player2)
      ensures TurnOk()
      ensures player1.color != player2.color ==>
                (currentPlayer.IsWhite() <==> activeColor == "w") && currentPlayer != opposingPlayer
      ensures player1 == old(player1) && player2 == old(player2)
      ensures capturedPieces == old(capturedPieces)
      ensures player1CapturedPieces == old(player1CapturedPieces) && player2CapturedPieces == old(player2CapturedPieces)
      ensures isGameOver == old(isGameOver) && isBoardLocked == old(isBoardLocked) && stockfishElo == old(stockfishElo)
    {
      currentPlayer := if (activeColor == "w") == player1.IsWhite() then player1 else player2;
      opposingPlayer := if (activeColor == "w") == player1.IsWhite() then player2 else player1;
    }

    /** `lockBoard`: only the lock flag changes. */
    method LockBoard()
      modifies this
      ensures isBoardLocked
      ensures CreateMemento() == old(CreateMemento())
      ensures isGameOver == old(isGameOver) && stockfishElo == old(stockfishElo)
    {
      isBoardLocked := true;
    }

    /** `unlockBoard`: only the lock flag changes. */
    method UnlockBoard()
      modifies this
      ensures !isBoardLocked
      ensures CreateMemento() == old(CreateMemento())
      ensures isGameOver == old(isGameOver) && stockfishElo == old(stockfishElo)
    {
      isBoardLocked := false;
    }

    /** `isStockfish`: whether the player to move is the engine. */
    predicate IsStockfish()
      reads this
    {
      currentPlayer.kind == AI
    }

    /** `setGameOver`: only the game-over flag changes. */
    method SetGameOver(gameOver: bool)
      modifies this
      ensures isGameOver == gameOver
      ensures CreateMemento() == old(CreateMemento())
      ensures isBoardLocked == old(isBoardLocked) && stockfishElo == old(stockfishElo)
    {
      isGameOver := gameOver;
    }

    /**
     * `addCapturedPiece`: the piece appended to `capturedPieces`, then `updateCapturedPieces`;
     * by `AddCapturedFiles`, on up-to-date lists this files the one new piece.
     */
    method AddCapturedPiece(capturedPiece: PieceId)
      requires Owned(board.pieces, capturedPieces) && capturedPiece < |board.pieces|
      modifies this
      ensures capturedPieces == old(capturedPieces) + [capturedPiece] && Owned(board.pieces, capturedPieces)
      ensures (player1CapturedPieces, player2CapturedPieces) ==
              Distribute(board.pieces, capturedPieces, player1, player2,
                         old(player1CapturedPieces), old(player2CapturedPieces))
      ensures currentPlayer == old(currentPlayer) && opposingPlayer == old(opposingPlayer)
      ensures player1 == old(player1) && player2 == old(player2)
      ensures isGameOver == old(isGameOver) && isBoardLocked == old(isBoardLocked) && stockfishElo == old(stockfishElo)
    {
      capturedPieces := capturedPieces + [capturedPiece];
      UpdateCapturedPieces();
    }

    /**
     * `removeCapturedPiece`: the first occurrence of the piece taken out of each player's list
     * (`indexOf` and `splice`); `capturedPieces` itself keeps it.
     */
    method RemoveCapturedPiece(capturedPiece: PieceId)
      modifies this
      ensures player1CapturedPieces == RemoveFirst(old(player1CapturedPieces), capturedPiece)
      ensures player2CapturedPieces == RemoveFirst(old(player2CapturedPieces), capturedPiece)
      ensures capturedPieces == old(capturedPieces)
      ensures currentPlayer == old(currentPlayer) && opposingPlayer == old(opposingPlayer)
      ensures player1 == old(player1) && player2 == old(player2)
      ensures isGameOver == old(isGameOver) && isBoardLocked == old(isBoardLocked) && stockfishElo == old(stockfishElo)
    {
      player1CapturedPieces := Splice(player1CapturedPieces, capturedPiece);
      player2CapturedPieces := Splice(player2CapturedPieces, capturedPiece);
    }

    /**
     * `updateCapturedPieces`: the captured pieces walked in order, each one filed by `File`; the
     * lists end as `Distribute` says.
     */
    method UpdateCapturedPieces()
      requires Owned(board.pieces, capturedPieces)
      modifies this
      ensures capturedPieces == old(capturedPieces)
      ensures (player1CapturedPieces, player2CapturedPieces) ==
              Distribute(board.pieces, capturedPieces, player1, player2,
                         old(player1CapturedPieces), old(player2CapturedPieces))
      ensures currentPlayer == old(currentPlayer) && opposingPlayer == old(opposingPlayer)
      ensures player1 == old(player1) && player2 == old(player2)
      ensures isGameOver == old(isGameOver) && isBoardLocked == old(isBoardLocked) && stockfishElo == old(stockfishElo)
    {
      ghost var goal := Distribute(board.pieces, capturedPieces, player1, player2,
                                   player1CapturedPieces, player2CapturedPieces);
      var i := 0;
      while i < |capturedPieces|
        invariant i <= |capturedPieces| && Owned(board.pieces, capturedPieces[i..])
        invariant capturedPieces == old(capturedPieces)
        invariant currentPlayer == old(currentPlayer) && opposingPlayer == old(opposingPlayer)
        invariant player1 == old(player1) && player2 == old(player2)
        invariant isGameOver == old(isGameOver) && isBoardLocked == old(isBoardLocked) && stockfishElo == old(stockfishElo)
        invariant Distribute(board.pieces, capturedPieces[i..], player1, player2,
                             player1CapturedPieces, player2CapturedPieces) == goal
      {
        var piece := capturedPieces[i];
        assert capturedPieces[i..][1..] == capturedPieces[i + 1..];
        if board.pieces[piece].player == player1 && piece !in player1CapturedPieces {
          player1CapturedPieces := player1CapturedPieces + [piece];
        } else if board.pieces[piece].player == player2 && piece !in player2CapturedPieces {
          player2CapturedPieces := player2CapturedPieces + [piece];
        }
        i := i + 1;
      }
      assert capturedPieces[i..] == [];
    }
  }
}
