/**
 * The PieceManager object of PieceManager.js: its Map, updated in place by the board's
 * moves and by the promotion handling of the move handler.
 */
module PieceManagers {
  import opened Wrappers
  import opened Squares
  import opened Players
  import opened Pieces
  import opened Positions
  import opened Moves
  import opened PieceRegistry

  /** `FirstKing` scans left to right: the first king after a run of non-kings is the answer. */
  lemma {:induction false} FirstKingAt(ids: seq<PieceId>, pieces: seq<ChessPiece>, i: nat)
    requires forall x :: x in ids ==> x < |pieces|
    requires forall k :: 0 <= k < |ids| ==> ids[k] < |pieces|
    requires i <= |ids| && forall j :: 0 <= j < i ==> pieces[ids[j]].kind != King
    ensures i < |ids| && pieces[ids[i]].kind == King ==> FirstKing(ids, pieces) == Some(ids[i])
    ensures i == |ids| ==> FirstKing(ids, pieces) == None
  {
    if i > 0 {
      SuffixMembers(ids, 1);
      FirstKingAt(ids[1..], pieces, i - 1);
    }
  }

  /** Filing one more piece extends the walk by one step. */
  lemma AddAllSnoc(done: seq<PieceId>, id: PieceId, pieces: seq<ChessPiece>)
    requires forall x :: x in done ==> x < |pieces|
    requires id < |pieces|
    ensures AddAll([], done + [id], pieces) == Add(AddAll([], done, pieces), id, pieces[id].player)
  {
    assert (done + [id])[..|done|] == done;
  }

  /** The walk over the first `r + 1` rows is the walk over the first `r` rows, then row `r`. */
  lemma OccupantsSnoc(rows: seq<seq<Cell>>, r: nat)
    requires r < |rows|
    ensures Occupants(rows[..r + 1]) == Occupants(rows[..r]) + RowOccupants(rows[r])
  {
    assert rows[..r + 1][..r] == rows[..r];
  }

  /** The row-major walk of `initPieces`, one row. */
  method FileRow(reg0: Registry, done: seq<PieceId>, row: seq<Cell>, pieces: seq<ChessPiece>) returns (reg: Registry)
    requires forall x :: x in done ==> x < |pieces|
    requires forall x :: Some(x) in row ==> x < |pieces|
    requires KeysUnique(reg0) && reg0 == AddAll([], done, pieces)
    ensures KeysUnique(reg)
    ensures forall x :: x in done + RowOccupants(row) ==> x < |pieces|
    ensures reg == AddAll([], done + RowOccupants(row), pieces)
  {
    reg := reg0;
    assert done + RowOccupants(row[..0]) == done;
    for c := 0 to |row|
      invariant KeysUnique(reg)
      invariant forall x :: x in done + RowOccupants(row[..c]) ==> x < |pieces|
      invariant reg == AddAll([], done + RowOccupants(row[..c]), pieces)
    {
      var walked := done + RowOccupants(row[..c]);
      assert row[..c + 1][..c] == row[..c];
      match row[c] {
        case None =>
          assert RowOccupants(row[..c + 1]) == RowOccupants(row[..c]);
        case Some(id) =>
          assert Some(id) in row;
          assert walked + [id] == done + RowOccupants(row[..c + 1]);
          AddAllSnoc(walked, id, pieces);
          reg := Add(reg, id, pieces[id].player);
      }
    }
    assert row[..|row|] == row;
  }

  /** `initPieces` as a walk over the rows. */
  method InitPieces(pos: Position) returns (reg: Registry)
    requires Valid(pos)
    ensures reg == Build(pos) && KeysUnique(reg)
  {
    reg := [];
    for r := 0 to 8
      invariant KeysUnique(reg)
      invariant forall x :: x in Occupants(pos.cells[..r]) ==> x < |pos.pieces|
      invariant reg == AddAll([], Occupants(pos.cells[..r]), pos.pieces)
    {
      var row := pos.cells[r];
      forall x | Some(x) in row ensures x < |pos.pieces| {
        var c :| 0 <= c < |row| && row[c] == Some(x);
      }
      OccupantsSnoc(pos.cells, r);
      reg := FileRow(reg, Occupants(pos.cells[..r]), row, pos.pieces);
    }
    assert pos.cells[..8] == pos.cells;
  }

  class PieceManager {
    var piecesByPlayer: Registry

    ghost predicate Valid()
      reads this
    {
      KeysUnique(piecesByPlayer)
    }

    /** `initPieces`: the board's pieces, row by row, filed under their owners. */
    constructor(pos: Position)
      requires Positions.Valid(pos)
      ensures Valid() && piecesByPlayer == Build(pos)
    {
      var reg := InitPieces(pos);
      piecesByPlayer := reg;
    }

    /** `getPlayerPieces`. */
    function GetPlayerPieces(player: Player): seq<PieceId>
      reads this
    {
      PlayerPieces(piecesByPlayer, player)
    }

    /** `removePiece`: the first occurrence leaves the owner's array; other arrays are untouched. */
    method RemovePiece(id: PieceId, owner: Player)
      requires Valid()
      modifies this
      ensures Valid() && piecesByPlayer == Remove(old(piecesByPlayer), id, owner)
      ensures GetPlayerPieces(owner) == RemoveFirst(old(GetPlayerPieces(owner)), id)
      ensures forall p :: p != owner ==> GetPlayerPieces(p) == old(GetPlayerPieces(p))
    {
      piecesByPlayer := Remove(piecesByPlayer, id, owner);
    }

    /** `addPiece`: appended to the owner's array, which is created when missing. */
    method AddPiece(id: PieceId, owner: Player)
      requires Valid()
      modifies this
      ensures Valid() && piecesByPlayer == Add(old(piecesByPlayer), id, owner)
      ensures GetPlayerPieces(owner) == old(GetPlayerPieces(owner)) + [id]
      ensures forall p :: p != owner ==> GetPlayerPieces(p) == old(GetPlayerPieces(p))
    {
      piecesByPlayer := Add(piecesByPlayer, id, owner);
    }

    /** `findKingSquare`: the square of the player's first piece whose type is KING, if any. */
    method FindKingSquare(pos: Position, player: Player) returns (sq: Option<Square>)
      requires Positions.Valid(pos) && RegistryOk(piecesByPlayer, |pos.pieces|)
      ensures sq == KingSquare(piecesByPlayer, pos, player)
    {
      var ids := GetPlayerPieces(player);
      PlayerPiecesOk(piecesByPlayer, player, |pos.pieces|);
      assert forall k :: 0 <= k < |ids| ==> ids[k] in ids;
      var i := 0;
      while i < |ids|
        invariant 0 <= i <= |ids|
        invariant forall j :: 0 <= j < i ==> pos.pieces[ids[j]].kind != King
      {
        assert ids[i] in ids;
        if pos.pieces[ids[i]].kind == King {
          FirstKingAt(ids, pos.pieces, i);
          return Some(pos.pieces[ids[i]].square);
        }
        i := i + 1;
      }
      FirstKingAt(ids, pos.pieces, i);
      return None;
    }

    /** `getOpposingPieces`: every array whose key is not the player, in insertion order. */
    method GetOpposingPieces(player: Player) returns (s: seq<PieceId>)
      ensures s == Opposing(piecesByPlayer, player)
    {
      var reg := piecesByPlayer;
      s := [];
      var i := 0;
      while i < |reg|
        invariant 0 <= i <= |reg|
        invariant s == Opposing(reg[..i], player)
      {
        assert reg[..i + 1][..i] == reg[..i];
        if reg[i].player != player {
          s := s + reg[i].ids;
        }
        i := i + 1;
      }
      assert reg[..|reg|] == reg;
    }

    /**
     * `handlePromotion`: after a promotion is made, the pawn leaves its owner's array and the
     * promoted piece joins the array of its owner.
     */
    method HandlePromotion(pos: Position, m: Move)
      requires Valid() && MoveOk(pos, m)
      requires m.isPromotion ==> m.variant.Promotion? && m.variant.promotedPiece.Some?
      modifies this
      ensures Valid()
      ensures !m.isPromotion ==> piecesByPlayer == old(piecesByPlayer)
      ensures m.isPromotion ==>
        piecesByPlayer == Add(Remove(old(piecesByPlayer), m.variant.originalPiece,
                                     pos.pieces[m.variant.originalPiece].player),
                              m.variant.promotedPiece.value,
                              pos.pieces[m.variant.promotedPiece.value].player)
    {
      if m.isPromotion {
        var orig := m.variant.originalPiece;
        var promoted := m.variant.promotedPiece.value;
        RemovePiece(orig, pos.pieces[orig].player);
        AddPiece(promoted, pos.pieces[promoted].player);
      }
    }

    /** `handleUndoPromotion`: the reverse exchange, when there is a last move and it is a promotion. */
    method HandleUndoPromotion(pos: Position, last: Option<Move>)
      requires Valid() && (last.Some? ==> MoveOk(pos, last.value))
      requires last.Some? && last.value.isPromotion ==>
                 last.value.variant.Promotion? && last.value.variant.promotedPiece.Some?
      modifies this
      ensures Valid()
      ensures !(last.Some? && last.value.isPromotion) ==> piecesByPlayer == old(piecesByPlayer)
      ensures last.Some? && last.value.isPromotion ==>
        var m := last.value;
        piecesByPlayer == Add(Remove(old(piecesByPlayer), m.variant.promotedPiece.value,
                                     pos.pieces[m.variant.promotedPiece.value].player),
                              m.variant.originalPiece,
                              pos.pieces[m.variant.originalPiece].player)
    {
      if last.Some? && last.value.isPromotion {
        var m := last.value;
        RemovePiece(m.variant.promotedPiece.value, pos.pieces[m.variant.promotedPiece.value].player);
        AddPiece(m.variant.originalPiece, pos.pieces[m.variant.originalPiece].player);
      }
    }
  }
}
