/**
 * PieceManager.js: the registry that files every piece on the board under its owner.
 *
 * The source keeps a `Map` from player object to an array of pieces. Here it is a sequence of
 * entries in the Map's insertion order, keyed by the player value (the two players of a game
 * have different colours, so equal values are the same object). Pieces are arena indices of
 * the board they were registered from.
 */
module PieceRegistry {
  import opened Wrappers
  import opened Squares
  import opened Players
  import opened Pieces
  import opened Positions

  datatype Entry = Entry(player: Player, ids: seq<PieceId>)

  type Registry = seq<Entry>

  /** No player is a key twice, as in a Map. */
  predicate KeysUnique(reg: Registry) {
    forall i, j :: 0 <= i < j < |reg| ==> reg[i].player != reg[j].player
  }

  /** Every registered piece exists in the arena. */
  predicate RegistryOk(reg: Registry, n: nat) {
    forall i, x :: 0 <= i < |reg| && x in reg[i].ids ==> x < n
  }

  /** The position of `player`'s entry, if it has one. */
  function KeyIndex(reg: Registry, player: Player): (r: Option<nat>)
    ensures r.Some? ==> r.value < |reg| && reg[r.value].player == player &&
                        forall i :: 0 <= i < r.value ==> reg[i].player != player
    ensures r.None? ==> forall i :: 0 <= i < |reg| ==> reg[i].player != player
  {
    if |reg| == 0 then None
    else if reg[0].player == player then Some(0)
    else match KeyIndex(reg[1..], player)
      case None => None
      case Some(i) => Some(i + 1)
  }

  /** `getPlayerPieces`: the player's array, or an empty one. */
  function PlayerPieces(reg: Registry, player: Player): (s: seq<PieceId>)
    ensures KeysUnique(reg) ==>
      forall x :: x in s <==> exists i :: 0 <= i < |reg| && reg[i].player == player && x in reg[i].ids
  {
    match KeyIndex(reg, player)
    case None => []
    case Some(i) => reg[i].ids
  }

  lemma PlayerPiecesOk(reg: Registry, player: Player, n: nat)
    requires RegistryOk(reg, n)
    ensures forall x :: x in PlayerPieces(reg, player) ==> x < n
  {
  }

  function AppendedIndex(reg: Registry, e: Entry, p: Player): Option<nat> {
    match KeyIndex(reg, p)
    case Some(i) => Some(i)
    case None => if e.player == p then Some(|reg|) else None
  }

  /** A new key at the end is found only when no earlier entry has it. */
  lemma {:induction false} KeyIndexAppend(reg: Registry, e: Entry, p: Player)
    ensures KeyIndex(reg + [e], p) == AppendedIndex(reg, e, p)
  {
    if |reg| > 0 {
      assert (reg + [e])[1..] == reg[1..] + [e];
      KeyIndexAppend(reg[1..], e, p);
    }
  }

  lemma KeyIndexesAppend(reg: Registry, e: Entry)
    ensures forall p :: KeyIndex(reg + [e], p) == AppendedIndex(reg, e, p)
  {
    forall p ensures KeyIndex(reg + [e], p) == AppendedIndex(reg, e, p) {
      KeyIndexAppend(reg, e, p);
    }
  }

  lemma KeyIndexesSameKeys(a: Registry, b: Registry)
    requires |a| == |b| && forall i :: 0 <= i < |a| ==> a[i].player == b[i].player
    ensures forall p :: KeyIndex(a, p) == KeyIndex(b, p)
  {
    forall p ensures KeyIndex(a, p) == KeyIndex(b, p) {
      KeyIndexSameKeys(a, b, p);
    }
  }

  lemma PrefixMembers<T>(s: seq<T>, hi: nat)
    requires hi <= |s|
    ensures forall x :: x in s[..hi] ==> x in s
  {
    forall x | x in s[..hi] ensures x in s {
      var k :| 0 <= k < hi && s[..hi][k] == x;
      assert s[k] == x;
    }
  }

  lemma SuffixMembers<T>(s: seq<T>, lo: nat)
    requires lo <= |s|
    ensures forall x :: x in s[lo..] ==> x in s
  {
    forall x | x in s[lo..] ensures x in s {
      var k :| 0 <= k < |s| - lo && s[lo..][k] == x;
      assert s[lo + k] == x;
    }
  }

  /** `addPiece`: appended to the owner's array, a new entry at the end when the owner has none. */
  function Add(reg: Registry, id: PieceId, owner: Player): (r: Registry)
    ensures KeysUnique(reg) ==> KeysUnique(r)
    ensures PlayerPieces(r, owner) == PlayerPieces(reg, owner) + [id]
    ensures forall p :: p != owner ==> PlayerPieces(r, p) == PlayerPieces(reg, p)
    ensures forall n: nat :: RegistryOk(reg, n) && id < n ==> RegistryOk(r, n)
  {
    match KeyIndex(reg, owner)
    case None =>
      KeyIndexesAppend(reg, Entry(owner, [id]));
      reg + [Entry(owner, [id])]
    case Some(i) =>
      KeyIndexSameKeys(reg, reg[i := Entry(owner, reg[i].ids + [id])], owner);
      KeyIndexesSameKeys(reg, reg[i := Entry(owner, reg[i].ids + [id])]);
      reg[i := Entry(owner, reg[i].ids + [id])]
  }

  /** The index of the first occurrence of `id`: `indexOf` when it is not -1. */
  function FirstIndex(s: seq<PieceId>, id: PieceId): (k: nat)
    requires id in s
    ensures k < |s| && s[k] == id && id !in s[..k]
  {
    if s[0] == id then 0
    else
      var k := FirstIndex(s[1..], id);
      assert s[..k + 1] == [s[0]] + s[1..][..k];
      k + 1
  }

  /** `indexOf` followed by `splice(index, 1)`: the first occurrence is dropped, if any. */
  function RemoveFirst(s: seq<PieceId>, id: PieceId): (r: seq<PieceId>)
    ensures id !in s ==> r == s
    ensures multiset(r) == multiset(s) - multiset{id}
  {
    if id !in s then s
    else
      var k := FirstIndex(s, id);
      assert s == s[..k] + [s[k]] + s[k + 1..];
      s[..k] + s[k + 1..]
  }

  /**
   * `RemoveFirst` drops exactly the first occurrence: the entries before it and the entries after
   * it are kept, in their order.
   */
  lemma RemoveFirstDropsFirst(s: seq<PieceId>, id: PieceId)
    ensures id in s ==>
      exists k :: 0 <= k < |s| && s[k] == id && id !in s[..k] && RemoveFirst(s, id) == s[..k] + s[k + 1..]
  {
    if id in s {
      var k := FirstIndex(s, id);
      assert RemoveFirst(s, id) == s[..k] + s[k + 1..];
    }
  }

  lemma RemoveFirstKeeps(s: seq<PieceId>, id: PieceId)
    ensures forall x :: x in RemoveFirst(s, id) ==> x in s
  {
    forall x | x in RemoveFirst(s, id) ensures x in s {
      assert x in multiset(RemoveFirst(s, id));
    }
  }

  /** `KeyIndex` looks at the keys only. */
  lemma {:induction false} KeyIndexSameKeys(a: Registry, b: Registry, player: Player)
    requires |a| == |b| && forall i :: 0 <= i < |a| ==> a[i].player == b[i].player
    ensures KeyIndex(a, player) == KeyIndex(b, player)
  {
    if |a| > 0 {
      KeyIndexSameKeys(a[1..], b[1..], player);
    }
  }

  /** `removePiece`: the piece leaves its owner's array; nothing happens when it is not there. */
  function Remove(reg: Registry, id: PieceId, owner: Player): (r: Registry)
    ensures KeysUnique(reg) ==> KeysUnique(r)
    ensures PlayerPieces(r, owner) == RemoveFirst(PlayerPieces(reg, owner), id)
    ensures forall p :: p != owner ==> PlayerPieces(r, p) == PlayerPieces(reg, p)
    ensures forall n: nat :: RegistryOk(reg, n) ==> RegistryOk(r, n)
  {
    match KeyIndex(reg, owner)
    case None => reg
    case Some(i) =>
      RemoveAtFor(reg, i, id);
      RemoveAt(reg, i, id)
  }

  /** `RemoveAt` seen from each player: only the array of entry `i`'s key loses the piece. */
  lemma RemoveAtFor(reg: Registry, i: nat, id: PieceId)
    requires i < |reg|
    ensures forall p :: PlayerPieces(RemoveAt(reg, i, id), p) ==
                          if KeyIndex(reg, p) == Some(i) then RemoveFirst(reg[i].ids, id) else PlayerPieces(reg, p)
  {
    var r := RemoveAt(reg, i, id);
    forall p
      ensures PlayerPieces(r, p) ==
                if KeyIndex(reg, p) == Some(i) then RemoveFirst(reg[i].ids, id) else PlayerPieces(reg, p)
    {
      assert KeyIndex(r, p) == KeyIndex(reg, p);
      match KeyIndex(reg, p)
      case None =>
      case Some(j) =>
        if j != i {
          assert r[j] == reg[j];
        }
    }
  }

  function RemoveAt(reg: Registry, i: nat, id: PieceId): (r: Registry)
    requires i < |reg|
    ensures |r| == |reg| && r[i] == Entry(reg[i].player, RemoveFirst(reg[i].ids, id))
    ensures forall j :: 0 <= j < |reg| && j != i ==> r[j] == reg[j]
    ensures KeysUnique(reg) ==> KeysUnique(r)
    ensures forall p :: KeyIndex(r, p) == KeyIndex(reg, p)
    ensures forall n: nat :: RegistryOk(reg, n) ==> RegistryOk(r, n)
  {
    var r := reg[i := Entry(reg[i].player, RemoveFirst(reg[i].ids, id))];
    RemoveFirstKeeps(reg[i].ids, id);
    KeyIndexesSameKeys(reg, r);
    r
  }

  /** The pieces of one row, left to right. */
  function RowOccupants(row: seq<Cell>): (s: seq<PieceId>)
    ensures forall x :: x in s <==> Some(x) in row
  {
    if |row| == 0 then []
    else
      var init := RowOccupants(row[..|row| - 1]);
      assert row == row[..|row| - 1] + [row[|row| - 1]];
      match row[|row| - 1]
      case None => init
      case Some(x) => init + [x]
  }

  /** The pieces of a grid, row by row: the order in which `initPieces` meets them. */
  function Occupants(rows: seq<seq<Cell>>): (s: seq<PieceId>)
    ensures forall x :: x in s <==> exists r :: 0 <= r < |rows| && Some(x) in rows[r]
  {
    if |rows| == 0 then []
    else
      var init := rows[..|rows| - 1];
      var s := Occupants(init) + RowOccupants(rows[|rows| - 1]);
      assert forall r :: 0 <= r < |rows| - 1 ==> rows[r] == init[r];
      s
  }

  /** Each piece of `ids` added in turn under its owner. */
  function AddAll(reg: Registry, ids: seq<PieceId>, pieces: seq<ChessPiece>): (r: Registry)
    requires forall x :: x in ids ==> x < |pieces|
    ensures KeysUnique(reg) ==> KeysUnique(r)
    ensures forall n: nat :: RegistryOk(reg, n) && |pieces| <= n ==> RegistryOk(r, n)
  {
    if |ids| == 0 then reg
    else
      var last := ids[|ids| - 1];
      assert last in ids;
      PrefixMembers(ids, |ids| - 1);
      Add(AddAll(reg, ids[..|ids| - 1], pieces), last, pieces[last].player)
  }

  /** `initPieces`: the registry built from the board, row by row, left to right. */
  function Build(pos: Position): (r: Registry)
    requires Valid(pos)
    ensures KeysUnique(r) && RegistryOk(r, |pos.pieces|)
  {
    OccupantsExist(pos);
    AddAll([], Occupants(pos.cells), pos.pieces)
  }

  lemma OccupantsExist(pos: Position)
    requires Valid(pos)
    ensures forall x :: x in Occupants(pos.cells) ==> x < |pos.pieces|
  {
    forall x | x in Occupants(pos.cells) ensures x < |pos.pieces| {
      var r :| 0 <= r < |pos.cells| && Some(x) in pos.cells[r];
      var c :| 0 <= c < |pos.cells[r]| && pos.cells[r][c] == Some(x);
    }
  }

  /** A piece is filed under a player after `AddAll` iff it was before, or it was added and is theirs. */
  lemma {:induction false} AddAllFiles(reg: Registry, ids: seq<PieceId>, pieces: seq<ChessPiece>, p: Player, x: PieceId)
    requires forall x :: x in ids ==> x < |pieces|
    ensures x in PlayerPieces(AddAll(reg, ids, pieces), p) <==>
              x in PlayerPieces(reg, p) || (x in ids && pieces[x].player == p)
  {
    if |ids| > 0 {
      var init, last := ids[..|ids| - 1], ids[|ids| - 1];
      AddAllLast(reg, ids, pieces, p);
      AddAllFiles(reg, init, pieces, p, x);
      AddFiles(AddAll(reg, init, pieces), last, pieces[last].player, p, x);
      assert x in ids <==> x in init || x == last;
    }
  }

  /** `Add` seen from one piece: it is listed for `p` after the step iff it was, or it was added for `p`. */
  lemma AddFiles(reg: Registry, id: PieceId, owner: Player, p: Player, x: PieceId)
    ensures x in PlayerPieces(Add(reg, id, owner), p) <==> x in PlayerPieces(reg, p) || (x == id && owner == p)
  {
    AddFor(reg, id, owner, p);
  }

  /**
   * The registry built from a board files exactly the pieces on the board, each under the
   * player that owns it.
   */
  lemma BuildFiles(pos: Position, p: Player, x: PieceId)
    requires Valid(pos)
    ensures x in PlayerPieces(Build(pos), p) <==>
              (exists r, c :: OnBoard(r, c) && At(pos, r, c) == Some(x)) && pos.pieces[x].player == p
  {
    OccupantsExist(pos);
    AddAllFiles([], Occupants(pos.cells), pos.pieces, p, x);
    if x in Occupants(pos.cells) {
      var r :| 0 <= r < 8 && Some(x) in pos.cells[r];
      var c :| 0 <= c < 8 && pos.cells[r][c] == Some(x);
      assert At(pos, r, c) == Some(x);
    }
    if exists r, c :: OnBoard(r, c) && At(pos, r, c) == Some(x) {
      var r, c :| OnBoard(r, c) && At(pos, r, c) == Some(x);
      assert Some(x) in pos.cells[r];
    }
  }

  /**
   * `s` lists the pieces on the occupied cells of `row`, one entry per cell, from left to right:
   * `idx[k]` is the cell of `s[k]`, the cells increase, and no occupied cell is missed.
   */
  predicate Enumerates(row: seq<Cell>, s: seq<PieceId>, idx: seq<int>) {
    |idx| == |s| &&
    (forall k :: 0 <= k < |idx| ==> 0 <= idx[k] < |row| && row[idx[k]] == Some(s[k])) &&
    (forall k, l :: 0 <= k < l < |idx| ==> idx[k] < idx[l]) &&
    (forall c :: 0 <= c < |row| && row[c].Some? ==> c in idx)
  }

  /** An empty cell added on the right adds nothing to the enumeration. */
  lemma EnumeratesEmpty(init: seq<Cell>, s: seq<PieceId>, idx: seq<int>)
    requires Enumerates(init, s, idx)
    ensures Enumerates(init + [None], s, idx)
  {
    var row := init + [None];
    forall c | 0 <= c < |row| && row[c].Some? ensures c in idx {
      assert c < |init| && init[c] == row[c];
    }
  }

  /** An occupied cell added on the right is enumerated last. */
  lemma EnumeratesOccupied(init: seq<Cell>, s: seq<PieceId>, idx: seq<int>, x: PieceId)
    requires Enumerates(init, s, idx)
    ensures Enumerates(init + [Some(x)], s + [x], idx + [|init|])
  {
    var row, s1, idx1 := init + [Some(x)], s + [x], idx + [|init|];
    forall k | 0 <= k < |idx1| ensures 0 <= idx1[k] < |row| && row[idx1[k]] == Some(s1[k]) {
      if k < |idx| {
        assert idx1[k] == idx[k] && s1[k] == s[k] && row[idx[k]] == init[idx[k]];
      }
    }
    forall k, l | 0 <= k < l < |idx1| ensures idx1[k] < idx1[l] {
      assert idx1[k] == idx[k];
      if l < |idx| {
        assert idx1[l] == idx[l];
      }
    }
    forall c | 0 <= c < |row| && row[c].Some? ensures c in idx1 {
      if c < |init| {
        assert init[c] == row[c] && c in idx;
      }
    }
  }

  /** `RowOccupants` walks the row left to right, listing each occupied cell once. */
  lemma {:induction false} RowOccupantsOrder(row: seq<Cell>)
    ensures exists idx :: Enumerates(row, RowOccupants(row), idx)
  {
    if |row| == 0 {
      assert RowOccupants(row) == [];
      assert Enumerates(row, RowOccupants(row), []);
    } else {
      var n := |row| - 1;
      var init := row[..n];
      assert row == init + [row[n]];
      RowOccupantsOrder(init);
      var idx0 :| Enumerates(init, RowOccupants(init), idx0);
      match row[n]
      case None =>
        EnumeratesEmpty(init, RowOccupants(init), idx0);
        assert RowOccupants(row) == RowOccupants(init);
        assert Enumerates(row, RowOccupants(row), idx0);
      case Some(x) =>
        EnumeratesOccupied(init, RowOccupants(init), idx0, x);
        assert Enumerates(row, RowOccupants(row), idx0 + [n]);
    }
  }

  /** The rows of a grid laid end to end, top row first. */
  function Flatten(rows: seq<seq<Cell>>): seq<Cell> {
    if |rows| == 0 then [] else Flatten(rows[..|rows| - 1]) + rows[|rows| - 1]
  }

  /** In a grid of rows of eight, cell `(r, c)` is cell `8 * r + c` of the flattened grid. */
  lemma {:induction false} FlattenAt(rows: seq<seq<Cell>>, r: nat, c: nat)
    requires forall i :: 0 <= i < |rows| ==> |rows[i]| == 8
    requires r < |rows| && c < 8
    ensures |Flatten(rows)| == 8 * |rows| && Flatten(rows)[8 * r + c] == rows[r][c]
  {
    var n := |rows| - 1;
    var init := rows[..n];
    assert forall i :: 0 <= i < n ==> init[i] == rows[i];
    FlattenLength(rows);
    FlattenLength(init);
    var flat := Flatten(init);
    assert Flatten(rows) == flat + rows[n];
    if r < n {
      FlattenAt(init, r, c);
      assert 8 * r + c < 8 * n == |flat|;
      assert (flat + rows[n])[8 * r + c] == flat[8 * r + c];
    } else {
      assert 8 * r + c == |flat| + c;
      assert (flat + rows[n])[|flat| + c] == rows[n][c];
    }
  }

  lemma {:induction false} FlattenLength(rows: seq<seq<Cell>>)
    requires forall i :: 0 <= i < |rows| ==> |rows[i]| == 8
    ensures |Flatten(rows)| == 8 * |rows|
  {
    if |rows| > 0 {
      var init := rows[..|rows| - 1];
      assert forall i :: 0 <= i < |init| ==> init[i] == rows[i];
      FlattenLength(init);
    }
  }

  /** The occupants of two runs of cells are those of the first followed by those of the second. */
  lemma {:induction false} RowOccupantsAppend(a: seq<Cell>, b: seq<Cell>)
    ensures RowOccupants(a + b) == RowOccupants(a) + RowOccupants(b)
  {
    if |b| > 0 {
      var n := |b| - 1;
      RowOccupantsAppend(a, b[..n]);
      assert (a + b)[..|a + b| - 1] == a + b[..n];
    } else {
      assert a + b == a;
    }
  }

  /** `Occupants` lists the pieces of the flattened grid in order: row by row, left to right. */
  lemma {:induction false} OccupantsFlat(rows: seq<seq<Cell>>)
    ensures Occupants(rows) == RowOccupants(Flatten(rows))
  {
    if |rows| > 0 {
      OccupantsFlat(rows[..|rows| - 1]);
      RowOccupantsAppend(Flatten(rows[..|rows| - 1]), rows[|rows| - 1]);
    }
  }

  /** The pieces of `ids` that `p` owns, in the order of `ids`. */
  function OwnedBy(ids: seq<PieceId>, pieces: seq<ChessPiece>, p: Player): (s: seq<PieceId>)
    requires forall x :: x in ids ==> x < |pieces|
    ensures forall x :: x in s <==> x in ids && pieces[x].player == p
  {
    if |ids| == 0 then []
    else
      var last := ids[|ids| - 1];
      assert last in ids;
      PrefixMembers(ids, |ids| - 1);
      assert ids == ids[..|ids| - 1] + [last];
      OwnedBy(ids[..|ids| - 1], pieces, p) + (if pieces[last].player == p then [last] else [])
  }

  /** Filing a list of pieces into an empty registry gives each player their pieces, in order. */
  lemma {:induction false} AddAllOrder(ids: seq<PieceId>, pieces: seq<ChessPiece>, p: Player)
    requires forall x :: x in ids ==> x < |pieces|
    ensures PlayerPieces(AddAll([], ids, pieces), p) == OwnedBy(ids, pieces, p)
  {
    if |ids| > 0 {
      var init, last := ids[..|ids| - 1], ids[|ids| - 1];
      AddAllLast([], ids, pieces, p);
      AddAllOrder(init, pieces, p);
      AddFor(AddAll([], init, pieces), last, pieces[last].player, p);
    }
  }

  /** `Add` seen from one player: their array grows by the piece exactly when they own it. */
  lemma AddFor(reg: Registry, id: PieceId, owner: Player, p: Player)
    ensures PlayerPieces(Add(reg, id, owner), p) == PlayerPieces(reg, p) + (if owner == p then [id] else [])
  {
  }

  /** One step of `AddAll` and of `OwnedBy`: the last piece of the list, filed on its own. */
  lemma AddAllLast(reg: Registry, ids: seq<PieceId>, pieces: seq<ChessPiece>, p: Player)
    requires |ids| > 0 && forall x :: x in ids ==> x < |pieces|
    ensures var init, last := ids[..|ids| - 1], ids[|ids| - 1];
            (forall x :: x in init ==> x < |pieces|) && last < |pieces| &&
            AddAll(reg, ids, pieces) == Add(AddAll(reg, init, pieces), last, pieces[last].player) &&
            OwnedBy(ids, pieces, p) == OwnedBy(init, pieces, p) + (if pieces[last].player == p then [last] else [])
  {
    assert ids[|ids| - 1] in ids;
    PrefixMembers(ids, |ids| - 1);
  }

  /**
   * The registry built from a board lists, for each player, the pieces that player owns among
   * the occupied cells, row by row from the top and left to right within a row, one entry per
   * occupied cell: the `k`-th piece of the walk stands on flat cell `idx[k]`, which is
   * `8 * row + column` by `FlattenAt`.
   */
  lemma BuildOrder(pos: Position, p: Player)
    requires Valid(pos)
    ensures forall x :: x in Occupants(pos.cells) ==> x < |pos.pieces|
    ensures PlayerPieces(Build(pos), p) == OwnedBy(Occupants(pos.cells), pos.pieces, p)
    ensures exists idx :: Enumerates(Flatten(pos.cells), Occupants(pos.cells), idx)
  {
    OccupantsExist(pos);
    AddAllOrder(Occupants(pos.cells), pos.pieces, p);
    OccupantsFlat(pos.cells);
    RowOccupantsOrder(Flatten(pos.cells));
  }

  /** `getOpposingPieces`: the arrays of every other key, in insertion order. */
  function Opposing(reg: Registry, player: Player): (s: seq<PieceId>)
    ensures forall x :: x in s <==> exists i :: 0 <= i < |reg| && reg[i].player != player && x in reg[i].ids
    ensures forall n: nat :: RegistryOk(reg, n) ==> forall x :: x in s ==> x < n
  {
    if |reg| == 0 then []
    else
      var init := reg[..|reg| - 1];
      var last := reg[|reg| - 1];
      assert forall i :: 0 <= i < |reg| - 1 ==> reg[i] == init[i];
      assert forall n: nat :: RegistryOk(reg, n) ==> RegistryOk(init, n);
      Opposing(init, player) + (if last.player != player then last.ids else [])
  }

  /** The first piece of `ids` whose type tag is KING. */
  function FirstKing(ids: seq<PieceId>, pieces: seq<ChessPiece>): (r: Option<PieceId>)
    requires forall x :: x in ids ==> x < |pieces|
    ensures r.Some? <==> exists x :: x in ids && pieces[x].kind == King
    ensures r.Some? ==> r.value in ids && pieces[r.value].kind == King
  {
    if |ids| == 0 then None
    else if (assert ids[0] in ids; pieces[ids[0]].kind == King) then Some(ids[0])
    else
      SuffixMembers(ids, 1);
      FirstKing(ids[1..], pieces)
  }

  /** `ids[i]` is a king and no piece before it in the list is one. */
  predicate IsFirstKing(ids: seq<PieceId>, pieces: seq<ChessPiece>, i: int) {
    0 <= i < |ids| && (forall j :: 0 <= j <= i ==> ids[j] < |pieces|) &&
    pieces[ids[i]].kind == King && forall j :: 0 <= j < i ==> pieces[ids[j]].kind != King
  }

  /** `FirstKing` scans left to right: its answer is a king with no king before it in the list. */
  lemma {:induction false} FirstKingIsFirst(ids: seq<PieceId>, pieces: seq<ChessPiece>)
    requires forall x :: x in ids ==> x < |pieces|
    ensures FirstKing(ids, pieces).Some? ==>
              exists i :: IsFirstKing(ids, pieces, i) && FirstKing(ids, pieces).value == ids[i]
  {
    if |ids| > 0 {
      assert ids[0] in ids;
      if pieces[ids[0]].kind == King {
        assert IsFirstKing(ids, pieces, 0);
      } else {
        var tail := ids[1..];
        SuffixMembers(ids, 1);
        FirstKingIsFirst(tail, pieces);
        if FirstKing(ids, pieces).Some? {
          var i :| IsFirstKing(tail, pieces, i) && FirstKing(tail, pieces).value == tail[i];
          forall j | 0 <= j <= i + 1 ensures ids[j] < |pieces| {
            assert ids[j] in ids;
          }
          forall j | 0 <= j < i + 1 ensures pieces[ids[j]].kind != King {
            if j > 0 {
              assert ids[j] == tail[j - 1];
            }
          }
          assert ids[i + 1] == tail[i];
          assert IsFirstKing(ids, pieces, i + 1);
        }
      }
    }
  }

  /** `findKingSquare`: the square of the player's first registered piece of type KING. */
  function KingSquare(reg: Registry, pos: Position, player: Player): (r: Option<Square>)
    requires Valid(pos) && RegistryOk(reg, |pos.pieces|)
    ensures KeysUnique(reg) ==>
      (r.Some? <==> exists x :: x in PlayerPieces(reg, player) && x < |pos.pieces| && pos.pieces[x].kind == King)
    ensures r.Some? ==> InBounds(r.value)
  {
    var ids := PlayerPieces(reg, player);
    PlayerPiecesOk(reg, player, |pos.pieces|);
    match FirstKing(ids, pos.pieces)
    case None => None
    case Some(k) => Some(pos.pieces[k].square)
  }

  /** The square `findKingSquare` returns is that of the first king in the player's array. */
  lemma KingSquareIsFirstKing(reg: Registry, pos: Position, player: Player)
    requires Valid(pos) && RegistryOk(reg, |pos.pieces|)
    ensures KingSquare(reg, pos, player).Some? ==>
      exists i :: IsFirstKing(PlayerPieces(reg, player), pos.pieces, i) &&
                  KingSquare(reg, pos, player).value == pos.pieces[PlayerPieces(reg, player)[i]].square
  {
    PlayerPiecesOk(reg, player, |pos.pieces|);
    FirstKingIsFirst(PlayerPieces(reg, player), pos.pieces);
  }
}
