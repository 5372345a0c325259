/**
 * Ray casting, the logic that BishopMovementStrategy.js and QueenMovementStrategy.js share (and
 * that the rook strategy is taken to share): from the square next to the piece, step in one
 * direction; every empty square gives a quiet move, the first occupied square gives a capture
 * when it holds an opponent piece, and the ray ends there or at the edge of the board.
 */
module Sliding {
  import opened Wrappers
  import opened Squares
  import opened Players
  import opened Pieces
  import opened Positions
  import opened Moves

  /** One of the eight unit steps. */
  predicate Dir(dr: int, dc: int) {
    -1 <= dr <= 1 && -1 <= dc <= 1 && (dr != 0 || dc != 0)
  }

  /** How many more steps of `d` a coordinate `x` can take before it leaves 0..7, plus one. */
  function Remaining(x: int, d: int): int {
    if d > 0 then 8 - x else if d < 0 then x + 1 else 0
  }

  /** The piece in slot `id` exists and stands on the board. */
  predicate Mover(pos: Position, id: PieceId) {
    Valid(pos) && id < |pos.pieces|
  }

  /**
   * A move the generators build: the piece from its own square, not yet executed, flagged as a
   * promotion exactly when it is a PromotionMove.
   */
  predicate Generated(pos: Position, id: PieceId, m: Move)
    requires Mover(pos, id)
  {
    m.piece == id && m.startSquare == pos.pieces[id].square && InBounds(m.endSquare) &&
    !m.isCapture && m.isPromotion == m.variant.Promotion? && MoveOk(pos, m)
  }

  /**
   * A plain move to an empty square, or a capture of the opponent piece standing there: the
   * moves a ray or a fixed offset can produce.
   */
  predicate Reaches(pos: Position, id: PieceId, m: Move)
    requires Mover(pos, id)
  {
    Generated(pos, id, m) && m.variant.Plain? && !m.isPromotion &&
    m.capturedPiece == At(pos, m.endSquare.row, m.endSquare.col) &&
    (m.capturedPiece.None? || IsOccupiedByOpponent(pos, m.endSquare.row, m.endSquare.col, pos.pieces[id].player))
  }

  /** A square the ray cannot enter: off the board, or held by the mover's own side. */
  predicate Blocked(pos: Position, id: PieceId, r: int, c: int)
    requires Mover(pos, id)
  {
    !OnBoard(r, c) ||
    (IsOccupied(pos, r, c) && !IsOccupiedByOpponent(pos, r, c, pos.pieces[id].player))
  }

  /** The move of the piece in slot `id` to (r, c), capturing whatever stands there. */
  function MoveTo(pos: Position, id: PieceId, r: int, c: int): (m: Move)
    requires Mover(pos, id) && OnBoard(r, c)
    ensures m.endSquare == Square(r, c)
    ensures !Blocked(pos, id, r, c) ==> Reaches(pos, id, m)
  {
    NewMove(id, pos.pieces[id].square, Square(r, c), At(pos, r, c))
  }

  /** The moves along one direction, starting with the square (r, c). */
  function Ray(pos: Position, id: PieceId, r: int, c: int, dr: int, dc: int): (moves: seq<Move>)
    requires Mover(pos, id) && Dir(dr, dc)
    ensures forall m :: m in moves ==> Reaches(pos, id, m)
    decreases Remaining(r, dr) + Remaining(c, dc)
  {
    if !OnBoard(r, c) then []
    else if IsOccupied(pos, r, c) then
      if IsOccupiedByOpponent(pos, r, c, pos.pieces[id].player) then [MoveTo(pos, id, r, c)] else []
    else [MoveTo(pos, id, r, c)] + Ray(pos, id, r + dr, c + dc, dr, dc)
  }

  /** One free step of a ray-casting loop: pushing the move to (r, c) leaves the rest of the ray to cast. */
  lemma RayPush(pos: Position, id: PieceId, acc: seq<Move>, r: int, c: int, dr: int, dc: int)
    requires Mover(pos, id) && Dir(dr, dc) && OnBoard(r, c) && !IsOccupied(pos, r, c)
    ensures (acc + [MoveTo(pos, id, r, c)]) + Ray(pos, id, r + dr, c + dc, dr, dc) == acc + Ray(pos, id, r, c, dr, dc)
  {
    var rest := Ray(pos, id, r + dr, c + dc, dr, dc);
    assert Ray(pos, id, r, c, dr, dc) == [MoveTo(pos, id, r, c)] + rest;
    assert (acc + [MoveTo(pos, id, r, c)]) + rest == acc + ([MoveTo(pos, id, r, c)] + rest);
  }

  /** The last step of a ray-casting loop: at an occupied square the ray ends, with a capture of an opponent. */
  lemma RayStop(pos: Position, id: PieceId, r: int, c: int, dr: int, dc: int)
    requires Mover(pos, id) && Dir(dr, dc) && OnBoard(r, c) && IsOccupied(pos, r, c)
    ensures Ray(pos, id, r, c, dr, dc) ==
      if IsOccupiedByOpponent(pos, r, c, pos.pieces[id].player) then [MoveTo(pos, id, r, c)] else []
  {
  }

  /** The square after `s` in direction (dr, dc). */
  function Next(s: Square, dr: int, dc: int): Square {
    Square(s.row + dr, s.col + dc)
  }

  /** The ray starts at (r, c) and each move lands one step further along the direction. */
  lemma {:induction false} RayConsecutive(pos: Position, id: PieceId, r: int, c: int, dr: int, dc: int)
    requires Mover(pos, id) && Dir(dr, dc)
    ensures var moves := Ray(pos, id, r, c, dr, dc);
      (|moves| > 0 ==> moves[0].endSquare == Square(r, c)) &&
      forall i :: 0 <= i < |moves| - 1 ==> moves[i + 1].endSquare == Next(moves[i].endSquare, dr, dc)
    decreases Remaining(r, dr) + Remaining(c, dc)
  {
    if OnBoard(r, c) && !IsOccupied(pos, r, c) {
      var rest := Ray(pos, id, r + dr, c + dc, dr, dc);
      RayConsecutive(pos, id, r + dr, c + dc, dr, dc);
      var moves := Ray(pos, id, r, c, dr, dc);
      assert moves == [MoveTo(pos, id, r, c)] + rest;
      forall i | 0 <= i < |moves| - 1
        ensures moves[i + 1].endSquare == Next(moves[i].endSquare, dr, dc)
      {
        if i > 0 {
          assert moves[i] == rest[i - 1] && moves[i + 1] == rest[i];
        }
      }
    }
  }

  /** Only the last move of a ray can capture: the ray ends at the first occupied square. */
  lemma {:induction false} RayCapturesLast(pos: Position, id: PieceId, r: int, c: int, dr: int, dc: int)
    requires Mover(pos, id) && Dir(dr, dc)
    ensures forall i :: 0 <= i < |Ray(pos, id, r, c, dr, dc)| - 1 ==>
              Ray(pos, id, r, c, dr, dc)[i].capturedPiece.None?
    decreases Remaining(r, dr) + Remaining(c, dc)
  {
    if OnBoard(r, c) && !IsOccupied(pos, r, c) {
      var rest := Ray(pos, id, r + dr, c + dc, dr, dc);
      RayCapturesLast(pos, id, r + dr, c + dc, dr, dc);
      assert forall i :: 0 <= i < |rest| - 1 ==> rest[i].capturedPiece.None?;
      var moves := Ray(pos, id, r, c, dr, dc);
      assert moves == [MoveTo(pos, id, r, c)] + rest;
      forall i | 0 < i < |moves| - 1 ensures moves[i].capturedPiece.None? {
        assert 0 <= i - 1 < |rest| - 1;
        assert moves[i] == rest[i - 1];
      }
    }
  }

  /**
   * The ray goes as far as it may: unless it ends with a capture, the square after its last move
   * (or (r, c) itself, when it is empty) is off the board or held by the mover's side.
   */
  lemma {:induction false} RayMaximal(pos: Position, id: PieceId, r: int, c: int, dr: int, dc: int)
    requires Mover(pos, id) && Dir(dr, dc)
    ensures var moves := Ray(pos, id, r, c, dr, dc);
      (|moves| == 0 ==> Blocked(pos, id, r, c)) &&
      (|moves| > 0 && moves[|moves| - 1].capturedPiece.None? ==>
         var s := Next(moves[|moves| - 1].endSquare, dr, dc);
         Blocked(pos, id, s.row, s.col))
    decreases Remaining(r, dr) + Remaining(c, dc)
  {
    if OnBoard(r, c) && !IsOccupied(pos, r, c) {
      var rest := Ray(pos, id, r + dr, c + dc, dr, dc);
      RayMaximal(pos, id, r + dr, c + dc, dr, dc);
      var moves := Ray(pos, id, r, c, dr, dc);
      assert moves == [MoveTo(pos, id, r, c)] + rest;
      if |rest| > 0 {
        assert moves[|moves| - 1] == rest[|rest| - 1];
      }
    }
  }

  /** The rays of a list of directions, each starting next to the piece, in list order. */
  function Rays(pos: Position, id: PieceId, dirs: seq<(int, int)>): (moves: seq<Move>)
    requires Mover(pos, id) && forall d :: d in dirs ==> Dir(d.0, d.1)
    ensures forall m :: m in moves ==> Reaches(pos, id, m)
  {
    if |dirs| == 0 then []
    else
      var d := dirs[|dirs| - 1];
      assert d in dirs;
      PrefixDirs(dirs, |dirs| - 1);
      var s := pos.pieces[id].square;
      Rays(pos, id, dirs[..|dirs| - 1]) + Ray(pos, id, s.row + d.0, s.col + d.1, d.0, d.1)
  }

  lemma PrefixDirs(dirs: seq<(int, int)>, n: nat)
    requires n <= |dirs| && forall d :: d in dirs ==> Dir(d.0, d.1)
    ensures forall d :: d in dirs[..n] ==> Dir(d.0, d.1)
  {
    forall d | d in dirs[..n] ensures Dir(d.0, d.1) {
      var k :| 0 <= k < n && dirs[..n][k] == d;
      assert dirs[k] == d;
    }
  }

  /** The rays of the first i + 1 directions are those of the first i, then the ray of direction i. */
  lemma RaysSnoc(pos: Position, id: PieceId, dirs: seq<(int, int)>, i: nat)
    requires Mover(pos, id) && forall d :: d in dirs ==> Dir(d.0, d.1)
    requires i < |dirs|
    ensures forall d :: d in dirs[..i] ==> Dir(d.0, d.1)
    ensures forall d :: d in dirs[..i + 1] ==> Dir(d.0, d.1)
    ensures Dir(dirs[i].0, dirs[i].1)
    ensures Rays(pos, id, dirs[..i + 1]) == Rays(pos, id, dirs[..i]) + RayOf(pos, id, dirs[i])
  {
    assert dirs[i] in dirs;
    PrefixDirs(dirs, i);
    PrefixDirs(dirs, i + 1);
    assert dirs[..i + 1][..i] == dirs[..i];
  }

  /** The ray of the k-th direction, next to the piece. */
  function RayOf(pos: Position, id: PieceId, d: (int, int)): seq<Move>
    requires Mover(pos, id) && Dir(d.0, d.1)
  {
    Ray(pos, id, pos.pieces[id].square.row + d.0, pos.pieces[id].square.col + d.1, d.0, d.1)
  }

  /** A move of the sliding piece lies on the ray of one of its directions, and every such move is one. */
  lemma {:induction false} RaysMembers(pos: Position, id: PieceId, dirs: seq<(int, int)>, m: Move)
    requires Mover(pos, id) && forall d :: d in dirs ==> Dir(d.0, d.1)
    ensures m in Rays(pos, id, dirs) <==> exists d :: d in dirs && m in RayOf(pos, id, d)
  {
    if |dirs| > 0 {
      var last := dirs[|dirs| - 1];
      var init := dirs[..|dirs| - 1];
      assert last in dirs;
      PrefixDirs(dirs, |dirs| - 1);
      RaysMembers(pos, id, init, m);
      assert dirs == init + [last];
      assert Rays(pos, id, dirs) == Rays(pos, id, init) + RayOf(pos, id, last);
      if exists d :: d in dirs && m in RayOf(pos, id, d) {
        var d :| d in dirs && m in RayOf(pos, id, d);
        if d != last {
          assert d in init;
        }
      }
    }
  }

  /** Bishop directions (BishopMovementStrategy.js): the four diagonals. */
  const BishopDirections: seq<(int, int)> := [(1, 1), (1, -1), (-1, -1), (-1, 1)]

  /** Queen directions (QueenMovementStrategy.js): four orthogonal, then four diagonal. */
  const QueenDirections: seq<(int, int)> :=
    [(1, 0), (0, 1), (-1, 0), (0, -1), (1, 1), (1, -1), (-1, 1), (-1, -1)]

  /** Rook directions, taken as the queen's four orthogonal ones. */
  const RookDirections: seq<(int, int)> := [(1, 0), (0, 1), (-1, 0), (0, -1)]

  lemma DirectionsValid()
    ensures forall d :: d in BishopDirections ==> Dir(d.0, d.1)
    ensures forall d :: d in QueenDirections ==> Dir(d.0, d.1)
    ensures forall d :: d in RookDirections ==> Dir(d.0, d.1)
  {
  }

  /** The raw moves of a bishop. */
  function BishopMoves(pos: Position, id: PieceId): (moves: seq<Move>)
    requires Mover(pos, id)
    ensures forall m :: m in moves ==> Reaches(pos, id, m)
  {
    DirectionsValid();
    Rays(pos, id, BishopDirections)
  }

  /** The raw moves of a queen. */
  function QueenMoves(pos: Position, id: PieceId): (moves: seq<Move>)
    requires Mover(pos, id)
    ensures forall m :: m in moves ==> Reaches(pos, id, m)
  {
    DirectionsValid();
    Rays(pos, id, QueenDirections)
  }

  /** The raw moves of a rook, taken as the queen's orthogonal rays. */
  function RookMoves(pos: Position, id: PieceId): (moves: seq<Move>)
    requires Mover(pos, id)
    ensures forall m :: m in moves ==> Reaches(pos, id, m)
  {
    DirectionsValid();
    Rays(pos, id, RookDirections)
  }

  /** A diagonal step changes both coordinates, an orthogonal one exactly one. */
  lemma BishopStaysDiagonal(pos: Position, id: PieceId, m: Move)
    requires Mover(pos, id) && m in BishopMoves(pos, id)
    ensures exists d :: d in BishopDirections && d.0 != 0 && d.1 != 0 && m in RayOf(pos, id, d)
  {
    DirectionsValid();
    RaysMembers(pos, id, BishopDirections, m);
  }

  /** The queen's moves are exactly the rook's moves and the bishop's moves. */
  lemma {:induction false} QueenIsRookAndBishop(pos: Position, id: PieceId, m: Move)
    requires Mover(pos, id)
    ensures m in QueenMoves(pos, id) <==> m in RookMoves(pos, id) || m in BishopMoves(pos, id)
  {
    DirectionsValid();
    RaysMembers(pos, id, QueenDirections, m);
    RaysMembers(pos, id, RookDirections, m);
    RaysMembers(pos, id, BishopDirections, m);
    assert forall d :: d in QueenDirections <==> d in RookDirections || d in BishopDirections;
  }
}
