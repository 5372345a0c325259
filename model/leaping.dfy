/**
 * Fixed-offset moves, the logic that KnightMovementStrategy.js and the raw part of
 * KingMovementStrategy.js share: for each offset in turn, a target on the board gives a quiet
 * move when empty, a capture when it holds an opponent piece, and nothing when it holds one of
 * the mover's own pieces.
 */
module Leaping {
  import opened Wrappers
  import opened Squares
  import opened Players
  import opened Pieces
  import opened Positions
  import opened Moves
  import opened Sliding

  /** The target of offset `o` from the piece in slot `id`. */
  function Target(pos: Position, id: PieceId, o: (int, int)): Square
    requires Mover(pos, id)
  {
    Square(pos.pieces[id].square.row + o.0, pos.pieces[id].square.col + o.1)
  }

  /** The move for one offset, if the target can be entered. */
  function Leap(pos: Position, id: PieceId, o: (int, int)): (moves: seq<Move>)
    requires Mover(pos, id)
    ensures |moves| <= 1
  {
    var t := Target(pos, id, o);
    if !OnBoard(t.row, t.col) then []
    else if IsOccupied(pos, t.row, t.col) then
      if IsOccupiedByOpponent(pos, t.row, t.col, pos.pieces[id].player) then [MoveTo(pos, id, t.row, t.col)] else []
    else [MoveTo(pos, id, t.row, t.col)]
  }

  /** One offset gives a move exactly when its target is on the board and not the mover's own. */
  lemma LeapSpec(pos: Position, id: PieceId, o: (int, int), m: Move)
    requires Mover(pos, id)
    ensures m in Leap(pos, id, o) <==> Leaps1(pos, id, o, m)
  {
  }

  /** The moves of a list of offsets, in list order. */
  function Leaps(pos: Position, id: PieceId, offsets: seq<(int, int)>): (moves: seq<Move>)
    requires Mover(pos, id)
    ensures |moves| <= |offsets|
    ensures forall m :: m in moves ==> Reaches(pos, id, m)
  {
    if |offsets| == 0 then []
    else Leaps(pos, id, offsets[..|offsets| - 1]) + Leap(pos, id, offsets[|offsets| - 1])
  }

  /** The moves of the first i + 1 offsets are those of the first i, then those of offset i. */
  lemma LeapsSnoc(pos: Position, id: PieceId, offsets: seq<(int, int)>, i: nat)
    requires Mover(pos, id) && i < |offsets|
    ensures Leaps(pos, id, offsets[..i + 1]) == Leaps(pos, id, offsets[..i]) + Leap(pos, id, offsets[i])
  {
    assert offsets[..i + 1][..i] == offsets[..i];
  }

  /**
   * The reference description of a leaper: a move is produced iff it goes to the target of one of
   * the offsets, that target is on the board and not held by the mover's side, and the move
   * captures exactly the piece standing there.
   */
  lemma {:induction false} LeapsSpec(pos: Position, id: PieceId, offsets: seq<(int, int)>, m: Move)
    requires Mover(pos, id)
    ensures m in Leaps(pos, id, offsets) <==>
              exists o :: o in offsets && Leaps1(pos, id, o, m)
  {
    if |offsets| > 0 {
      var init := offsets[..|offsets| - 1];
      var last := offsets[|offsets| - 1];
      assert offsets == init + [last];
      LeapsSpec(pos, id, init, m);
      LeapSpec(pos, id, last, m);
      assert Leaps(pos, id, offsets) == Leaps(pos, id, init) + Leap(pos, id, last);
      if exists o :: o in offsets && Leaps1(pos, id, o, m) {
        var o :| o in offsets && Leaps1(pos, id, o, m);
        if o != last {
          assert o in init;
        }
      }
    }
  }

  /** The move `m` is the one offset `o` gives. */
  predicate Leaps1(pos: Position, id: PieceId, o: (int, int), m: Move)
    requires Mover(pos, id)
  {
    var t := Target(pos, id, o);
    !Blocked(pos, id, t.row, t.col) && m == MoveTo(pos, id, t.row, t.col)
  }

  /** Knight offsets, in the order of KnightMovementStrategy.js. */
  const KnightOffsets: seq<(int, int)> :=
    [(-2, 1), (-1, 2), (2, 1), (1, 2), (-2, -1), (-1, -2), (2, -1), (1, -2)]

  /** King directions, in the order of KingMovementStrategy.js. */
  const KingOffsets: seq<(int, int)> :=
    [(1, 0), (0, 1), (-1, 0), (0, -1), (1, 1), (1, -1), (-1, 1), (-1, -1)]

  /** The raw moves of a knight. */
  function KnightMoves(pos: Position, id: PieceId): seq<Move>
    requires Mover(pos, id)
  {
    Leaps(pos, id, KnightOffsets)
  }

  /** The raw (castling-free) moves of a king. */
  function KingMoves(pos: Position, id: PieceId): seq<Move>
    requires Mover(pos, id)
  {
    Leaps(pos, id, KingOffsets)
  }

  /** A knight move changes one coordinate by 1 and the other by 2. */
  lemma KnightJumps(pos: Position, id: PieceId, m: Move)
    requires Mover(pos, id) && m in KnightMoves(pos, id)
    ensures var dr := m.endSquare.row - m.startSquare.row;
            var dc := m.endSquare.col - m.startSquare.col;
            (dr * dr == 1 && dc * dc == 4) || (dr * dr == 4 && dc * dc == 1)
    ensures Reaches(pos, id, m)
  {
    LeapsSpec(pos, id, KnightOffsets, m);
  }

  /** A king move goes to one of the eight neighbouring squares. */
  lemma KingSteps(pos: Position, id: PieceId, m: Move)
    requires Mover(pos, id) && m in KingMoves(pos, id)
    ensures var dr := m.endSquare.row - m.startSquare.row;
            var dc := m.endSquare.col - m.startSquare.col;
            -1 <= dr <= 1 && -1 <= dc <= 1 && (dr != 0 || dc != 0)
    ensures Reaches(pos, id, m)
  {
    LeapsSpec(pos, id, KingOffsets, m);
  }
}
