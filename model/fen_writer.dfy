/**
 * public/chess/utils/FENGenerator.js: `toFEN` writes the six fields of a FEN record (section
 * 16.1.3 of the PGN Standard) for a board, its move history and the game state, and
 * `generateCastlingAvailability` writes the castling field. Both are loops that accumulate a
 * string; here they are methods over the ChessBoard class, each proved equal to a function of
 * the board as a value, and the properties of the record are lemmas about those functions.
 */
module FenWriter {
  import opened Wrappers
  import opened Squares
  import opened Players
  import opened Pieces
  import opened Positions
  import opened FenPlacement
  import opened Board
  import Moves
  import History
  import GameStates

  // ------------------------------------------------------------ the placement field

  /** What the placement field records of a piece: its type tag and its owner's colour. */
  datatype Glyph = Glyph(kind: PieceType, color: PlayerColor)

  function GlyphAt(pos: Position, r: int, c: int): Option<Glyph>
    requires Valid(pos) && OnBoard(r, c)
  {
    match At(pos, r, c)
    case None => None
    case Some(x) => Some(Glyph(pos.pieces[x].kind, pos.pieces[x].player.color))
  }

  /** The cells of rank `r`, file a to file h. */
  function RankGlyphs(pos: Position, r: int): (s: seq<Option<Glyph>>)
    requires Valid(pos) && 0 <= r < 8
    ensures |s| == 8 && forall c :: 0 <= c < 8 ==> s[c] == GlyphAt(pos, r, c)
  {
    seq(8, c requires 0 <= c < 8 => GlyphAt(pos, r, c))
  }

  /** `fen += emptySquares`, done only when the count is not zero. */
  function Count(e: nat): string
    requires e <= 9
  {
    if e == 0 then "" else [DigitChar(e)]
  }

  /**
   * What the inner loop of `toFEN` writes for the cells `s` of a rank when `e` empty cells have
   * been counted before them: a run of empty cells becomes its length, written before the next
   * piece or at the end of the rank, and a piece its letter.
   */
  function RankText(s: seq<Option<Glyph>>, e: nat): string
    requires e + |s| <= 8
    decreases |s|
  {
    if s == [] then Count(e)
    else match s[0]
      case None => RankText(s[1..], e + 1)
      case Some(g) => Count(e) + [Letter(g.kind, g.color)] + RankText(s[1..], 0)
  }

  /** The eight ranks as the outer loop writes them, rank 8 (row 0) first. */
  function Ranks(pos: Position): (rs: seq<string>)
    requires Valid(pos)
    ensures |rs| == 8 && forall r :: 0 <= r < 8 ==> rs[r] == RankText(RankGlyphs(pos, r), 0)
  {
    seq(8, r requires 0 <= r < 8 => RankText(RankGlyphs(pos, r), 0))
  }

  /** The placement field: the ranks with a '/' between each two. */
  function Placement(pos: Position): string
    requires Valid(pos)
  {
    Join(Ranks(pos), '/')
  }

  /** The number of files a rank text covers: a digit covers its value, any other character one. */
  function Width(t: string): nat {
    if t == [] then 0 else (if IsDigit(t[0]) then DigitValue(t[0]) else 1) + Width(t[1..])
  }

  /** Every count is between 1 and 8 and no two counts are adjacent, so each run is one count. */
  predicate RunsMerged(t: string) {
    (forall i :: 0 <= i < |t| && IsDigit(t[i]) ==> '1' <= t[i] <= '8') &&
    (forall i :: 0 <= i < |t| - 1 ==> !(IsDigit(t[i]) && IsDigit(t[i + 1])))
  }

  /** The characters a rank text is made of: digits and piece letters. */
  predicate RankChars(t: string) {
    forall i :: 0 <= i < |t| ==> IsDigit(t[i]) || KindOf(t[i]).Some?
  }

  lemma {:induction false} WidthAppend(a: string, b: string)
    ensures Width(a + b) == Width(a) + Width(b)
  {
    if a != [] {
      assert (a + b)[0] == a[0] && (a + b)[1..] == a[1..] + b;
      WidthAppend(a[1..], b);
    } else {
      assert a + b == b;
    }
  }

  /**
   * A rank text covers exactly the files it was written for, holds only digits and piece
   * letters, and writes each run of empty cells as one count.
   */
  lemma {:induction false} RankTextShape(s: seq<Option<Glyph>>, e: nat)
    requires e + |s| <= 8
    ensures var t := RankText(s, e);
            Width(t) == e + |s| && RankChars(t) && RunsMerged(t) &&
            (t != [] && IsDigit(t[0]) ==> e > 0 || s[0].None?)
    decreases |s|
  {
    if s == [] {
      if e > 0 {
        assert Width([DigitChar(e)]) == e;
      }
    } else {
      match s[0]
      case None =>
        RankTextShape(s[1..], e + 1);
      case Some(g) =>
        var l := Letter(g.kind, g.color);
        var rest := RankText(s[1..], 0);
        RankTextShape(s[1..], 0);
        WidthAppend(Count(e) + [l], rest);
        WidthAppend(Count(e), [l]);
        assert Width([l]) == 1;
        if e > 0 {
          assert Width(Count(e)) == e by { assert Width([DigitChar(e)]) == e; }
        }
        var t := Count(e) + [l] + rest;
        assert t == RankText(s, e);
        forall i | 0 <= i < |t| - 1
          ensures !(IsDigit(t[i]) && IsDigit(t[i + 1]))
        {
          if i >= |Count(e)| + 1 {
            assert t[i] == rest[i - |Count(e)| - 1] && t[i + 1] == rest[i - |Count(e)|];
          }
        }
    }
  }

  /** Joining strings none of which holds `ch` gives a string without `ch`, unless `ch` is the separator. */
  lemma {:induction false} JoinWithout(parts: seq<string>, d: char, ch: char)
    requires |parts| >= 1 && ch != d && forall k :: 0 <= k < |parts| ==> ch !in parts[k]
    ensures ch !in Join(parts, d)
  {
    if |parts| > 1 {
      JoinWithout(parts[1..], d, ch);
    }
  }

  /**
   * The placement field splits at '/' into exactly eight ranks (so it holds seven separators),
   * each covering eight files with its runs of empty cells merged, and it holds no space.
   */
  lemma PlacementRanks(pos: Position)
    requires Valid(pos)
    ensures Split(Placement(pos), '/') == Ranks(pos) && |Ranks(pos)| == 8
    ensures forall r :: 0 <= r < 8 ==> Width(Ranks(pos)[r]) == 8 && RankChars(Ranks(pos)[r]) && RunsMerged(Ranks(pos)[r])
    ensures ' ' !in Placement(pos)
  {
    var rs := Ranks(pos);
    forall r | 0 <= r < 8
      ensures Width(rs[r]) == 8 && RankChars(rs[r]) && RunsMerged(rs[r])
      ensures '/' !in rs[r] && ' ' !in rs[r]
    {
      RankTextShape(RankGlyphs(pos, r), 0);
      forall i | 0 <= i < |rs[r]|
        ensures rs[r][i] != '/' && rs[r][i] != ' '
      {
        assert IsDigit(rs[r][i]) || KindOf(rs[r][i]).Some?;
      }
    }
    SplitJoin(rs, '/');
    JoinWithout(rs, '/', ' ');
  }

  // ------------------------------------------------------------ reading the placement back

  /** Reading `a + b` is reading `a`, then `b` from where `a` stopped. */
  lemma {:induction false} ScanFromAppend(pos: Position, row: int, col: int, a: string, b: string, white: Player, black: Player)
    requires Valid(pos)
    ensures ScanFrom(pos, row, col, a + b, white, black) ==
              match ScanFrom(pos, row, col, a, white, black)
              case Err(e) => Err(e)
              case Ok(st) => ScanFrom(st.0, row, st.1, b, white, black)
    decreases |a|
  {
    if a == [] {
      assert a + b == b;
    } else {
      assert (a + b)[0] == a[0] && (a + b)[1..] == a[1..] + b;
      match ScanChar(pos, row, col, a[0], white, black)
      case Err(e) =>
      case Ok(st) => ScanFromAppend(st.0, row, st.1, a[1..], b, white, black);
    }
  }

  /** The cells of `q` hold the same pieces as those of `p` wherever `p` has a piece recorded. */
  predicate Extends(p: Position, q: Position)
    requires Valid(p) && Valid(q)
  {
    |q.pieces| >= |p.pieces| && q.pieces[..|p.pieces|] == p.pieces
  }

  /**
   * `q` is `p` with rank `row` filled from column `from` on with the glyphs `s`: no recorded piece
   * is replaced and no other cell changes.
   */
  ghost predicate RankFilled(p: Position, q: Position, row: int, from: int, s: seq<Option<Glyph>>)
    requires Valid(p) && Valid(q) && 0 <= row < 8 && 0 <= from && from + |s| == 8
  {
    Extends(p, q) &&
    (forall i, j :: OnBoard(i, j) && (i != row || j < from) ==> At(q, i, j) == At(p, i, j)) &&
    (forall j :: from <= j < 8 ==> GlyphAt(q, row, j) == s[j - from])
  }

  /** Reading a count moves the column on by the count and changes nothing. */
  lemma ScanCount(pos: Position, row: int, col: int, e: nat, b: string, white: Player, black: Player)
    requires Valid(pos) && e <= 9
    ensures ScanFrom(pos, row, col, Count(e) + b, white, black) == ScanFrom(pos, row, col + e, b, white, black)
  {
    if e == 0 {
      assert Count(e) + b == b;
    } else {
      assert (Count(e) + b)[0] == DigitChar(e) && (Count(e) + b)[1..] == b;
    }
  }

  /** The position after reading the letter of `g` on the cell (row, c). */
  function Placed(pos: Position, row: int, c: int, g: Glyph, white: Player, black: Player): (q: Position)
    requires Valid(pos) && OnBoard(row, c)
    ensures Valid(q)
  {
    var p := Construct(Square(row, c), if g.color == White then white else black, g.kind);
    SetCell(NewPiece(pos, p), row, c, Some(|pos.pieces|))
  }

  /** Reading a piece letter leaves the position `Placed` describes and moves on by one. */
  lemma ScanLetter(pos: Position, row: int, c: int, g: Glyph, b: string, white: Player, black: Player)
    requires Valid(pos) && OnBoard(row, c)
    requires white.color == White && black.color == Black
    ensures ScanFrom(pos, row, c, [Letter(g.kind, g.color)] + b, white, black) ==
              ScanFrom(Placed(pos, row, c, g, white, black), row, c + 1, b, white, black)
  {
    var l := Letter(g.kind, g.color);
    assert ([l] + b)[0] == l && ([l] + b)[1..] == b;
  }

  /** The placed piece has the glyph it was read from; no recorded piece and no other cell changes. */
  lemma PlacedFacts(pos: Position, row: int, c: int, g: Glyph, white: Player, black: Player)
    requires Valid(pos) && OnBoard(row, c)
    requires white.color == White && black.color == Black
    ensures var q := Placed(pos, row, c, g, white, black);
            Extends(pos, q) && GlyphAt(q, row, c) == Some(g) &&
            forall i, j :: OnBoard(i, j) && (i != row || j != c) ==> At(q, i, j) == At(pos, i, j)
  {
    var q := Placed(pos, row, c, g, white, black);
    assert q.pieces[..|pos.pieces|] == pos.pieces;
  }

  /** A position extending one that extends `p` extends `p`. */
  lemma ExtendsTrans(p: Position, q: Position, r: Position)
    requires Valid(p) && Valid(q) && Valid(r) && Extends(p, q) && Extends(q, r)
    ensures Extends(p, r)
  {
    assert r.pieces[..|q.pieces|][..|p.pieces|] == r.pieces[..|p.pieces|];
  }

  /** A cell holding a piece of `p` shows the same glyph in a position that extends `p` and keeps the cell. */
  lemma GlyphKept(p: Position, q: Position, i: int, j: int)
    requires Valid(p) && Valid(q) && Extends(p, q) && OnBoard(i, j) && At(q, i, j) == At(p, i, j)
    ensures GlyphAt(q, i, j) == GlyphAt(p, i, j)
  {
    if At(p, i, j).Some? {
      assert q.pieces[At(p, i, j).value] == q.pieces[..|p.pieces|][At(p, i, j).value];
    }
  }

  /** Filling from the next column after one piece was placed is filling from the piece's column. */
  lemma RankFilledPiece(pos: Position, fin: Position, row: int, c: int, s: seq<Option<Glyph>>,
                        white: Player, black: Player)
    requires Valid(pos) && Valid(fin) && 0 <= row < 8 && 0 <= c && c + |s| == 8
    requires white.color == White && black.color == Black
    requires s != [] && s[0].Some?
    requires RankFilled(Placed(pos, row, c, s[0].value, white, black), fin, row, c + 1, s[1..])
    ensures RankFilled(pos, fin, row, c, s)
  {
    var g := s[0].value;
    var q := Placed(pos, row, c, g, white, black);
    PlacedFacts(pos, row, c, g, white, black);
    ExtendsTrans(pos, q, fin);
    GlyphKept(q, fin, row, c);
  }

  /** Reading the text of a rank whose first cell holds a piece: the count, the letter, then the rest. */
  lemma ScanPieceStep(pos: Position, row: int, col: int, s: seq<Option<Glyph>>, e: nat, white: Player, black: Player)
    requires Valid(pos) && 0 <= row < 8 && 0 <= col && col + e + |s| == 8
    requires white.color == White && black.color == Black
    requires s != [] && s[0].Some?
    ensures ScanFrom(pos, row, col, RankText(s, e), white, black) ==
              ScanFrom(Placed(pos, row, col + e, s[0].value, white, black), row, col + e + 1, RankText(s[1..], 0), white, black)
  {
    var g := s[0].value;
    var rest := RankText(s[1..], 0);
    assert RankText(s, e) == Count(e) + ([Letter(g.kind, g.color)] + rest);
    ScanCount(pos, row, col, e, [Letter(g.kind, g.color)] + rest, white, black);
    ScanLetter(pos, row, col + e, g, rest, white, black);
  }

  /** Filling from the next column past a cell left empty is filling from that cell. */
  lemma RankFilledEmpty(pos: Position, fin: Position, row: int, c: int, s: seq<Option<Glyph>>)
    requires Valid(pos) && Valid(fin) && 0 <= row < 8 && 0 <= c && c + |s| == 8
    requires s != [] && s[0] == None && At(pos, row, c) == None
    requires RankFilled(pos, fin, row, c + 1, s[1..])
    ensures RankFilled(pos, fin, row, c, s)
  {
  }

  /**
   * Reading a rank text back from column `col`, over cells still empty, puts on each cell a new
   * piece of the type and colour the text was written from, and touches no other cell.
   */
  lemma {:induction false} ScanRankText(pos: Position, row: int, col: int, s: seq<Option<Glyph>>, e: nat, white: Player, black: Player)
    requires Valid(pos) && 0 <= row < 8 && 0 <= col && col + e + |s| == 8
    requires white.color == White && black.color == Black
    requires forall j :: col + e <= j < 8 ==> At(pos, row, j) == None
    ensures var r := ScanFrom(pos, row, col, RankText(s, e), white, black);
            r.Ok? && RankFilled(pos, r.value.0, row, col + e, s)
    decreases |s|, 1
  {
    if s == [] {
      ScanCount(pos, row, col, e, [], white, black);
      assert Count(e) + [] == Count(e);
      assert pos.pieces[..|pos.pieces|] == pos.pieces;
    } else if s[0].None? {
      ScanRankEmpty(pos, row, col, s, e, white, black);
    } else {
      ScanRankPiece(pos, row, col, s, e, white, black);
    }
  }

  /** `ScanRankText` when the first cell is empty: it is counted, and read back as left empty. */
  lemma {:induction false} ScanRankEmpty(pos: Position, row: int, col: int, s: seq<Option<Glyph>>, e: nat, white: Player, black: Player)
    requires Valid(pos) && 0 <= row < 8 && 0 <= col && col + e + |s| == 8
    requires white.color == White && black.color == Black
    requires forall j :: col + e <= j < 8 ==> At(pos, row, j) == None
    requires s != [] && s[0].None?
    ensures var r := ScanFrom(pos, row, col, RankText(s, e), white, black);
            r.Ok? && RankFilled(pos, r.value.0, row, col + e, s)
    decreases |s|, 0
  {
    assert RankText(s, e) == RankText(s[1..], e + 1);
    ScanRankText(pos, row, col, s[1..], e + 1, white, black);
    var fin := ScanFrom(pos, row, col, RankText(s[1..], e + 1), white, black).value.0;
    RankFilledEmpty(pos, fin, row, col + e, s);
  }

  /** `ScanRankText` when the first cell holds a piece: the pending count, then its letter. */
  lemma {:induction false} ScanRankPiece(pos: Position, row: int, col: int, s: seq<Option<Glyph>>, e: nat, white: Player, black: Player)
    requires Valid(pos) && 0 <= row < 8 && 0 <= col && col + e + |s| == 8
    requires white.color == White && black.color == Black
    requires forall j :: col + e <= j < 8 ==> At(pos, row, j) == None
    requires s != [] && s[0].Some?
    ensures var r := ScanFrom(pos, row, col, RankText(s, e), white, black);
            r.Ok? && RankFilled(pos, r.value.0, row, col + e, s)
    decreases |s|, 0
  {
    var q := Placed(pos, row, col + e, s[0].value, white, black);
    var r := ScanFrom(q, row, col + e + 1, RankText(s[1..], 0), white, black);
    assert r.Ok? && RankFilled(q, r.value.0, row, col + e + 1, s[1..]) by {
      PlacedFacts(pos, row, col + e, s[0].value, white, black);
      ScanRankText(q, row, col + e + 1, s[1..], 0, white, black);
    }
    RankFilledPiece(pos, r.value.0, row, col + e, s, white, black);
    ScanPieceStep(pos, row, col, s, e, white, black);
  }

  /** `q` shows the glyphs of `p` above rank `row` and those of `src` from rank `row` down. */
  ghost predicate RowsFilled(p: Position, q: Position, row: int, src: Position)
    requires Valid(p) && Valid(q) && Valid(src)
  {
    Extends(p, q) &&
    forall i, j :: OnBoard(i, j) ==> GlyphAt(q, i, j) == if i < row then GlyphAt(p, i, j) else GlyphAt(src, i, j)
  }

  /** Reading the ranks from `row` on is reading rank `row`, then the ranks below it. */
  lemma ScanRowsStep(pos: Position, row: int, src: Position, white: Player, black: Player)
    requires Valid(pos) && Valid(src) && 0 <= row < 8
    requires white.color == White && black.color == Black
    requires forall j :: 0 <= j < 8 ==> At(pos, row, j) == None
    ensures var r := ScanFrom(pos, row, 0, RankText(RankGlyphs(src, row), 0), white, black);
            r.Ok? && RankFilled(pos, r.value.0, row, 0, RankGlyphs(src, row)) &&
            ScanRowsFrom(pos, row, Ranks(src)[row..], white, black) ==
              ScanRowsFrom(r.value.0, row + 1, Ranks(src)[row + 1..], white, black)
  {
    ScanRankText(pos, row, 0, RankGlyphs(src, row), 0, white, black);
    assert Ranks(src)[row..][0] == RankText(RankGlyphs(src, row), 0);
    assert Ranks(src)[row..][1..] == Ranks(src)[row + 1..];
  }

  /** A rank filled, then the ranks below it read back, gives all ranks from `row` down. */
  lemma RowsFilledStep(pos: Position, q: Position, fin: Position, row: int, src: Position)
    requires Valid(pos) && Valid(q) && Valid(fin) && Valid(src) && 0 <= row < 8
    requires RankFilled(pos, q, row, 0, RankGlyphs(src, row))
    requires RowsFilled(q, fin, row + 1, src)
    ensures RowsFilled(pos, fin, row, src)
  {
    ExtendsTrans(pos, q, fin);
    forall i, j | OnBoard(i, j)
      ensures GlyphAt(fin, i, j) == if i < row then GlyphAt(pos, i, j) else GlyphAt(src, i, j)
    {
      if i < row {
        GlyphKept(pos, q, i, j);
      }
    }
  }

  /** Reading the ranks of `src` from rank `row` on, over empty ranks, reproduces their glyphs. */
  lemma {:induction false} ScanRanksBack(pos: Position, row: int, src: Position, white: Player, black: Player)
    requires Valid(pos) && Valid(src) && 0 <= row <= 8
    requires white.color == White && black.color == Black
    requires forall i, j :: row <= i < 8 && 0 <= j < 8 ==> At(pos, i, j) == None
    ensures var r := ScanRowsFrom(pos, row, Ranks(src)[row..], white, black);
            r.Ok? && RowsFilled(pos, r.value, row, src)
    decreases 8 - row
  {
    if row == 8 {
      assert Ranks(src)[row..] == [];
      assert pos.pieces[..|pos.pieces|] == pos.pieces;
    } else {
      ScanRowsStep(pos, row, src, white, black);
      var q := ScanFrom(pos, row, 0, RankText(RankGlyphs(src, row), 0), white, black).value.0;
      ScanRanksBack(q, row + 1, src, white, black);
      var fin := ScanRowsFrom(q, row + 1, Ranks(src)[row + 1..], white, black).value;
      RowsFilledStep(pos, q, fin, row, src);
    }
  }

  /**
   * Re-importing the placement field: `initializeBoardFromFEN`'s reading of the ranks, on a board
   * cleared of its grid, puts on every cell a piece of the type and colour the field was written
   * from, and leaves empty every cell that was empty.
   */
  lemma PlacementRoundTrip(pos: Position, base: Position, white: Player, black: Player)
    requires Valid(pos) && Valid(base)
    requires white.color == White && black.color == Black
    ensures var r := ScanRowsFrom(base.(cells := EmptyGrid()), 0, Split(Placement(pos), '/'), white, black);
            r.Ok? && forall i, j :: OnBoard(i, j) ==> GlyphAt(r.value, i, j) == GlyphAt(pos, i, j)
  {
    PlacementRanks(pos);
    assert Ranks(pos)[0..] == Ranks(pos);
    var empty := base.(cells := EmptyGrid());
    ScanRanksBack(empty, 0, pos, white, black);
    var r := ScanRowsFrom(empty, 0, Ranks(pos), white, black);
    assert RowsFilled(empty, r.value, 0, pos);
  }

  // ------------------------------------------------------------ the castling field

  /** An unmoved piece tagged `t` stands on the cell (its owner is not looked at). */
  predicate HomeOf(pos: Position, row: int, col: int, t: PieceType)
    requires Valid(pos) && OnBoard(row, col)
  {
    At(pos, row, col).Some? && Occupant(pos, row, col).kind == t && Occupant(pos, row, col).NotMoved()
  }

  /** The letter `checkSide` appends for the rook column `col`, if the rook there is unmoved. */
  function RookLetter(pos: Position, row: int, col: int, kingSide: int, white: bool): string
    requires Valid(pos) && OnBoard(row, col)
  {
    if HomeOf(pos, row, col, Rook) then
      [if white then (if col == kingSide then 'K' else 'Q') else (if col == kingSide then 'k' else 'q')]
    else ""
  }

  /** The letters for the rook columns `cols`, in their order. */
  function RookLetters(pos: Position, row: int, cols: seq<int>, kingSide: int, white: bool): string
    requires Valid(pos) && 0 <= row < 8 && forall k :: 0 <= k < |cols| ==> 0 <= cols[k] < 8
    decreases |cols|
  {
    if cols == [] then ""
    else RookLetters(pos, row, cols[..|cols| - 1], kingSide, white) + RookLetter(pos, row, cols[|cols| - 1], kingSide, white)
  }

  /** `checkSide`: nothing unless an unmoved king stands on the king column; then the king side first. */
  function SideLetters(pos: Position, row: int, queenSide: int, kingSide: int, white: bool): string
    requires Valid(pos) && 0 <= row < 8 && 0 <= queenSide < 8 && 0 <= kingSide < 8
  {
    if HomeOf(pos, row, KingColumn, King) then RookLetters(pos, row, [kingSide, queenSide], kingSide, white) else ""
  }

  /** `generateCastlingAvailability`: the white side, then the black side, or "-" when both are empty. */
  function CastlingField(pos: Position): string
    requires Valid(pos)
  {
    var s := SideLetters(pos, WhiteMajorPieceRow, RookColumn1, RookColumn2, true) +
             SideLetters(pos, BlackMajorPieceRow, RookColumn1, RookColumn2, false);
    if s == "" then "-" else s
  }

  /** The right a castling letter stands for: unmoved king and rook on their home squares of that rank. */
  predicate Right(pos: Position, ch: char)
    requires Valid(pos)
  {
    match ch
    case 'K' => HomeOf(pos, 7, 4, King) && HomeOf(pos, 7, 7, Rook)
    case 'Q' => HomeOf(pos, 7, 4, King) && HomeOf(pos, 7, 0, Rook)
    case 'k' => HomeOf(pos, 0, 4, King) && HomeOf(pos, 0, 7, Rook)
    case 'q' => HomeOf(pos, 0, 4, King) && HomeOf(pos, 0, 0, Rook)
    case _ => false
  }

  /** The letter `ch` when `b` holds, else nothing. */
  function Opt(b: bool, ch: char): string {
    if b then [ch] else ""
  }

  /** The letters of K, Q, k, q whose right holds, in that order. */
  function RightsText(pos: Position): string
    requires Valid(pos)
  {
    Opt(Right(pos, 'K'), 'K') + Opt(Right(pos, 'Q'), 'Q') + Opt(Right(pos, 'k'), 'k') + Opt(Right(pos, 'q'), 'q')
  }

  /** The four rights spelled out. */
  lemma RightIs(pos: Position)
    requires Valid(pos)
    ensures Right(pos, 'K') == (HomeOf(pos, 7, 4, King) && HomeOf(pos, 7, 7, Rook))
    ensures Right(pos, 'Q') == (HomeOf(pos, 7, 4, King) && HomeOf(pos, 7, 0, Rook))
    ensures Right(pos, 'k') == (HomeOf(pos, 0, 4, King) && HomeOf(pos, 0, 7, Rook))
    ensures Right(pos, 'q') == (HomeOf(pos, 0, 4, King) && HomeOf(pos, 0, 0, Rook))
  {
  }

  /** `checkSide` for the home rank of one side, with the rooks on columns 0 and 7. */
  lemma SideLettersIs(pos: Position, row: int, white: bool)
    requires Valid(pos) && 0 <= row < 8
    ensures SideLetters(pos, row, 0, 7, white) ==
              Opt(HomeOf(pos, row, 4, King) && HomeOf(pos, row, 7, Rook), if white then 'K' else 'k') +
              Opt(HomeOf(pos, row, 4, King) && HomeOf(pos, row, 0, Rook), if white then 'Q' else 'q')
  {
    assert [7, 0][..1] == [7] && [7][..0] == [];
  }

  /**
   * The castling field lists, in the order K, Q, k, q, the letters whose right holds (an unmoved
   * king and an unmoved rook on their home squares), and is "-" exactly when no right holds.
   */
  lemma CastlingFieldLetters(pos: Position)
    requires Valid(pos)
    ensures CastlingField(pos) == if RightsText(pos) == "" then "-" else RightsText(pos)
    ensures CastlingField(pos) == "-" <==> !Right(pos, 'K') && !Right(pos, 'Q') && !Right(pos, 'k') && !Right(pos, 'q')
  {
    SideLettersIs(pos, 7, true);
    SideLettersIs(pos, 0, false);
    RightIs(pos);
    var a, b, c, d := Right(pos, 'K'), Right(pos, 'Q'), Right(pos, 'k'), Right(pos, 'q');
    var w := SideLetters(pos, 7, 0, 7, true);
    var bl := SideLetters(pos, 0, 0, 7, false);
    assert w == Opt(a, 'K') + Opt(b, 'Q');
    assert bl == Opt(c, 'k') + Opt(d, 'q');
    assert w + bl == RightsText(pos);
    assert |RightsText(pos)| == |Opt(a, 'K')| + |Opt(b, 'Q')| + |Opt(c, 'k')| + |Opt(d, 'q')|;
  }

  // ------------------------------------------------------------ the other fields

  /** The active colour: "w" for a white current player, else "b". */
  function ActiveColor(current: Player): string {
    if current.IsWhite() then "w" else "b"
  }

  /**
   * The active colour read back by `setCurrentPlayerFromFEN`, with the two players of different
   * colours, makes a player of the written colour current.
   */
  lemma ActiveColorRoundTrip(current: Player, player1: Player, player2: Player)
    requires player1.color != player2.color
    ensures GameStates.Active(ActiveColor(current) == "w", player1, player2).color == current.color
  {
  }

  /** The decimal digits of a count, most significant first, as `" " + n` writes a number. */
  function Digits(n: nat): (t: string)
    ensures |t| >= 1 && forall i :: 0 <= i < |t| ==> IsDigit(t[i])
  {
    if n < 10 then [DigitChar(n)] else Digits(n / 10) + [DigitChar(n % 10)]
  }

  /** A number as JavaScript writes an integer: a minus sign, then the digits of its magnitude. */
  function Decimal(n: int): string {
    if n < 0 then "-" + Digits(-n) else Digits(n)
  }

  /** The value of a string of decimal digits. */
  function DigitsValue(t: string): nat
    requires forall i :: 0 <= i < |t| ==> IsDigit(t[i])
  {
    if t == [] then 0 else DigitsValue(t[..|t| - 1]) * 10 + DigitValue(t[|t| - 1])
  }

  /** The digits read back give the count, with no leading zero. */
  lemma {:induction false} DigitsRoundTrip(n: nat)
    ensures DigitsValue(Digits(n)) == n
    ensures Digits(n)[0] == '0' ==> n == 0
  {
    if n >= 10 {
      DigitsRoundTrip(n / 10);
      var t := Digits(n);
      assert t[..|t| - 1] == Digits(n / 10);
    }
  }

  /** The en-passant field: the target square in algebraic notation, or "-". */
  function EnPassantField(t: Option<Square>): string
    requires t.Some? ==> InBounds(t.value)
  {
    if t.Some? then ToString(t.value) else "-"
  }

  /** `getEnPassantTarget` on the history `ms` of `pos`. */
  function TargetOf(pos: Position, ms: seq<Moves.Move>): (t: Option<Square>)
    requires History.Recorded(pos, ms)
    ensures t.Some? ==> InBounds(t.value)
  {
    if |ms| > 0 then History.EnPassantTarget(pos, Some(ms[|ms| - 1])) else None
  }

  /** The six fields of the record, in order. */
  function Fields(pos: Position, log: History.Log, current: Player): seq<string>
    requires Valid(pos) && History.Recorded(pos, log.history)
  {
    [Placement(pos), ActiveColor(current), CastlingField(pos), EnPassantField(TargetOf(pos, log.history)),
     Decimal(log.halfMoveClock), Decimal(log.fullMoveNumber)]
  }

  /** The record `toFEN` returns: the six fields, each after the first preceded by a space. */
  function FenRecord(pos: Position, log: History.Log, current: Player): string
    requires Valid(pos) && History.Recorded(pos, log.history)
  {
    Placement(pos) + " " + ActiveColor(current) + " " + CastlingField(pos) + " " +
    EnPassantField(TargetOf(pos, log.history)) + " " + Decimal(log.halfMoveClock) + " " + Decimal(log.fullMoveNumber)
  }

  /** A last part without the separator, after the separator, splits off as the last part. */
  lemma {:induction false} SplitLast(t: string, d: char, r: string)
    requires d !in r
    ensures Split(t + [d] + r, d) == Split(t, d) + [r]
  {
    if t == [] {
      assert t + [d] + r == [d] + r && ([d] + r)[1..] == r;
      SplitNone(r, d);
    } else {
      assert (t + [d] + r)[0] == t[0] && (t + [d] + r)[1..] == t[1..] + [d] + r;
      SplitLast(t[1..], d, r);
    }
  }

  /** Splitting the record at spaces gives back its six fields. */
  lemma FenRecordFields(pos: Position, log: History.Log, current: Player)
    requires Valid(pos) && History.Recorded(pos, log.history)
    ensures Split(FenRecord(pos, log, current), ' ') == Fields(pos, log, current)
  {
    var t := TargetOf(pos, log.history);
    var p, a, c, e, h, f := Placement(pos), ActiveColor(current), CastlingField(pos), EnPassantField(t),
                            Decimal(log.halfMoveClock), Decimal(log.fullMoveNumber);
    assert Split(p + " " + a, ' ') == [p, a] by {
      PlacementRanks(pos);
      SplitNone(p, ' ');
      SplitLast(p, ' ', a);
    }
    assert Split(p + " " + a + " " + c, ' ') == [p, a, c] by {
      CastlingNoSpace(pos);
      SplitLast(p + " " + a, ' ', c);
    }
    assert Split(p + " " + a + " " + c + " " + e, ' ') == [p, a, c, e] by {
      EnPassantNoSpace(t);
      SplitLast(p + " " + a + " " + c, ' ', e);
    }
    assert Split(p + " " + a + " " + c + " " + e + " " + h, ' ') == [p, a, c, e, h] by {
      DecimalNoSpace(log.halfMoveClock);
      SplitLast(p + " " + a + " " + c + " " + e, ' ', h);
    }
    DecimalNoSpace(log.fullMoveNumber);
    SplitLast(p + " " + a + " " + c + " " + e + " " + h, ' ', f);
  }

  lemma CastlingNoSpace(pos: Position)
    requires Valid(pos)
    ensures ' ' !in CastlingField(pos)
  {
    CastlingFieldLetters(pos);
    assert ' ' !in RightsText(pos);
  }

  lemma EnPassantNoSpace(t: Option<Square>)
    requires t.Some? ==> InBounds(t.value)
    ensures ' ' !in EnPassantField(t)
  {
    if t.Some? {
      var f := EnPassantField(t);
      assert f[0] in LegendLetter && f[1] in LegendNumber;
    }
  }

  lemma DecimalNoSpace(n: int)
    ensures ' ' !in Decimal(n)
  {
    var t := Digits(if n < 0 then -n else n);
    assert forall i :: 0 <= i < |t| ==> IsDigit(t[i]);
  }

  /** Every slot of `q` holds a piece of the same type and owner as the slot of `p`. */
  predicate SameKinds(p: Position, q: Position) {
    |q.pieces| == |p.pieces| &&
    forall x :: 0 <= x < |p.pieces| ==> q.pieces[x].kind == p.pieces[x].kind && q.pieces[x].player == p.pieces[x].player
  }

  lemma UnmarkKinds(p: Position, row: int, col: int, t: PieceType)
    requires Valid(p) && OnBoard(row, col)
    ensures SameKinds(p, Unmark(p, row, col, t))
  {
  }

  /** One `markKingAndRookAsNotMoved` step, when its letter is present, changes no type or owner. */
  lemma UnmarkStepKinds(p: Position, row: int, rookCol: int, taken: bool)
    requires Valid(p) && OnBoard(row, KingColumn) && OnBoard(row, rookCol)
    ensures SameKinds(p, if taken then UnmarkKingAndRook(p, row, KingColumn, rookCol) else p)
  {
    UnmarkKinds(p, row, KingColumn, King);
    UnmarkKinds(Unmark(p, row, KingColumn, King), row, rookCol, Rook);
  }

  /** The castling flags the import sets change `hasMoved` only, so every cell keeps its glyph. */
  lemma CastlingFlagsKeepGlyphs(pos: Position, availability: string)
    requires Valid(pos)
    ensures forall i, j :: OnBoard(i, j) ==> GlyphAt(CastlingFlags(pos, availability), i, j) == GlyphAt(pos, i, j)
  {
    var p0 := MarkAllMoved(pos);
    assert SameKinds(pos, p0);
    var p1 := if 'K' in availability then UnmarkKingAndRook(p0, WhiteMajorPieceRow, KingColumn, RookColumn2) else p0;
    UnmarkStepKinds(p0, WhiteMajorPieceRow, RookColumn2, 'K' in availability);
    var p2 := if 'Q' in availability then UnmarkKingAndRook(p1, WhiteMajorPieceRow, KingColumn, RookColumn1) else p1;
    UnmarkStepKinds(p1, WhiteMajorPieceRow, RookColumn1, 'Q' in availability);
    var p3 := if 'k' in availability then UnmarkKingAndRook(p2, BlackMajorPieceRow, KingColumn, RookColumn2) else p2;
    UnmarkStepKinds(p2, BlackMajorPieceRow, RookColumn2, 'k' in availability);
    var p4 := if 'q' in availability then UnmarkKingAndRook(p3, BlackMajorPieceRow, KingColumn, RookColumn1) else p3;
    UnmarkStepKinds(p3, BlackMajorPieceRow, RookColumn1, 'q' in availability);
    assert p4 == CastlingFlags(pos, availability);
    KindsKeepGlyphs(pos, p4);
  }

  /** Two positions with the same grid and the same types and owners show the same glyphs. */
  lemma KindsKeepGlyphs(p: Position, q: Position)
    requires Valid(p) && Valid(q) && q.cells == p.cells && SameKinds(p, q)
    ensures forall i, j :: OnBoard(i, j) ==> GlyphAt(q, i, j) == GlyphAt(p, i, j)
  {
    forall i, j | OnBoard(i, j)
      ensures GlyphAt(q, i, j) == GlyphAt(p, i, j)
    {
      assert At(q, i, j) == At(p, i, j);
    }
  }

  /**
   * Importing the record `toFEN` writes, with two players of different colours: it fails exactly
   * when the record names an en-passant square, and otherwise puts on every cell a piece of the
   * written type and colour and hands back the active colour and both clocks as written.
   */
  lemma FenRecordImport(pos: Position, log: History.Log, current: Player, base: Position, player1: Player, player2: Player)
    requires Valid(pos) && History.Recorded(pos, log.history) && Valid(base)
    requires player1.color != player2.color
    ensures var r := ImportFen(base, FenRecord(pos, log, current), player1, player2);
            (r.Ok? <==> TargetOf(pos, log.history).None?) &&
            (r.Ok? ==> (forall i, j :: OnBoard(i, j) ==> GlyphAt(r.value.0, i, j) == GlyphAt(pos, i, j)) &&
                       r.value.1 == BoardContext(ActiveColor(current), Some(Decimal(log.halfMoveClock)),
                                                 Some(Decimal(log.fullMoveNumber))))
  {
    FenRecordFields(pos, log, current);
    var white := if player1.IsWhite() then player1 else player2;
    var black := if player1.IsWhite() then player2 else player1;
    PlacementRoundTrip(pos, base, white, black);
    var placed := ScanRowsFrom(base.(cells := EmptyGrid()), 0, Split(Placement(pos), '/'), white, black).value;
    CastlingFlagsKeepGlyphs(placed, CastlingField(pos));
    assert ImportFen(base, FenRecord(pos, log, current), player1, player2) ==
           FinishImport(placed, Fields(pos, log, current));
    FinishRecord(placed, pos, log, current);
  }

  /** The steps after the placement on the written fields: the flags from the castling field, the rest as written. */
  lemma FinishRecord(placed: Position, pos: Position, log: History.Log, current: Player)
    requires Valid(placed) && Valid(pos) && History.Recorded(pos, log.history)
    ensures var r := FinishImport(placed, Fields(pos, log, current));
            (r.Ok? <==> TargetOf(pos, log.history).None?) &&
            (r.Ok? ==> r.value.0 == CastlingFlags(placed, CastlingField(pos)) &&
                       r.value.1 == BoardContext(ActiveColor(current), Some(Decimal(log.halfMoveClock)),
                                                 Some(Decimal(log.fullMoveNumber))))
  {
    var t := TargetOf(pos, log.history);
    if t.Some? {
      assert EnPassantField(t) != "-" by { assert |ToString(t.value)| == 2; }
    }
  }

  // ------------------------------------------------------------ the writer

  /**
   * `checkSide(majorPieceRow, queenSideRookColumn, kingSideRookColumn, isWhite)`: appends to
   * `letters` the letters of the unmoved rooks of that rank, king side first, when an unmoved
   * king stands on the king column.
   */
  method CheckSide(board: ChessBoard, letters: string, majorPieceRow: int, queenSideRookColumn: int,
                   kingSideRookColumn: int, isWhite: bool) returns (out: string)
    requires board.Valid() && 0 <= majorPieceRow < 8 && 0 <= queenSideRookColumn < 8 && 0 <= kingSideRookColumn < 8
    ensures out == letters + SideLetters(board.Snap(), majorPieceRow, queenSideRookColumn, kingSideRookColumn, isWhite)
  {
    ghost var pos := board.Snap();
    out := letters;
    var king := board.GetPieceAt(majorPieceRow, KingColumn);
    if king.Some? && board.pieces[king.value].kind == King && board.pieces[king.value].NotMoved() {
      var rookPositions := [kingSideRookColumn, queenSideRookColumn];
      var i := 0;
      while i < |rookPositions|
        invariant 0 <= i <= |rookPositions|
        invariant out == letters + RookLetters(pos, majorPieceRow, rookPositions[..i], kingSideRookColumn, isWhite)
      {
        var position := rookPositions[i];
        var rook := board.GetPieceAt(majorPieceRow, position);
        assert rookPositions[..i + 1][..i] == rookPositions[..i];
        if rook.Some? && board.pieces[rook.value].kind == Rook && board.pieces[rook.value].NotMoved() {
          var letter := if isWhite then (if position == kingSideRookColumn then 'K' else 'Q')
                        else (if position == kingSideRookColumn then 'k' else 'q');
          out := out + [letter];
        }
        i := i + 1;
      }
      assert rookPositions[..2] == rookPositions;
    }
  }

  /** `generateCastlingAvailability(board)`. */
  method GenerateCastlingAvailability(board: ChessBoard) returns (field: string)
    requires board.Valid()
    ensures field == CastlingField(board.Snap())
  {
    var castlingAvailability := "";
    castlingAvailability := CheckSide(board, castlingAvailability, WhiteMajorPieceRow, RookColumn1, RookColumn2, true);
    castlingAvailability := CheckSide(board, castlingAvailability, BlackMajorPieceRow, RookColumn1, RookColumn2, false);
    field := if castlingAvailability == "" then "-" else castlingAvailability;
  }

  /** One step of the inner loop: the rank text from a column on, unfolded by one cell. */
  lemma RankTextStep(s: seq<Option<Glyph>>, col: int, e: nat)
    requires 0 <= col < |s| && e + |s| - col <= 8
    ensures RankText(s[col..], e) ==
              if s[col].None? then RankText(s[col + 1..], e + 1)
              else Count(e) + [Letter(s[col].value.kind, s[col].value.color)] + RankText(s[col + 1..], 0)
  {
    assert s[col..][1..] == s[col + 1..];
  }

  /**
   * The inner loop of step 1 of `toFEN`: the cells of one row appended to `fen`, a run of empty
   * squares as its count, written before the next piece or at the end of the row.
   */
  method AppendRank(board: ChessBoard, fen: string, row: int) returns (out: string)
    requires board.Valid() && 0 <= row < 8
    ensures out == fen + RankText(RankGlyphs(board.Snap(), row), 0)
  {
    ghost var s := RankGlyphs(board.Snap(), row);
    out := fen;
    var emptySquares := 0;
    var col := 0;
    while col < 8
      invariant 0 <= col <= 8 && 0 <= emptySquares <= col
      invariant out + RankText(s[col..], emptySquares) == fen + RankText(s, 0)
    {
      var piece := board.GetPieceAt(row, col);
      ghost var before, e := out, emptySquares;
      RankTextStep(s, col, emptySquares);
      if piece == None {
        assert s[col] == None;
        emptySquares := emptySquares + 1;
      } else {
        if emptySquares != 0 {
          out := out + [DigitChar(emptySquares)];
          emptySquares := 0;
        }
        var p := board.pieces[piece.value];
        out := out + [Letter(p.kind, p.player.color)];
        assert s[col] == Some(Glyph(p.kind, p.player.color));
        assert out == before + Count(e) + [Letter(p.kind, p.player.color)];
        Append3(before, Count(e), [Letter(p.kind, p.player.color)], RankText(s[col + 1..], 0));
      }
      col := col + 1;
    }
    if emptySquares != 0 {
      out := out + [DigitChar(emptySquares)];
    }
    assert s[0..] == s;
  }

  /**
   * Step 1 of `toFEN`, the piece placement: each row in turn, with a '/' after every row but the
   * last.
   */
  method PiecePlacement(board: ChessBoard) returns (fen: string)
    requires board.Valid()
    ensures fen == Placement(board.Snap())
  {
    ghost var ranks := Ranks(board.Snap());
    fen := "";
    var row := 0;
    while row < 8
      invariant 0 <= row <= 8
      invariant row < 8 ==> fen + Join(ranks[row..], '/') == Join(ranks, '/')
      invariant row == 8 ==> fen == Join(ranks, '/')
    {
      ghost var start := fen;
      fen := AppendRank(board, fen, row);
      JoinStep(ranks, row, '/');
      if row < 8 - 1 {
        fen := fen + "/";
        Append3(start, ranks[row], "/", Join(ranks[row + 1..], '/'));
      }
      row := row + 1;
    }
  }

  /**
   * `toFEN(board, move, gameState)`: the piece placement, then the active colour, the castling
   * field, the en-passant field and the two clocks, each after a space.
   */
  method ToFen(board: ChessBoard, move: History.MoveHistory, gameState: GameStates.GameState) returns (fen: string)
    requires board.Valid() && History.Recorded(board.Snap(), move.history)
    ensures fen == FenRecord(board.Snap(), move.State(), gameState.currentPlayer)
  {
    fen := PiecePlacement(board);
    fen := fen + " " + (if gameState.currentPlayer.IsWhite() then "w" else "b");
    var castling := GenerateCastlingAvailability(board);
    fen := fen + " " + castling;
    var target := move.GetEnPassantTarget(board.Snap());
    fen := fen + " " + (if target.Some? then ToString(target.value) else "-");
    fen := fen + " " + Decimal(move.halfMoveClock);
    fen := fen + " " + Decimal(move.fullMoveNumber);
  }

  /** Appending three strings one after another is appending their concatenation. */
  lemma Append3(a: string, b: string, c: string, d: string)
    ensures a + b + c + d == a + (b + c + d)
  {
  }

  /** The joined parts from index `k` on: the part at `k`, then the separator and the rest if any. */
  lemma JoinStep(parts: seq<string>, k: int, d: char)
    requires 0 <= k < |parts|
    ensures Join(parts[k..], d) ==
              if k < |parts| - 1 then parts[k] + [d] + Join(parts[k + 1..], d) else parts[k]
  {
    assert parts[k..][0] == parts[k];
    if k < |parts| - 1 {
      assert parts[k..][1..] == parts[k + 1..];
    }
  }
}
