/**
 * The piece-placement field of a FEN record, as ChessBoard.initializeBoardFromFEN reads it and
 * FENGenerator.toFEN writes it (section 16.1.3.1 of the PGN Standard): ranks separated by '/',
 * a decimal digit for a run of empty squares, a letter for a piece, upper case for white.
 */
module FenPlacement {
  import opened Wrappers
  import opened Squares
  import opened Players
  import opened Pieces
  import opened Positions

  // ------------------------------------------------------------ String.prototype.split and join

  /** `s.split(d)` for a one-character separator: always at least one part, none containing `d`. */
  function Split(s: string, d: char): (parts: seq<string>)
    ensures |parts| >= 1
    ensures forall k :: 0 <= k < |parts| ==> d !in parts[k]
  {
    if s == [] then [[]]
    else
      var rest := Split(s[1..], d);
      if s[0] == d then [[]] + rest
      else [[s[0]] + rest[0]] + rest[1..]
  }

  /** The parts written back with `d` between each two. */
  function Join(parts: seq<string>, d: char): string
    requires |parts| >= 1
  {
    if |parts| == 1 then parts[0] else parts[0] + [d] + Join(parts[1..], d)
  }

  /** A string without the separator splits to itself. */
  lemma {:induction false} SplitNone(s: string, d: char)
    requires d !in s
    ensures Split(s, d) == [s]
  {
    if s != [] {
      SplitNone(s[1..], d);
      assert [s[0]] + s[1..] == s;
    }
  }

  /** A part followed by the separator splits off as the first part. */
  lemma {:induction false} SplitFirst(r: string, d: char, t: string)
    requires d !in r
    ensures Split(r + [d] + t, d) == [r] + Split(t, d)
  {
    if r == [] {
      assert r + [d] + t == [d] + t;
      assert ([d] + t)[1..] == t;
    } else {
      assert (r + [d] + t)[1..] == r[1..] + [d] + t;
      SplitFirst(r[1..], d, t);
      assert [r[0]] + r[1..] == r;
    }
  }

  /** Splitting undoes joining when no part holds the separator. */
  lemma {:induction false} SplitJoin(parts: seq<string>, d: char)
    requires |parts| >= 1 && forall k :: 0 <= k < |parts| ==> d !in parts[k]
    ensures Split(Join(parts, d), d) == parts
  {
    if |parts| == 1 {
      SplitNone(parts[0], d);
    } else {
      SplitJoin(parts[1..], d);
      SplitFirst(parts[0], d, Join(parts[1..], d));
      assert [parts[0]] + parts[1..] == parts;
    }
  }

  // ------------------------------------------------------------ characters

  /** `Number.isInteger(parseInt(char))` for a single character. */
  predicate IsDigit(ch: char) {
    '0' <= ch <= '9'
  }

  function DigitValue(ch: char): (v: nat)
    requires IsDigit(ch)
    ensures v <= 9
  {
    ch as int - '0' as int
  }

  /** The digit character of a count between 0 and 9, as `fen += emptySquares` writes it. */
  function DigitChar(n: nat): (ch: char)
    requires n <= 9
    ensures IsDigit(ch) && DigitValue(ch) == n
  {
    ('0' as int + n) as char
  }

  /** The KELVIN SIGN, which `toLowerCase` maps to the letter k and `toUpperCase` keeps. */
  const Kelvin: char := '\U{212A}'

  /**
   * `char === char.toUpperCase()`: true for every character but a-z among ASCII and the Kelvin
   * sign; other non-ASCII characters are read as upper case too, which only decides the owner of a
   * piece that `fenToPiece` then refuses to build.
   */
  predicate IsUpper(ch: char) {
    !('a' <= ch <= 'z')
  }

  /**
   * `toLowerCase` for the characters whose lower case is a letter `fenToPiece` accepts: A-Z and
   * the Kelvin sign; every other character is left as it is.
   */
  function Lower(ch: char): (l: char)
    ensures 'A' <= ch <= 'Z' ==> l as int == ch as int + 32
    ensures ch == Kelvin ==> l == 'k'
    ensures !('A' <= ch <= 'Z') && ch != Kelvin ==> l == ch
  {
    if 'A' <= ch <= 'Z' then (ch as int + 32) as char else if ch == Kelvin then 'k' else ch
  }

  /** The switch of `fenToPiece` on the lower-cased character. */
  function KindOf(ch: char): (t: Option<PieceType>)
    ensures t.Some? <==> ch in "kqrbnpKQRBNP" || ch == Kelvin
    ensures ch == Kelvin ==> t == Some(King) && IsUpper(ch)
  {
    match Lower(ch)
    case 'k' => Some(King)
    case 'q' => Some(Queen)
    case 'r' => Some(Rook)
    case 'b' => Some(Bishop)
    case 'n' => Some(Knight)
    case 'p' => Some(Pawn)
    case _ => None
  }

  /** The letter `pieceToFENMap` gives a piece of this type and colour. */
  function Letter(t: PieceType, c: PlayerColor): (ch: char)
    ensures !IsDigit(ch) && ch != '/'
    ensures KindOf(ch) == Some(t) && (IsUpper(ch) <==> c == White)
  {
    var l := match t
      case King => 'k'
      case Queen => 'q'
      case Rook => 'r'
      case Bishop => 'b'
      case Knight => 'n'
      case Pawn => 'p';
    if c == White then (l as int - 32) as char else l
  }

  // ------------------------------------------------------------ reading one rank and the grid

  /** The piece `fenToPiece` builds for a letter: white when upper case. */
  function FenToPiece(ch: char, white: Player, black: Player, row: int, col: int): (r: Result<ChessPiece>)
    ensures r.Ok? <==> KindOf(ch).Some?
    ensures r.Ok? ==> r.value == Construct(Square(row, col), if IsUpper(ch) then white else black, KindOf(ch).value)
    ensures r.Err? ==> r.message == "Invalid FEN character: " + [ch]
  {
    match KindOf(ch)
    case None => Err("Invalid FEN character: " + [ch])
    case Some(t) => Ok(Construct(Square(row, col), if IsUpper(ch) then white else black, t))
  }

  /**
   * One character of a rank read at column `col`: a digit moves the column on by its value; a
   * piece letter puts a new piece on the cell and moves on by one. A cell outside the grid is an
   * error here (see README).
   */
  function ScanChar(pos: Position, row: int, col: int, ch: char, white: Player, black: Player)
    : (r: Result<(Position, int)>)
    requires Valid(pos)
    ensures r.Ok? ==> Valid(r.value.0) && |r.value.0.pieces| >= |pos.pieces|
  {
    if IsDigit(ch) then Ok((pos, col + DigitValue(ch)))
    else match FenToPiece(ch, white, black, row, col)
      case Err(e) => Err(e)
      case Ok(p) =>
        if !OnBoard(row, col) then Err("Square outside the board")
        else
          var q := NewPiece(pos, p);
          Ok((SetCell(q, row, col, Some(|pos.pieces|)), col + 1))
  }

  /** The characters of a rank from `col` on, as the inner loop of the import reads them. */
  function ScanFrom(pos: Position, row: int, col: int, s: string, white: Player, black: Player)
    : (r: Result<(Position, int)>)
    requires Valid(pos)
    ensures r.Ok? ==> Valid(r.value.0) && |r.value.0.pieces| >= |pos.pieces|
    decreases |s|
  {
    if s == [] then Ok((pos, col))
    else match ScanChar(pos, row, col, s[0], white, black)
      case Err(e) => Err(e)
      case Ok(st) => ScanFrom(st.0, row, st.1, s[1..], white, black)
  }

  /** The ranks from index `row` on, each read from column 0. */
  function ScanRowsFrom(pos: Position, row: int, rows: seq<string>, white: Player, black: Player)
    : (r: Result<Position>)
    requires Valid(pos)
    ensures r.Ok? ==> Valid(r.value) && |r.value.pieces| >= |pos.pieces|
    decreases |rows|
  {
    if rows == [] then Ok(pos)
    else match ScanFrom(pos, row, 0, rows[0], white, black)
      case Err(e) => Err(e)
      case Ok(st) => ScanRowsFrom(st.0, row + 1, rows[1..], white, black)
  }

  // ------------------------------------------------------------ the board a failed read leaves

  /** Only the ranks `lo` to `hi - 1` may differ between `p` and `q`. */
  ghost predicate RowsKept(p: Position, q: Position, lo: int, hi: int)
    requires Valid(p) && Valid(q)
  {
    forall r, c :: OnBoard(r, c) && !(lo <= r < hi) ==> At(q, r, c) == At(p, r, c)
  }

  lemma RowsKeptWiden(p: Position, q: Position, s: Position, lo: int, mid: int, hi: int)
    requires Valid(p) && Valid(q) && Valid(s) && lo <= mid
    requires RowsKept(p, q, lo, mid + 1) && RowsKept(q, s, mid + 1, hi)
    ensures RowsKept(p, s, lo, if hi < mid + 1 then mid + 1 else hi)
  {
  }

  /**
   * The board as the inner loop leaves it, whether the rank reads to its end or a character
   * fails: the import writes cell by cell, so the cells before the failing character stay written.
   */
  function ScanFromLeft(pos: Position, row: int, col: int, s: string, white: Player, black: Player)
    : (q: Position)
    requires Valid(pos)
    ensures Valid(q) && RowsKept(pos, q, row, row + 1)
    ensures ScanFrom(pos, row, col, s, white, black).Ok? ==> q == ScanFrom(pos, row, col, s, white, black).value.0
    decreases |s|
  {
    if s == [] then pos
    else match ScanChar(pos, row, col, s[0], white, black)
      case Err(_) => pos
      case Ok(st) => ScanFromLeft(st.0, row, st.1, s[1..], white, black)
  }

  /** The board as the outer loop leaves it: the ranks read in full, then the failing rank's prefix. */
  function ScanRowsLeft(pos: Position, row: int, rows: seq<string>, white: Player, black: Player)
    : (q: Position)
    requires Valid(pos)
    ensures Valid(q) && RowsKept(pos, q, row, row + |rows|)
    ensures ScanRowsFrom(pos, row, rows, white, black).Ok? ==> q == ScanRowsFrom(pos, row, rows, white, black).value
    decreases |rows|
  {
    if rows == [] then pos
    else
      var left := ScanFromLeft(pos, row, 0, rows[0], white, black);
      if ScanFrom(pos, row, 0, rows[0], white, black).Err? then left
      else ScanRowsLeft(left, row + 1, rows[1..], white, black)
  }

  /**
   * When the ranks before index `j` read and rank `j` fails, the whole read fails with that rank's
   * message; the board keeps the ranks before `j` as read, rank `j` as far as it got, and no later
   * rank is touched.
   */
  lemma {:induction false} ScanRowsStopsAt(pos: Position, row: int, rows: seq<string>, white: Player,
                                           black: Player, j: nat)
    requires Valid(pos) && j < |rows|
    requires ScanRowsFrom(pos, row, rows[..j], white, black).Ok?
    requires ScanFrom(ScanRowsFrom(pos, row, rows[..j], white, black).value, row + j, 0, rows[j], white, black).Err?
    ensures var done := ScanRowsFrom(pos, row, rows[..j], white, black).value;
            var r := ScanRowsFrom(pos, row, rows, white, black);
            r.Err? && r.message == ScanFrom(done, row + j, 0, rows[j], white, black).message &&
            ScanRowsLeft(pos, row, rows, white, black) == ScanFromLeft(done, row + j, 0, rows[j], white, black) &&
            RowsKept(done, ScanRowsLeft(pos, row, rows, white, black), row + j, row + j + 1) &&
            RowsKept(pos, ScanRowsLeft(pos, row, rows, white, black), row, row + j + 1)
    decreases j
  {
    if j == 0 {
      assert rows[..0] == [];
    } else {
      var st := ScanFrom(pos, row, 0, rows[0], white, black);
      assert rows[..j][0] == rows[0] && rows[..j][1..] == rows[1..][..j - 1];
      assert st.Ok?;
      var left := ScanFromLeft(pos, row, 0, rows[0], white, black);
      assert left == st.value.0;
      assert rows[1..][j - 1] == rows[j];
      assert ScanRowsFrom(pos, row, rows[..j], white, black) == ScanRowsFrom(left, row + 1, rows[1..][..j - 1], white, black);
      assert ScanRowsFrom(pos, row, rows, white, black) == ScanRowsFrom(left, row + 1, rows[1..], white, black);
      assert ScanRowsLeft(pos, row, rows, white, black) == ScanRowsLeft(left, row + 1, rows[1..], white, black);
      ScanRowsStopsAt(left, row + 1, rows[1..], white, black, j - 1);
      RowsKeptWiden(pos, left, ScanRowsLeft(left, row + 1, rows[1..], white, black), row, row, row + j + 1);
    }
  }
}
