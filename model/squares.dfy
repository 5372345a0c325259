/** The immutable (row, col) value of public/chess/model/board/Square.js. Row 0 is rank 8. */
module Squares {
  import opened Wrappers

  datatype Square = Square(row: int, col: int)

  /** The plain `{ row, col }` object that `getSquareFromNotation` returns. */
  datatype Coords = Coords(row: int, col: int)

  /** File letters by column and rank digits by row. */
  const LegendLetter: seq<char> := "abcdefgh"
  const LegendNumber: seq<char> := "87654321"

  predicate InBounds(s: Square) {
    0 <= s.row < 8 && 0 <= s.col < 8
  }

  /** `Array.prototype.indexOf` over a legend of one-letter strings. */
  function IndexOf(legend: seq<char>, ch: char): (i: int)
    ensures -1 <= i < |legend|
    ensures 0 <= i ==> legend[i] == ch && forall j :: 0 <= j < i ==> legend[j] != ch
    ensures i == -1 <==> ch !in legend
  {
    if |legend| == 0 then -1
    else if legend[0] == ch then 0
    else
      var k := IndexOf(legend[1..], ch);
      if k == -1 then -1 else k + 1
  }

  /** `indexOf` of a substring that is empty: never found. */
  function IndexOfSubstring(legend: seq<char>, sub: string): (i: int)
    requires |sub| <= 1
    ensures sub == [] ==> i == -1
    ensures |sub| == 1 ==> i == IndexOf(legend, sub[0])
  {
    if sub == [] then -1 else IndexOf(legend, sub[0])
  }

  /** JavaScript `substring(start, start + 1)`: the one character there, or "" past the end. */
  function CharAt(s: string, k: nat): (r: string)
    ensures |r| <= 1
    ensures k < |s| ==> r == [s[k]]
    ensures |s| <= k ==> r == []
  {
    if k < |s| then [s[k]] else []
  }

  /** `getSquareFromNotation`: file letter to col, rank digit to row, -1 for an unknown one. */
  function FromNotation(notation: string): (r: Coords)
    ensures -1 <= r.row < 8 && -1 <= r.col < 8
    ensures r.col == -1 <==> (|notation| == 0 || notation[0] !in LegendLetter)
    ensures r.row == -1 <==> (|notation| < 2 || notation[1] !in LegendNumber)
  {
    Coords(IndexOfSubstring(LegendNumber, CharAt(notation, 1)),
           IndexOfSubstring(LegendLetter, CharAt(notation, 0)))
  }

  /** `toString`: file letter followed by rank digit. */
  function ToString(s: Square): (r: string)
    requires InBounds(s)
    ensures |r| == 2 && r[0] in LegendLetter && r[1] in LegendNumber
  {
    [LegendLetter[s.col], LegendNumber[s.row]]
  }

  /** `equals`: only a Square with the same row and col is equal; `None` is any non-Square. */
  function Equals(s: Square, o: Option<Square>): (b: bool)
    ensures b <==> o == Some(s)
  {
    o.Some? && o.value.row == s.row && o.value.col == s.col
  }

  /** The legends hold each letter once, so a position is found back from its letter. */
  lemma {:induction false} IndexOfDistinct(legend: seq<char>, k: nat)
    requires k < |legend|
    requires forall i, j :: 0 <= i < j < |legend| ==> legend[i] != legend[j]
    ensures IndexOf(legend, legend[k]) == k
  {
    if k > 0 {
      assert legend[0] != legend[k];
      IndexOfDistinct(legend[1..], k - 1);
      assert legend[1..][k - 1] == legend[k];
    }
  }

  /** Reading back the notation of an in-range square gives its row and col. */
  lemma NotationRoundTrip(s: Square)
    requires InBounds(s)
    ensures FromNotation(ToString(s)) == Coords(s.row, s.col)
  {
    IndexOfDistinct(LegendLetter, s.col);
    IndexOfDistinct(LegendNumber, s.row);
  }

  /** Distinct in-range squares have distinct notations. */
  lemma NotationInjective(s: Square, t: Square)
    requires InBounds(s) && InBounds(t) && ToString(s) == ToString(t)
    ensures s == t
  {
    NotationRoundTrip(s);
    NotationRoundTrip(t);
  }
}
