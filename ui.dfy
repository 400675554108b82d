/** The pure helpers of the terminal interface: string truncation, the
    edges and lines of the status boxes, and spinner frame selection. */
module Ui {
  import GoStrings

  /** One byte of a Go string. */
  newtype byte = x: int | 0 <= x < 256

  /** The three dots appended to a truncated string. */
  const Ellipsis: seq<byte> := [46, 46, 46]

  /** `truncateString(s, maxLen)` on the bytes of `s`. The truncating
      branch slices `s[:maxLen-3]`, which Go only allows for
      `maxLen >= 3`. */
  function Truncate(s: seq<byte>, maxLen: int): seq<byte>
    requires |s| <= maxLen || maxLen >= 3
  {
    if |s| <= maxLen then s else s[..maxLen - 3] + Ellipsis
  }

  /** A truncated string never exceeds the limit; it ends in the ellipsis
      exactly when `s` was too long, and what precedes the ellipsis is a
      prefix of `s`. */
  lemma TruncateBounds(s: seq<byte>, maxLen: int)
    requires maxLen >= 3
    ensures var r := Truncate(s, maxLen);
      && |r| <= maxLen
      && |r| == (if |s| <= maxLen then |s| else maxLen)
      && (|s| > maxLen ==> r[|r| - 3..] == Ellipsis && r[..|r| - 3] <= s)
      && (|s| <= maxLen ==> r <= s)
  {
    var r := Truncate(s, maxLen);
    if |s| > maxLen {
      assert r[|r| - 3..] == Ellipsis;
      assert r[..|r| - 3] == s[..maxLen - 3];
    }
  }

  /** Truncating an already truncated string changes nothing. */
  lemma TruncateIdempotent(s: seq<byte>, maxLen: int)
    requires |s| <= maxLen || maxLen >= 3
    ensures Truncate(Truncate(s, maxLen), maxLen) == Truncate(s, maxLen)
  {
  }

  /** The ANSI sequence that resets all colours and styles. */
  const Reset: string := "\U{1B}[0m"

  /** The number of horizontal rules in a box edge. */
  const BoxWidth: nat := 50

  const Horizontal: char := '\U{2500}'
  const Vertical: char := '\U{2502}'
  const TopCorner: char := '\U{256D}'
  const BottomCorner: char := '\U{2570}'

  /** The top edge of a box: the colour, the rounded corner, the rule and
      a reset. */
  function BoxTop(color: string): string {
    color + [TopCorner] + GoStrings.Repeat([Horizontal], BoxWidth) + Reset
  }

  /** The bottom edge of a box. */
  function BoxBottom(color: string): string {
    color + [BottomCorner] + GoStrings.Repeat([Horizontal], BoxWidth) + Reset
  }

  /** One line inside a box: the coloured bar, a reset, a space and the
      content. */
  function BoxLine(color: string, content: string): string {
    color + [Vertical] + Reset + " " + content
  }

  /** An edge made of `color`, the corner `corner`, exactly `BoxWidth`
      horizontal rules and the reset sequence, in that order. */
  ghost predicate EdgeShape(e: string, color: string, corner: char) {
    && |e| == |color| + 1 + BoxWidth + |Reset|
    && e[..|color|] == color
    && e[|color|] == corner
    && (forall i :: |color| < i <= |color| + BoxWidth ==> e[i] == Horizontal)
    && e[|color| + 1 + BoxWidth..] == Reset
  }

  lemma {:induction false} EdgeShapeOf(color: string, corner: char)
    ensures EdgeShape(color + [corner] + GoStrings.Repeat([Horizontal], BoxWidth) + Reset, color, corner)
  {
    var rule := GoStrings.Repeat([Horizontal], BoxWidth);
    GoStrings.RepeatRune(Horizontal, BoxWidth);
    var e := color + [corner] + rule + Reset;
    assert e[..|color|] == color;
    assert e[|color| + 1 + BoxWidth..] == Reset;
    forall i | |color| < i <= |color| + BoxWidth
      ensures e[i] == Horizontal
    {
      assert e[i] == rule[i - |color| - 1];
    }
  }

  /** Both edges have the colour, their corner, exactly fifty rules and
      the reset, and differ only in the corner. */
  lemma BoxEdges(color: string)
    ensures EdgeShape(BoxTop(color), color, TopCorner)
    ensures EdgeShape(BoxBottom(color), color, BottomCorner)
    ensures |BoxTop(color)| == |BoxBottom(color)|
    ensures forall i :: 0 <= i < |BoxTop(color)| && i != |color| ==> BoxTop(color)[i] == BoxBottom(color)[i]
  {
    EdgeShapeOf(color, TopCorner);
    EdgeShapeOf(color, BottomCorner);
    var t, b := BoxTop(color), BoxBottom(color);
    forall i | 0 <= i < |t| && i != |color|
      ensures t[i] == b[i]
    {
      if i < |color| {
        assert t[i] == t[..|color|][i] && b[i] == b[..|color|][i];
      } else if i > |color| + BoxWidth {
        var j := i - (|color| + 1 + BoxWidth);
        assert t[i] == t[|color| + 1 + BoxWidth..][j] && b[i] == b[|color| + 1 + BoxWidth..][j];
      }
    }
  }

  /** The length of the decoration in front of a box line's content. */
  function LinePrefixLength(color: string): nat {
    |color| + 1 + |Reset| + 1
  }

  /** A box line ends with its content, after a prefix fixed by the colour;
      so equal lines of one colour have equal content. */
  lemma BoxLineContent(color: string, content: string, other: string)
    ensures |BoxLine(color, content)| == LinePrefixLength(color) + |content|
    ensures BoxLine(color, content)[..|color|] == color
    ensures BoxLine(color, content)[|color|] == Vertical
    ensures BoxLine(color, content)[LinePrefixLength(color)..] == content
    ensures BoxLine(color, content) == BoxLine(color, other) ==> content == other
  {
    var l := BoxLine(color, content);
    assert l[LinePrefixLength(color)..] == content;
    assert l[..|color|] == color;
    assert BoxLine(color, other)[LinePrefixLength(color)..] == other;
  }

  /** The ten frames of the spinner animation. */
  const Spinner: seq<string> := [
    "\U{280B}", "\U{2819}", "\U{2839}", "\U{2838}", "\U{283C}",
    "\U{2834}", "\U{2826}", "\U{2827}", "\U{2807}", "\U{280F}"
  ]

  /** Go's `a / n` for a positive divisor: the quotient truncated toward
      zero. */
  function GoQuo(a: int, n: int): int
    requires n > 0
  {
    if a < 0 then -((-a) / n) else a / n
  }

  /** Go's `a % n` for a positive divisor: the remainder of the truncated
      division, which takes the sign of `a`. */
  function GoRem(a: int, n: int): int
    requires n > 0
  {
    if a < 0 then -((-a) % n) else a % n
  }

  /** Go's division identity `a == (a/n)*n + a%n`, with a remainder smaller
      than `n` in magnitude and never of the opposite sign to `a`. */
  lemma GoRemSpec(a: int, n: int)
    requires n > 0
    ensures a == GoQuo(a, n) * n + GoRem(a, n)
    ensures a >= 0 ==> 0 <= GoRem(a, n) < n
    ensures a < 0 ==> -n < GoRem(a, n) <= 0
  {
    if a < 0 {
      var q, m := (-a) / n, (-a) % n;
      assert -a == q * n + m;
      assert GoQuo(a, n) * n == -(q * n);
    }
  }

  /** The frame index `spinnerIdx % len(Spinner)`. */
  function SpinnerIndex(spinnerIdx: int): (k: int) {
    GoRem(spinnerIdx, |Spinner|)
  }

  /** `Spinner[spinnerIdx % len(Spinner)]`, which Go only allows when the
      index is not negative. */
  function SpinnerFrame(spinnerIdx: int): string
    requires SpinnerIndex(spinnerIdx) >= 0
  {
    Spinner[SpinnerIndex(spinnerIdx)]
  }

  /** For every counter that is not negative the frame index lies in
      [0, 10), and the frames repeat every ten steps. A negative counter
      gives an index that is not positive, which only a multiple of ten
      turns into a valid one. */
  lemma SpinnerIndexRange(spinnerIdx: int)
    ensures spinnerIdx >= 0 ==> 0 <= SpinnerIndex(spinnerIdx) < |Spinner|
    ensures spinnerIdx >= 0 ==> SpinnerIndex(spinnerIdx + |Spinner|) == SpinnerIndex(spinnerIdx)
    ensures spinnerIdx < 0 ==> (SpinnerIndex(spinnerIdx) >= 0 <==> spinnerIdx % |Spinner| == 0)
    ensures spinnerIdx >= 0 ==> SpinnerFrame(spinnerIdx) == Spinner[spinnerIdx % |Spinner|]
  {
    assert |Spinner| == 10;
    GoRemSpec(spinnerIdx, 10);
    if spinnerIdx < 0 {
      var m := (-spinnerIdx) % 10;
      var q := (-spinnerIdx) / 10;
      assert spinnerIdx == -q * 10 - m;
      if m == 0 {
        assert spinnerIdx == (-q) * 10;
      }
    }
  }
}
