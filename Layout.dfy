/** The fixed-width layout helpers of the LCD script: repeated characters,
    the two-column line and centred text. The screen width is a parameter. */
module Layout {
  import opened Outcomes
  import opened Strings

  function Min(a: int, b: int): int { if a <= b then a else b }
  function Max(a: int, b: int): int { if a >= b then a else b }

  /** C#'s `(int)(w / 2)`: integer division truncating toward zero. */
  function Half(w: int): (h: int)
    ensures w >= 0 ==> 0 <= w - 2 * h <= 1
    ensures w < 0 ==> -1 <= w - 2 * h <= 0
  {
    if w >= 0 then w / 2 else -((-w) / 2)
  }

  /** `n` copies of `c`; none when `n` is zero or negative. */
  function Repeat(c: char, n: int): (s: string)
    ensures |s| == Max(n, 0)
    ensures forall i :: 0 <= i < |s| ==> s[i] == c
    decreases n
  {
    if n <= 0 then [] else Repeat(c, n - 1) + [c]
  }

  /** GenerateString: appends `character` once per round of a counting loop. */
  method GenerateString(character: char, count: int) returns (output: string)
    ensures output == Repeat(character, count)
  {
    output := "";
    var i := 0;
    while i < count
      invariant 0 <= i <= Max(count, 0)
      invariant output == Repeat(character, i)
    {
      output := output + [character];
      i := i + 1;
    }
  }

  /** What a two-column line is: exactly `width` characters, the first
      `width / 2 - 1` characters (at most) of `left`, then spaces, at least two
      of them, then the first `width / 2 - 1` characters (at most) of `right`. */
  predicate IsTwoColumnLine(line: string, left: string, right: string, width: int)
  {
    var keep := width / 2 - 1;
    var lw := Min(keep, |left|);
    var rw := Min(keep, |right|);
    && 0 <= lw && 0 <= rw && lw + 2 <= width - rw
    && |line| == width
    && line[..lw] == left[..lw]
    && line[width - rw..] == right[..rw]
    && (forall i :: lw <= i < width - rw ==> line[i] == ' ')
  }

  /** TextLayoutTwoColumns: the first two strings of `data` on one line of
      `width` characters. Fewer than two strings is the explicit exception; a
      width below 2 makes the kept length negative and Substring throws. */
  function TwoColumns(data: seq<string>, width: int): (r: Result<string>)
    ensures r.Err? <==> |data| < 2 || width < 2
    ensures |data| < 2 ==> r == Err(TooFewColumns)
    ensures r.Ok? ==> IsTwoColumnLine(r.value, data[0], data[1], width)
  {
    if |data| < 2 then Err(TooFewColumns)
    else
      var halfWidth := Half(width);
      var leftWidth := Min(halfWidth - 1, |data[0]|);
      var rightWidth := Min(halfWidth - 1, |data[1]|);
      if leftWidth < 0 || rightWidth < 0 then Err(SubstringOutOfRange)
      else
        var gap := Repeat(' ', Max(width - leftWidth - rightWidth, 1));
        var line := data[0][..leftWidth] + gap + data[1][..rightWidth];
        assert |gap| == width - leftWidth - rightWidth;
        assert line[..leftWidth] == data[0][..leftWidth];
        assert line[width - rightWidth..] == data[1][..rightWidth];
        assert forall i :: leftWidth <= i < width - rightWidth ==> line[i] == gap[i - leftWidth];
        Ok(line)
  }

  /** TextLayoutCenter: `width / 2 - |text| / 2` spaces (none if that is not
      positive) and then the whole text, never truncated. */
  function Center(text: string, width: int): (line: string)
    ensures var pad := Max(Half(width) - |text| / 2, 0);
      && |line| == pad + |text|
      && line[pad..] == text
      && (forall i :: 0 <= i < pad ==> line[i] == ' ')
  {
    Repeat(' ', Half(width) - |text| / 2) + text
  }

  /** Text that fits is centred: the line fits the screen and the space left
      on the right differs from the padding on the left by at most one. */
  lemma CenterBalanced(text: string, width: int)
    requires |text| <= width
    ensures var line := Center(text, width);
      var pad := Half(width) - |text| / 2;
      && pad >= 0
      && |line| <= width
      && -1 <= (width - |line|) - pad <= 1
  {
  }

  /** Text wider than the screen is emitted unchanged, without padding. */
  lemma CenterOverflow(text: string, width: int)
    requires |text| > width
    ensures Center(text, width) == text
  {
    var line := Center(text, width);
    assert Max(Half(width) - |text| / 2, 0) == 0;
    assert line == line[0..];
  }

  /** JoinString's fold: every element followed by `join`. */
  function JoinAfterEach(items: seq<string>, join: string): (s: string)
  {
    if items == [] then "" else JoinAfterEach(items[..|items| - 1], join) + items[|items| - 1] + join
  }

  /** JoinString as written: the trimming Substring's result is discarded, so
      the trailing separator stays; the call itself still throws when the
      length it computes is negative, which happens for one empty element. */
  function JoinString(items: seq<string>, join: string): (r: Result<string>)
    ensures r.Err? <==> items == [""] && join != ""
    ensures r.Ok? && |items| >= 1 ==> r.value == Join(items, join) + join
    ensures items == [] ==> r == Ok("")
  {
    var output := JoinAfterEach(items, join);
    assert |items| >= 1 ==> output == Join(items, join) + join by {
      if |items| >= 1 { JoinStringKeepsTrailingSeparator(items, join); }
    }
    assert |items| >= 2 ==> |Join(items, join)| >= |join|;
    if |output| > 0 && |output| - 1 - |join| < 0 then Err(SubstringOutOfRange) else Ok(output)
  }

  lemma {:induction false} JoinAppend(items: seq<string>, last: string, sep: string)
    requires |items| >= 1
    ensures Join(items + [last], sep) == Join(items, sep) + sep + last
  {
    if |items| == 1 {
      assert (items + [last])[1..] == [last];
    } else {
      assert (items + [last])[1..] == items[1..] + [last];
      JoinAppend(items[1..], last, sep);
    }
  }

  /** Whenever JoinString returns, its result is the separated join with one
      extra separator at the end. */
  lemma {:induction false} JoinStringKeepsTrailingSeparator(items: seq<string>, join: string)
    requires |items| >= 1
    ensures JoinAfterEach(items, join) == Join(items, join) + join
  {
    var init := items[..|items| - 1];
    if |init| == 0 {
      assert items == [items[0]];
    } else {
      JoinStringKeepsTrailingSeparator(init, join);
      JoinAppend(init, items[|items| - 1], join);
      assert init + [items[|items| - 1]] == items;
    }
  }

  /** JoinString as evidently intended: the fold, with the one trailing
      separator cut off again, is the separated join of the elements. */
  function TrimmedJoinString(items: seq<string>, join: string): (r: string)
    ensures items == [] ==> r == ""
    ensures |items| >= 1 ==> r == Join(items, join)
  {
    var output := JoinAfterEach(items, join);
    if items == [] then output
    else
      JoinStringKeepsTrailingSeparator(items, join);
      output[..|output| - |join|]
  }

  /** Inputs that show the discrepancy: a trailing comma stays; the length
      the trimming call computes would have cut one character too many had its
      result been kept; and a single empty element with a non-empty separator
      throws. */
  lemma JoinStringCounterexamples()
    ensures JoinString(["a", "b"], ",") == Ok("a,b,")
    ensures Join(["a", "b"], ",") == "a,b"
    ensures var output := JoinAfterEach(["a", "b"], ","); output[..|output| - 1 - 1] == "a,"
    ensures JoinString([""], ",") == Err(SubstringOutOfRange)
  {
    assert ["a", "b"][..1] == ["a"];
    assert ["a"][..0] == [];
    assert JoinAfterEach(["a"], ",") == "a,";
    assert JoinAfterEach(["a", "b"], ",") == "a," + "b" + ",";
    assert "a," + "b" + "," == "a,b,";
  }
}
