/** The font helpers of src/utils/font_ext.rs: the advance of a character
    (its glyph width plus the character spacing), the width of a string and
    the measurement of how much of a line fits in a given width. */
module FontExt {
  import opened Widths

  /** The metrics of a bitmap font: the width of each glyph, the gap drawn
      after every character and the height of a row of text. */
  datatype Font = Font(charWidth: char -> nat, characterSpacing: nat, characterHeight: nat)
  {
    /** `total_char_width`: the horizontal space one character takes. */
    function TotalCharWidth(c: char): nat {
      charWidth(c) + characterSpacing
    }

    /** `TotalCharWidth` as a function value, for `TextWidth`. */
    function Advance(): char -> nat {
      c => TotalCharWidth(c)
    }
  }

  /** `str_width`: the sum of the advances of the characters of `s`. */
  function StrWidth(f: Font, s: string): nat {
    TextWidth(f.Advance(), s)
  }

  /** A string is as wide as its characters' advances together, at least
      one character spacing per character. */
  lemma {:induction false} StrWidthIsSum(f: Font, a: string, b: string)
    ensures StrWidth(f, a + b) == StrWidth(f, a) + StrWidth(f, b)
    ensures |a| == 1 ==> StrWidth(f, a) == f.charWidth(a[0]) + f.characterSpacing
    ensures StrWidth(f, a) >= |a| * f.characterSpacing
    decreases |a|
  {
    TextWidthAppend(f.Advance(), a, b);
    if a != [] {
      var c := a[|a| - 1];
      StrWidthIsSum(f, a[..|a| - 1], [c]);
      assert StrWidth(f, a) == StrWidth(f, a[..|a| - 1]) + f.TotalCharWidth(c);
      assert |a| * f.characterSpacing == (|a| - 1) * f.characterSpacing + f.characterSpacing;
    }
  }

  /** In a font whose characters all advance by `w`, a string of `n`
      characters is `n * w` wide. */
  lemma {:induction false} MonospaceStrWidth(f: Font, w: nat, s: string)
    requires forall c: char :: f.TotalCharWidth(c) == w
    ensures StrWidth(f, s) == |s| * w
    decreases |s|
  {
    if s != [] {
      MonospaceStrWidth(f, w, s[..|s| - 1]);
      assert StrWidth(f, s) == StrWidth(f, s[..|s| - 1]) + f.TotalCharWidth(s[|s| - 1]);
      assert |s| * w == (|s| - 1) * w + w;
    }
  }

  /** The result of `measure_line`: the width of the characters that fit
      and whether all of them did. */
  datatype LineMeasurement = LineMeasurement(width: nat, fitsLine: bool)

  /** The measurement of an empty line. */
  const EMPTY_MEASUREMENT: LineMeasurement := LineMeasurement(0, true)

  /** What `measure_line` computes: the width of the longest prefix of
      `line` that fits in `maxWidth`, and whether that prefix is the whole
      line. */
  function Measured(f: Font, line: string, maxWidth: nat): (m: LineMeasurement)
    ensures m.width <= maxWidth
    ensures m.fitsLine <==> StrWidth(f, line) <= maxWidth
    ensures m.fitsLine ==> m.width == StrWidth(f, line)
    ensures !m.fitsLine ==> exists k :: 0 <= k < |line| && m.width == StrWidth(f, line[..k]) && StrWidth(f, line[..k + 1]) > maxWidth
  {
    var k := FittingPrefixLen(f.Advance(), line, maxWidth);
    assert line[..|line|] == line;
    if k < |line| then
      PrefixWidthMonotone(f.Advance(), line, k + 1, |line|);
      LineMeasurement(StrWidth(f, line[..k]), false)
    else
      LineMeasurement(StrWidth(f, line), true)
  }

  /** In any font and any width, an empty line measures as
      `LineMeasurement::empty`: no width, and everything fits. */
  lemma EmptyLineMeasurement(f: Font, maxWidth: nat)
    ensures Measured(f, "", maxWidth) == EMPTY_MEASUREMENT
  {
  }

  /** `measure_line`: adds up the advances of the characters until one no
      longer fits. */
  method MeasureLine(f: Font, line: string, maxWidth: nat) returns (m: LineMeasurement)
    ensures m == Measured(f, line, maxWidth)
  {
    var totalWidth := 0;
    var i := 0;
    while i < |line|
      invariant i <= |line|
      invariant totalWidth == StrWidth(f, line[..i]) <= maxWidth
    {
      var c := line[i];
      var newWidth := totalWidth + f.TotalCharWidth(c);
      assert line[..i + 1] == line[..i] + [c];
      StrWidthIsSum(f, line[..i], [c]);
      if newWidth > maxWidth {
        FittingPrefixUnique(f.Advance(), line, maxWidth, i);
        return LineMeasurement(totalWidth, false);
      }
      totalWidth := newWidth;
      i := i + 1;
    }
    assert line[..i] == line;
    FittingPrefixUnique(f.Advance(), line, maxWidth, i);
    m := LineMeasurement(totalWidth, true);
  }

  /** The 6x8 pixel font of embedded-graphics: every glyph is 6 pixels
      wide with no extra spacing, and rows are 8 pixels high. */
  const FONT_6X8: Font := Font(_ => 6, 0, 8)

  lemma Font6x8Advance()
    ensures forall c: char :: FONT_6X8.TotalCharWidth(c) == 6
  {
  }

  /** A line measured in the 6x8 font: `k` characters fit when `k` cells of
      6 pixels fit in `maxWidth` and one more cell would not. */
  lemma Font6x8Measured(line: string, maxWidth: nat, k: nat)
    requires k <= |line| && 6 * k <= maxWidth && (k < |line| ==> 6 * (k + 1) > maxWidth)
    ensures Measured(FONT_6X8, line, maxWidth) == LineMeasurement(6 * k, k == |line|)
  {
    Font6x8Advance();
    assert line[..|line|] == line;
    MonospaceStrWidth(FONT_6X8, 6, line[..k]);
    if k < |line| {
      MonospaceStrWidth(FONT_6X8, 6, line[..k + 1]);
    }
    FittingPrefixUnique(FONT_6X8.Advance(), line, maxWidth, k);
  }

  /** The measurements of the 6x8 font listed in src/utils/font_ext.rs: an
      empty line fits with width 0; a nine-letter word fits exactly in 54
      pixels; an eighteen-letter word is cut after nine letters in 54 and
      in 55 pixels. */
  lemma Font6x8Examples()
    ensures Measured(FONT_6X8, "", 54) == EMPTY_MEASUREMENT
    ensures Measured(FONT_6X8, "somereall", 54) == LineMeasurement(54, true)
    ensures Measured(FONT_6X8, "somereallylongword", 54) == LineMeasurement(54, false)
    ensures Measured(FONT_6X8, "somereallylongword", 55) == LineMeasurement(54, false)
  {
    Font6x8Measured("", 54, 0);
    Font6x8Measured("somereall", 54, 9);
    Font6x8Measured("somereallylongword", 54, 9);
    Font6x8Measured("somereallylongword", 55, 9);
  }
}
