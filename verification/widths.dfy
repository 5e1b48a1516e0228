/** Text widths for a font without kerning: a text is as wide as the sum
    of its characters' widths. Shared by the line layout of
    src/rendering/line_iter.rs and the measurements of src/utils/font_ext.rs. */
module Widths {
  /** The width of a text in pixels: the sum of its characters' widths
      (`ElementHandler::measure` for a font without kerning). */
  function TextWidth(cw: char -> nat, s: string): nat
    decreases |s|
  {
    if s == [] then 0 else TextWidth(cw, s[..|s| - 1]) + cw(s[|s| - 1])
  }

  lemma {:induction false} TextWidthAppend(cw: char -> nat, a: string, b: string)
    ensures TextWidth(cw, a + b) == TextWidth(cw, a) + TextWidth(cw, b)
    decreases |b|
  {
    if b == [] {
      assert a + b == a;
    } else {
      TextWidthAppend(cw, a, b[..|b| - 1]);
      assert (a + b)[..|a + b| - 1] == a + b[..|b| - 1];
      assert (a + b)[|a + b| - 1] == b[|b| - 1];
    }
  }

  lemma TextWidthSingle(cw: char -> nat, c: char)
    ensures TextWidth(cw, [c]) == cw(c)
  {
    assert [c][..0] == [];
  }

  /** The length of the longest prefix of `w` that fits in `space` pixels,
      searched from `i` on. */
  function FitFrom(cw: char -> nat, w: string, space: nat, i: nat): (k: nat)
    requires i <= |w| && TextWidth(cw, w[..i]) <= space
    ensures i <= k <= |w|
    ensures TextWidth(cw, w[..k]) <= space
    ensures k < |w| ==> TextWidth(cw, w[..k + 1]) > space
    decreases |w| - i
  {
    if i == |w| || TextWidth(cw, w[..i + 1]) > space then i else FitFrom(cw, w, space, i + 1)
  }

  /** The length of the longest prefix of `w` that fits in `space` pixels. */
  function FittingPrefixLen(cw: char -> nat, w: string, space: nat): (k: nat)
    ensures k <= |w|
    ensures TextWidth(cw, w[..k]) <= space
    ensures k < |w| ==> TextWidth(cw, w[..k + 1]) > space
  {
    assert w[..0] == [];
    FitFrom(cw, w, space, 0)
  }

  /** `TextWidth` grows with the prefix taken. */
  lemma PrefixWidthMonotone(cw: char -> nat, w: string, i: nat, j: nat)
    requires i <= j <= |w|
    ensures TextWidth(cw, w[..i]) <= TextWidth(cw, w[..j])
  {
    TextWidthAppend(cw, w[..i], w[i..j]);
    assert w[..i] + w[i..j] == w[..j];
  }

  /** The prefix `longest_fitting_substr` keeps is the longest that fits. */
  lemma FittingPrefixIsLongest(cw: char -> nat, w: string, space: nat, j: nat)
    requires j <= |w| && TextWidth(cw, w[..j]) <= space
    ensures j <= FittingPrefixLen(cw, w, space)
  {
    var k := FittingPrefixLen(cw, w, space);
    if j > k {
      PrefixWidthMonotone(cw, w, k + 1, j);
    }
  }

  /** The longest fitting prefix is the only length `k` whose prefix fits
      while one more character does not. */
  lemma FittingPrefixUnique(cw: char -> nat, w: string, space: nat, k: nat)
    requires k <= |w| && TextWidth(cw, w[..k]) <= space
    requires k < |w| ==> TextWidth(cw, w[..k + 1]) > space
    ensures FittingPrefixLen(cw, w, space) == k
  {
    var f := FittingPrefixLen(cw, w, space);
    FittingPrefixIsLongest(cw, w, space, k);
    if f > k {
      PrefixWidthMonotone(cw, w, k + 1, f);
    }
  }
}
