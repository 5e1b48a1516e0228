/** `TextBoxStyle::measure_text` of src/style/mod.rs: the height a text
    takes when it is wrapped to a given width. Every line of the text (as
    Rust's `str::lines` cuts it) starts with one row; its tokens open more
    rows as characters and spaces overflow the width, and the height is the
    number of rows times the font's row height. */
module Style {
  import opened Wrappers
  import opened Widths
  import P = Parser
  import opened FontExt

  // ---------------------------------------------------------------------
  // Lines

  /** The position of the first `c` in `s`. */
  function IndexOfChar(s: string, c: char): (r: Option<nat>)
    ensures r.Some? ==> r.value < |s| && s[r.value] == c && c !in s[..r.value]
    ensures r.None? ==> c !in s
    decreases |s|
  {
    if s == [] then None
    else if s[0] == c then Some(0)
    else match IndexOfChar(s[1..], c)
      case None => None
      case Some(i) =>
        assert s[..i + 1] == [s[0]] + s[1..][..i];
        Some(i + 1)
  }

  /** `IndexOfChar` finds the first occurrence. */
  lemma {:induction false} IndexOfCharFirst(s: string, c: char, i: nat)
    requires i < |s| && s[i] == c && c !in s[..i]
    ensures IndexOfChar(s, c) == Some(i)
    decreases i
  {
    if i > 0 {
      assert s[..i] == [s[0]] + s[1..][..i - 1];
      IndexOfCharFirst(s[1..], c, i - 1);
    }
  }

  /** A line cut at a "\r\n" ending loses its '\r'. */
  function StripCr(line: string): (r: string)
    ensures r == line || (line == r + "\r")
  {
    if line != [] && line[|line| - 1] == '\r' then line[..|line| - 1] else line
  }

  /** Rust's `str::lines`: the pieces of `s` between '\n' characters, with
      the '\r' of a "\r\n" ending removed and no empty piece after a final
      '\n'. */
  function Lines(s: string): seq<string>
    decreases |s|
  {
    if s == [] then []
    else match IndexOfChar(s, '\n')
      case None => [s]
      case Some(i) => [StripCr(s[..i])] + Lines(s[i + 1..])
  }

  /** The number of characters of all the lines together. */
  function TotalLength(lines: seq<string>): nat
    decreases |lines|
  {
    if lines == [] then 0 else |lines[0]| + TotalLength(lines[1..])
  }

  /** The first line of a text with a '\n' ends before it, and the other
      lines are those of the text after it. */
  lemma LinesSplit(s: string, i: nat)
    requires IndexOfChar(s, '\n') == Some(i)
    ensures Lines(s) == [StripCr(s[..i])] + Lines(s[i + 1..])
  {
  }

  /** `lines` yields one line per '\n', and one more for text after the
      last '\n'. */
  lemma {:induction false} LinesCount(s: string)
    ensures |Lines(s)| == multiset(s)['\n'] + (if s != [] && s[|s| - 1] != '\n' then 1 else 0)
    decreases |s|
  {
    if s != [] {
      match IndexOfChar(s, '\n')
      case None =>
        assert '\n' !in multiset(s);
      case Some(i) =>
        var rest := s[i + 1..];
        LinesCount(rest);
        LinesSplit(s, i);
        NewlinesAfterFirst(s, i);
        if rest != [] {
          assert s[|s| - 1] == rest[|rest| - 1];
        }
    }
  }

  /** The text after the first '\n' holds all the other '\n's. */
  lemma NewlinesAfterFirst(s: string, i: nat)
    requires IndexOfChar(s, '\n') == Some(i)
    ensures multiset(s)['\n'] == 1 + multiset(s[i + 1..])['\n']
  {
    var before, rest := s[..i], s[i + 1..];
    assert s == before + [s[i]] + rest;
    assert multiset(s) == multiset(before) + multiset([s[i]]) + multiset(rest);
    assert '\n' !in multiset(before);
  }

  /** No line holds a '\n', and the lines together hold no more characters
      than the text. */
  lemma {:induction false} LinesArePieces(s: string)
    ensures forall k :: 0 <= k < |Lines(s)| ==> '\n' !in Lines(s)[k]
    ensures TotalLength(Lines(s)) <= |s|
    decreases |s|
  {
    if s != [] {
      match IndexOfChar(s, '\n')
      case None =>
      case Some(i) =>
        var rest := s[i + 1..];
        LinesArePieces(rest);
        LinesSplit(s, i);
        var ls := Lines(s);
        assert ls[1..] == Lines(rest);
        assert TotalLength(ls) == |ls[0]| + TotalLength(Lines(rest));
        assert forall k :: 1 <= k < |ls| ==> ls[k] == Lines(rest)[k - 1];
        assert '\n' !in ls[0] by {
          assert ls[0] == s[..i] || s[..i] == ls[0] + "\r";
          if s[..i] == ls[0] + "\r" {
            assert forall m :: 0 <= m < |ls[0]| ==> ls[0][m] == s[..i][m];
          }
        }
    }
  }

  // ---------------------------------------------------------------------
  // Rows of one line

  /** The count kept while a line is measured: the rows opened so far and
      the width taken on the last of them. */
  datatype RowState = RowState(rows: nat, totalWidth: nat)

  /** One character of `width` pixels of a word whose characters so far
      take `wordWidth` pixels: it joins the word if it fits after the row's
      content; otherwise a row opens, starting with this character when the
      word began the row (the word is broken) and with the whole word so
      far when the row had other content (the word is wrapped). */
  function WordCharStep(maxWidth: nat, st: RowState, wordWidth: nat, width: nat): (RowState, nat) {
    if st.totalWidth + wordWidth + width <= maxWidth then (st, wordWidth + width)
    else if st.totalWidth == 0 then (RowState(st.rows + 1, 0), width)
    else (RowState(st.rows + 1, 0), wordWidth + width)
  }

  /** The characters of `w` taken one by one with `WordCharStep`. */
  function WordFrom(f: Font, maxWidth: nat, st: RowState, wordWidth: nat, w: string): (RowState, nat)
    decreases |w|
  {
    if w == [] then (st, wordWidth)
    else
      var r := WordCharStep(maxWidth, st, wordWidth, f.TotalCharWidth(w[0]));
      WordFrom(f, maxWidth, r.0, r.1, w[1..])
  }

  /** A word token: its characters, then its width added to the row. */
  function WordRows(f: Font, maxWidth: nat, st: RowState, w: string): RowState {
    var r := WordFrom(f, maxWidth, st, 0, w);
    RowState(r.0.rows, r.0.totalWidth + r.1)
  }

  /** One space of `width` pixels: it joins the row if it fits, otherwise
      it opens a row of its own. */
  function SpaceStep(maxWidth: nat, width: nat, st: RowState): RowState {
    if st.totalWidth + width <= maxWidth then st.(totalWidth := st.totalWidth + width)
    else RowState(st.rows + 1, width)
  }

  /** A whitespace token of `n` spaces. */
  function SpacesRows(maxWidth: nat, width: nat, st: RowState, n: nat): RowState
    decreases n
  {
    if n == 0 then st else SpacesRows(maxWidth, width, SpaceStep(maxWidth, width, st), n - 1)
  }

  /** One token of a line. Every space character of a whitespace run is
      measured as wide as ' '. A line holds no '\n'; a '\r' that is not part
      of a line ending is passed over like a newline. */
  function TokenRows(f: Font, maxWidth: nat, st: RowState, t: P.Token): RowState {
    match t
    case Word(w) => WordRows(f, maxWidth, st, w)
    case Whitespace(n) => SpacesRows(maxWidth, f.TotalCharWidth(' '), st, n)
    case NewLine => st
    case CarriageReturn => st
  }

  /** The tokens `ts` taken in order. */
  function TokensRows(f: Font, maxWidth: nat, st: RowState, ts: seq<P.Token>): RowState
    decreases |ts|
  {
    if ts == [] then st else TokensRows(f, maxWidth, TokenRows(f, maxWidth, st, ts[0]), ts[1..])
  }

  /** The rows one line takes: one to start with, plus those its tokens open. */
  function LineRows(f: Font, maxWidth: nat, line: string): nat {
    TokensRows(f, maxWidth, RowState(1, 0), P.Tokenize(line)).rows
  }

  /** The rows of all `lines`. */
  function RowsOf(f: Font, maxWidth: nat, lines: seq<string>): nat
    decreases |lines|
  {
    if lines == [] then 0 else LineRows(f, maxWidth, lines[0]) + RowsOf(f, maxWidth, lines[1..])
  }

  /** The rows of a text: the rows of its lines together. */
  function TextRows(f: Font, text: string, maxWidth: nat): nat {
    RowsOf(f, maxWidth, Lines(text))
  }

  // ---------------------------------------------------------------------
  // The measurement, as the source computes it

  /** The characters of a word token, one by one, then the word's width
      added to the row. */
  method CountWordRows(f: Font, maxWidth: nat, rows: nat, totalWidth: nat, w: string)
    returns (currentRows: nat, newWidth: nat)
    ensures RowState(currentRows, newWidth) == WordRows(f, maxWidth, RowState(rows, totalWidth), w)
  {
    currentRows := rows;
    var total: nat := totalWidth;
    var wordWidth: nat := 0;
    var i := 0;
    while i < |w|
      invariant i <= |w|
      invariant WordFrom(f, maxWidth, RowState(currentRows, total), wordWidth, w[i..])
             == WordFrom(f, maxWidth, RowState(rows, totalWidth), 0, w)
    {
      assert w[i..][1..] == w[i + 1..];
      var width := f.TotalCharWidth(w[i]);
      if total + wordWidth + width <= maxWidth {
        // the character fits and joins the word
        wordWidth := wordWidth + width;
      } else {
        // the character does not fit: a row opens
        currentRows := currentRows + 1;
        if total == 0 {
          // a word that began the row is broken here
          wordWidth := width;
          total := 0;
        } else {
          // a word after other content is wrapped whole
          wordWidth := wordWidth + width;
          total := 0;
        }
      }
      i := i + 1;
    }
    newWidth := total + wordWidth;
  }

  /** The `n` spaces of a whitespace token, each as wide as ' '. */
  method CountSpaceRows(f: Font, maxWidth: nat, rows: nat, totalWidth: nat, n: nat)
    returns (currentRows: nat, newWidth: nat)
    ensures RowState(currentRows, newWidth) == SpacesRows(maxWidth, f.TotalCharWidth(' '), RowState(rows, totalWidth), n)
  {
    var width := f.TotalCharWidth(' ');
    currentRows, newWidth := rows, totalWidth;
    var j := 0;
    while j < n
      invariant j <= n
      invariant SpacesRows(maxWidth, width, RowState(currentRows, newWidth), n - j)
             == SpacesRows(maxWidth, width, RowState(rows, totalWidth), n)
    {
      if newWidth + width <= maxWidth {
        newWidth := newWidth + width;
      } else {
        currentRows := currentRows + 1;
        newWidth := width;
      }
      j := j + 1;
    }
  }

  /** The row count of one line (the closure `measure_text` maps over the
      lines), read token by token from a parser. */
  method LineRowCount(f: Font, line: string, maxWidth: nat) returns (currentRows: nat)
    ensures currentRows == LineRows(f, maxWidth, line)
  {
    currentRows := 1;
    var totalWidth: nat := 0;
    var parser := new P.Parser.Parse(line);
    while true
      invariant TokensRows(f, maxWidth, RowState(currentRows, totalWidth), P.Tokenize(parser.rest)).rows
             == LineRows(f, maxWidth, line)
      decreases parser.Remaining()
    {
      ghost var before := parser.rest;
      var token := parser.Next();
      if token.None? {
        break;
      }
      assert P.Tokenize(before) == [token.value] + P.Tokenize(parser.rest);
      match token.value {
        case Word(w) =>
          currentRows, totalWidth := CountWordRows(f, maxWidth, currentRows, totalWidth, w);
        case Whitespace(n) =>
          currentRows, totalWidth := CountSpaceRows(f, maxWidth, currentRows, totalWidth, n);
        case NewLine =>
        case CarriageReturn =>
      }
    }
  }

  /** `measure_text`: the rows of all lines of `text`, times the font's row
      height. */
  method MeasureText(f: Font, text: string, maxWidth: nat) returns (height: nat)
    ensures height == TextRows(f, text, maxWidth) * f.characterHeight
  {
    var lines := Lines(text);
    var lineCount := 0;
    var i := 0;
    while i < |lines|
      invariant i <= |lines|
      invariant lineCount + RowsOf(f, maxWidth, lines[i..]) == RowsOf(f, maxWidth, lines)
    {
      assert lines[i..][1..] == lines[i + 1..];
      var rows := LineRowCount(f, lines[i], maxWidth);
      lineCount := lineCount + rows;
      i := i + 1;
    }
    height := lineCount * f.characterHeight;
  }
}
