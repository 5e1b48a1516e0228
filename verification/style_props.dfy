/** Properties of the text measurement of src/style/mod.rs: how many rows
    a word opens, bounds on the rows of a line and of a text, and the
    heights of the measurement examples of that file. */
module StyleProps {
  import opened Wrappers
  import opened Widths
  import P = Parser
  import opened FontExt
  import opened Style

  // ---------------------------------------------------------------------
  // Words

  /** Each character of a word opens at most one row, and rows are never
      taken back. */
  lemma {:induction false} WordFromRows(f: Font, maxWidth: nat, st: RowState, wordWidth: nat, w: string)
    ensures st.rows <= WordFrom(f, maxWidth, st, wordWidth, w).0.rows <= st.rows + |w|
    decreases |w|
  {
    if w != [] {
      var r := WordCharStep(maxWidth, st, wordWidth, f.TotalCharWidth(w[0]));
      WordFromRows(f, maxWidth, r.0, r.1, w[1..]);
    }
  }

  /** The rest of a word opens no row exactly when it fits after the row's
      content and the word so far; it then adds its width to the word. */
  lemma {:induction false} WordFromFits(f: Font, maxWidth: nat, st: RowState, wordWidth: nat, w: string)
    requires w != [] || st.totalWidth + wordWidth <= maxWidth
    ensures WordFrom(f, maxWidth, st, wordWidth, w).0.rows == st.rows
        <==> st.totalWidth + wordWidth + StrWidth(f, w) <= maxWidth
    ensures st.totalWidth + wordWidth + StrWidth(f, w) <= maxWidth ==>
      WordFrom(f, maxWidth, st, wordWidth, w) == (st, wordWidth + StrWidth(f, w))
    decreases |w|
  {
    if w != [] {
      var c := w[0];
      assert w == [c] + w[1..];
      StrWidthIsSum(f, [c], w[1..]);
      var r := WordCharStep(maxWidth, st, wordWidth, f.TotalCharWidth(c));
      assert WordFrom(f, maxWidth, st, wordWidth, w) == WordFrom(f, maxWidth, r.0, r.1, w[1..]);
      if st.totalWidth + wordWidth + f.TotalCharWidth(c) <= maxWidth {
        WordFromFits(f, maxWidth, r.0, r.1, w[1..]);
      } else {
        WordFromRows(f, maxWidth, r.0, r.1, w[1..]);
        assert r.0.rows == st.rows + 1;
      }
    }
  }

  /** A word opens no row exactly when it fits in what is left of the row;
      it then takes its width from the row. (A word token is never empty;
      an empty one would open no row even on an overfull row.) */
  lemma WordOpensNoRowIffFits(f: Font, maxWidth: nat, st: RowState, w: string)
    requires w != [] || st.totalWidth <= maxWidth
    ensures WordRows(f, maxWidth, st, w).rows == st.rows <==> st.totalWidth + StrWidth(f, w) <= maxWidth
    ensures st.totalWidth + StrWidth(f, w) <= maxWidth ==>
      WordRows(f, maxWidth, st, w) == RowState(st.rows, st.totalWidth + StrWidth(f, w))
  {
    WordFromFits(f, maxWidth, st, 0, w);
  }

  /** A word read in two parts: the second part continues from the row and
      word width the first part left. */
  lemma {:induction false} WordFromAppend(f: Font, maxWidth: nat, st: RowState, wordWidth: nat, a: string, b: string)
    ensures var r := WordFrom(f, maxWidth, st, wordWidth, a);
      WordFrom(f, maxWidth, st, wordWidth, a + b) == WordFrom(f, maxWidth, r.0, r.1, b)
    decreases |a|
  {
    if a == [] {
      assert a + b == b;
    } else {
      assert (a + b)[0] == a[0] && (a + b)[1..] == a[1..] + b;
      var r := WordCharStep(maxWidth, st, wordWidth, f.TotalCharWidth(a[0]));
      WordFromAppend(f, maxWidth, r.0, r.1, a[1..], b);
    }
  }

  // ---------------------------------------------------------------------
  // Lines

  /** Each space opens at most one row. */
  lemma {:induction false} SpacesRowsBound(maxWidth: nat, width: nat, st: RowState, n: nat)
    ensures st.rows <= SpacesRows(maxWidth, width, st, n).rows <= st.rows + n
    decreases n
  {
    if n > 0 {
      SpacesRowsBound(maxWidth, width, SpaceStep(maxWidth, width, st), n - 1);
    }
  }

  /** The number of characters the tokens stand for. */
  function SpanSum(ts: seq<P.Token>): nat
    decreases |ts|
  {
    if ts == [] then 0 else P.Span(ts[0]) + SpanSum(ts[1..])
  }

  /** The tokens of a text stand for all of its characters. */
  lemma {:induction false} TokenizeSpan(s: string)
    ensures SpanSum(P.Tokenize(s)) == |s|
    decreases |s|
  {
    match P.Lex(s)
    case None =>
    case Some(l) =>
      TokenizeSpan(s[l.len..]);
      var ts := P.Tokenize(s);
      assert ts[0] == l.token && ts[1..] == P.Tokenize(s[l.len..]);
      assert P.Span(l.token) == l.len;
  }

  /** Tokens open at most one row per character they stand for. */
  lemma {:induction false} TokensRowsBound(f: Font, maxWidth: nat, st: RowState, ts: seq<P.Token>)
    ensures st.rows <= TokensRows(f, maxWidth, st, ts).rows <= st.rows + SpanSum(ts)
    decreases |ts|
  {
    if ts != [] {
      var next := TokenRows(f, maxWidth, st, ts[0]);
      match ts[0] {
        case Word(w) => WordFromRows(f, maxWidth, st, 0, w);
        case Whitespace(n) => SpacesRowsBound(maxWidth, f.TotalCharWidth(' '), st, n);
        case NewLine =>
        case CarriageReturn =>
      }
      TokensRowsBound(f, maxWidth, next, ts[1..]);
    }
  }

  /** Every line takes at least one row, and at most one more than it has
      characters. */
  lemma LineRowsBounds(f: Font, maxWidth: nat, line: string)
    ensures 1 <= LineRows(f, maxWidth, line) <= 1 + |line|
  {
    TokensRowsBound(f, maxWidth, RowState(1, 0), P.Tokenize(line));
    TokenizeSpan(line);
  }

  /** A line that is a single word takes one row exactly when the word fits
      in the width. */
  lemma SingleWordRows(f: Font, maxWidth: nat, w: string)
    requires w != [] && forall k :: 0 <= k < |w| ==> P.IsWordChar(w[k])
    ensures LineRows(f, maxWidth, w) == 1 <==> StrWidth(f, w) <= maxWidth
  {
    P.WordOnlyText(w);
    WordOpensNoRowIffFits(f, maxWidth, RowState(1, 0), w);
    var ts := [P.Word(w)];
    assert ts[1..] == [];
    assert TokensRows(f, maxWidth, RowState(1, 0), ts) == WordRows(f, maxWidth, RowState(1, 0), w);
  }

  // ---------------------------------------------------------------------
  // Texts

  lemma {:induction false} RowsOfBounds(f: Font, maxWidth: nat, lines: seq<string>)
    ensures |lines| <= RowsOf(f, maxWidth, lines) <= |lines| + TotalLength(lines)
    decreases |lines|
  {
    if lines != [] {
      LineRowsBounds(f, maxWidth, lines[0]);
      RowsOfBounds(f, maxWidth, lines[1..]);
    }
  }

  /** A text takes at least one row per line and at most one more row per
      character; an empty text takes none. */
  lemma TextRowsBounds(f: Font, text: string, maxWidth: nat)
    ensures |Lines(text)| <= TextRows(f, text, maxWidth) <= |Lines(text)| + |text|
    ensures text == [] ==> TextRows(f, text, maxWidth) == 0
  {
    RowsOfBounds(f, maxWidth, Lines(text));
    LinesArePieces(text);
  }

  // ---------------------------------------------------------------------
  // The examples of src/style/mod.rs, in the 6x8 font

  /** A text of word characters without a line break is one line. */
  lemma OneWordLine(w: string)
    requires w != [] && forall k :: 0 <= k < |w| ==> P.IsWordChar(w[k]) && w[k] != '\n'
    ensures Lines(w) == [w]
  {
    assert IndexOfChar(w, '\n').None?;
  }

  lemma WordIsWordChars()
    ensures forall k :: 0 <= k < |"word"| ==> P.IsWordChar("word"[k]) && "word"[k] != '\n'
    ensures forall k :: 0 <= k < |"next"| ==> P.IsWordChar("next"[k]) && "next"[k] != '\n'
  {
    assert "word" == ['w', 'o', 'r', 'd'];
    assert "next" == ['n', 'e', 'x', 't'];
  }

  /** "word" is 24 pixels wide in the 6x8 font. */
  lemma WordWidth()
    ensures StrWidth(FONT_6X8, "word") == 24 && StrWidth(FONT_6X8, "next") == 24
  {
    Font6x8Advance();
    MonospaceStrWidth(FONT_6X8, 6, "word");
    MonospaceStrWidth(FONT_6X8, 6, "next");
  }

  /** "word" takes one row in 24 pixels and two in 23 or in 12 pixels. */
  lemma WordRowsExamples()
    ensures TextRows(FONT_6X8, "word", 24) == 1
    ensures TextRows(FONT_6X8, "word", 23) == 2
    ensures TextRows(FONT_6X8, "word", 12) == 2
  {
    WordIsWordChars();
    OneWordLine("word");
    P.WordOnlyText("word");
    WordWidth();
    SingleWordRows(FONT_6X8, 24, "word");
    Font6x8Advance();
    var w := "word";
    assert w[1..] == "ord" && w[1..][1..] == "rd" && w[1..][1..][1..] == "d" && w[1..][1..][1..][1..] == [];
    // in 23 pixels the 'd' is broken off the word that began the row
    assert WordFrom(FONT_6X8, 23, RowState(1, 0), 0, w) == (RowState(2, 0), 6);
    // in 12 pixels the 'r' is broken off, and the 'd' joins it
    assert WordFrom(FONT_6X8, 12, RowState(1, 0), 0, w) == (RowState(2, 0), 12);
  }

  /** A word holds no line ending. */
  lemma NoLineEndInWord(w: string)
    requires WordText(w)
    ensures '\n' !in w && '\r' !in w
  {
    forall k | 0 <= k < |w| ensures w[k] != '\n' && w[k] != '\r' {
      P.WordCharIsNotSpace(w[k]);
    }
  }

  /** Two pieces without line endings joined by '\n' are two lines. */
  lemma LinesOfTwo(a: string, b: string)
    requires b != [] && '\n' !in a && '\r' !in a && '\n' !in b
    ensures Lines(a + "\n" + b) == [a, b]
  {
    var s := a + "\n" + b;
    assert s[..|a|] == a && s[|a|] == '\n' && s[|a| + 1..] == b;
    IndexOfCharFirst(s, '\n', |a|);
    LinesSplit(s, |a|);
    assert a == [] || a[|a| - 1] != '\r';
    assert StripCr(a) == a;
    assert IndexOfChar(b, '\n').None?;
  }

  /** A line that is one word takes the rows of that word. */
  lemma WordLineRows(f: Font, w: string, maxWidth: nat)
    requires WordText(w)
    ensures LineRows(f, maxWidth, w) == WordRows(f, maxWidth, RowState(1, 0), w).rows
  {
    P.WordOnlyText(w);
    TokensRowsOne(f, maxWidth, RowState(1, 0), [P.Word(w)]);
  }

  /** Two words on lines of their own take the rows each takes alone. */
  lemma TwoOneWordLines(f: Font, a: string, b: string, maxWidth: nat)
    requires WordText(a) && WordText(b)
    ensures TextRows(f, a + "\n" + b, maxWidth)
         == WordRows(f, maxWidth, RowState(1, 0), a).rows + WordRows(f, maxWidth, RowState(1, 0), b).rows
  {
    NoLineEndInWord(a);
    NoLineEndInWord(b);
    LinesOfTwo(a, b);
    WordLineRows(f, a, maxWidth);
    WordLineRows(f, b, maxWidth);
    assert [a, b][1..] == [b];
    assert RowsOf(f, maxWidth, [b]) == LineRows(f, maxWidth, b) + RowsOf(f, maxWidth, []);
  }

  /** "word\nnext" is two lines of one word each, two rows in 50 pixels. */
  lemma TwoLinesExample()
    ensures TextRows(FONT_6X8, "word\nnext", 50) == 2
  {
    WordIsWordChars();
    assert "word\nnext" == "word" + "\n" + "next";
    TwoOneWordLines(FONT_6X8, "word", "next", 50);
    Font6x8WordToken(50, RowState(1, 0), "word");
    Font6x8WordToken(50, RowState(1, 0), "next");
  }

  /** In the 6x8 font, characters that fit join the word, 6 pixels each. */
  lemma Font6x8Fits(maxWidth: nat, st: RowState, wordWidth: nat, a: string)
    requires st.totalWidth + wordWidth + 6 * |a| <= maxWidth
    ensures WordFrom(FONT_6X8, maxWidth, st, wordWidth, a) == (st, wordWidth + 6 * |a|)
  {
    Font6x8Advance();
    MonospaceStrWidth(FONT_6X8, 6, a);
    WordFromFits(FONT_6X8, maxWidth, st, wordWidth, a);
  }

  /** In the 6x8 font, a character that does not fit opens a row. */
  lemma Font6x8Overflow(maxWidth: nat, st: RowState, wordWidth: nat, c: char)
    requires st.totalWidth + wordWidth + 6 > maxWidth
    ensures WordFrom(FONT_6X8, maxWidth, st, wordWidth, [c])
         == (RowState(st.rows + 1, 0), if st.totalWidth == 0 then 6 else wordWidth + 6)
  {
    Font6x8Advance();
    assert [c][1..] == [];
  }

  /** A word token in the 6x8 font that fits on its row. */
  lemma Font6x8WordToken(maxWidth: nat, st: RowState, w: string)
    requires st.totalWidth + 6 * |w| <= maxWidth
    ensures TokenRows(FONT_6X8, maxWidth, st, P.Word(w)) == RowState(st.rows, st.totalWidth + 6 * |w|)
  {
    Font6x8Fits(maxWidth, st, 0, w);
  }

  /** A one-space token in the 6x8 font that fits on its row. */
  lemma Font6x8SpaceToken(maxWidth: nat, st: RowState)
    requires st.totalWidth + 6 <= maxWidth
    ensures TokenRows(FONT_6X8, maxWidth, st, P.Whitespace(1)) == RowState(st.rows, st.totalWidth + 6)
  {
    Font6x8Space(maxWidth, st);
  }

  /** A word token in the 6x8 font after a full row: it moves to the next. */
  lemma Font6x8WordAfterFullRowToken(maxWidth: nat, st: RowState, w: string)
    requires w != [] && 0 < st.totalWidth && st.totalWidth + 6 > maxWidth && 6 * |w| <= maxWidth
    ensures TokenRows(FONT_6X8, maxWidth, st, P.Word(w)) == RowState(st.rows + 1, 6 * |w|)
  {
    assert w == [w[0]] + w[1..];
    Font6x8WordAfterFullRow(maxWidth, st, w[0], w[1..]);
  }

  /** Tokens read one at a time: the first, then the others. */
  lemma TokensRowsFirst(f: Font, maxWidth: nat, st: RowState, ts: seq<P.Token>)
    requires ts != []
    ensures TokensRows(f, maxWidth, st, ts) == TokensRows(f, maxWidth, TokenRows(f, maxWidth, st, ts[0]), ts[1..])
  {
  }

  lemma TokensRowsOne(f: Font, maxWidth: nat, st: RowState, ts: seq<P.Token>)
    requires |ts| == 1
    ensures TokensRows(f, maxWidth, st, ts) == TokenRows(f, maxWidth, st, ts[0])
  {
    assert ts[1..] == [];
  }

  lemma TokensRowsThree(f: Font, maxWidth: nat, st: RowState, ts: seq<P.Token>)
    requires |ts| == 3
    ensures var st1 := TokenRows(f, maxWidth, st, ts[0]);
      var st2 := TokenRows(f, maxWidth, st1, ts[1]);
      TokensRows(f, maxWidth, st, ts) == TokenRows(f, maxWidth, st2, ts[2])
  {
    var st1 := TokenRows(f, maxWidth, st, ts[0]);
    var st2 := TokenRows(f, maxWidth, st1, ts[1]);
    TokensRowsFirst(f, maxWidth, st, ts);
    TokensRowsFirst(f, maxWidth, st1, ts[1..]);
    assert ts[1..][1..] == ts[2..];
    TokensRowsOne(f, maxWidth, st2, ts[2..]);
  }

  lemma TokensRowsFour(f: Font, maxWidth: nat, st: RowState, ts: seq<P.Token>)
    requires |ts| >= 4
    ensures var st1 := TokenRows(f, maxWidth, st, ts[0]);
      var st2 := TokenRows(f, maxWidth, st1, ts[1]);
      var st3 := TokenRows(f, maxWidth, st2, ts[2]);
      var st4 := TokenRows(f, maxWidth, st3, ts[3]);
      TokensRows(f, maxWidth, st, ts) == TokensRows(f, maxWidth, st4, ts[4..])
  {
    var st1 := TokenRows(f, maxWidth, st, ts[0]);
    var st2 := TokenRows(f, maxWidth, st1, ts[1]);
    var st3 := TokenRows(f, maxWidth, st2, ts[2]);
    TokensRowsFirst(f, maxWidth, st, ts);
    assert ts[1..][1..] == ts[2..] && ts[2..][1..] == ts[3..] && ts[3..][1..] == ts[4..];
    TokensRowsFirst(f, maxWidth, st1, ts[1..]);
    TokensRowsFirst(f, maxWidth, st2, ts[2..]);
    TokensRowsFirst(f, maxWidth, st3, ts[3..]);
  }

  /** A twelve-character word such as "verylongword" on an empty row of 50
      pixels: eight characters fill the row and the word is broken before
      the ninth. */
  lemma VeryLongWordRows(w: string)
    requires |w| == 12
    ensures WordRows(FONT_6X8, 50, RowState(1, 0), w) == RowState(2, 24)
  {
    var a, c, rest := w[..8], w[8], w[9..];
    assert w == (a + [c]) + rest;
    WordFromAppend(FONT_6X8, 50, RowState(1, 0), 0, a + [c], rest);
    WordFromAppend(FONT_6X8, 50, RowState(1, 0), 0, a, [c]);
    Font6x8Fits(50, RowState(1, 0), 0, a);
    Font6x8Overflow(50, RowState(1, 0), 48, c);
    Font6x8Fits(50, RowState(2, 0), 6, rest);
  }

  /** The same word after 30 pixels of a row of 50 (after "some "): it is
      wrapped before its fourth character with the first three carried
      along, then broken before its ninth. */
  lemma WrappedVeryLongWordRows(w: string)
    requires |w| == 12
    ensures WordRows(FONT_6X8, 50, RowState(1, 30), w) == RowState(3, 24)
  {
    var a, c, b, d, rest := w[..3], w[3], w[4..8], w[8], w[9..];
    assert w == (((a + [c]) + b) + [d]) + rest;
    WordFromAppend(FONT_6X8, 50, RowState(1, 30), 0, ((a + [c]) + b) + [d], rest);
    WordFromAppend(FONT_6X8, 50, RowState(1, 30), 0, (a + [c]) + b, [d]);
    WordFromAppend(FONT_6X8, 50, RowState(1, 30), 0, a + [c], b);
    WordFromAppend(FONT_6X8, 50, RowState(1, 30), 0, a, [c]);
    Font6x8Fits(50, RowState(1, 30), 0, a);
    Font6x8Overflow(50, RowState(1, 30), 18, c);
    Font6x8Fits(50, RowState(2, 0), 24, b);
    Font6x8Overflow(50, RowState(2, 0), 48, d);
    Font6x8Fits(50, RowState(3, 0), 6, rest);
  }

  lemma VeryLongWordIsWordChars()
    ensures forall k :: 0 <= k < |"verylongword"| ==> P.IsWordChar("verylongword"[k]) && "verylongword"[k] != '\n'
    ensures forall k :: 0 <= k < |"some"| ==> P.IsWordChar("some"[k])
  {
    assert "verylongword" == ['v', 'e', 'r', 'y', 'l', 'o', 'n', 'g', 'w', 'o', 'r', 'd'];
    assert "some" == ['s', 'o', 'm', 'e'];
  }

  /** A text without a line break is one line. */
  lemma OneLineRows(f: Font, s: string, maxWidth: nat)
    requires s != [] && '\n' !in s
    ensures TextRows(f, s, maxWidth) == TokensRows(f, maxWidth, RowState(1, 0), P.Tokenize(s)).rows
  {
    assert IndexOfChar(s, '\n').None?;
    assert Lines(s) == [s];
    assert [s][1..] == [];
    assert RowsOf(f, maxWidth, [s]) == LineRows(f, maxWidth, s) + RowsOf(f, maxWidth, []);
  }

  /** A line that is one word takes the rows the word takes from an empty
      row. */
  lemma OneWordLineRows(f: Font, w: string, maxWidth: nat)
    requires w != [] && forall k :: 0 <= k < |w| ==> P.IsWordChar(w[k]) && w[k] != '\n'
    ensures TextRows(f, w, maxWidth) == WordRows(f, maxWidth, RowState(1, 0), w).rows
  {
    OneLineRows(f, w, maxWidth);
    P.WordOnlyText(w);
    assert [P.Word(w)][1..] == [];
  }

  /** "verylongword" is two rows in 50 pixels. */
  lemma VeryLongWordExample()
    ensures TextRows(FONT_6X8, "verylongword", 50) == 2
  {
    VeryLongWordIsWordChars();
    OneWordLineRows(FONT_6X8, "verylongword", 50);
    VeryLongWordRows("verylongword");
  }

  const SOME_WORDS: seq<string> := ["some", "verylongword"]

  lemma SomeJoined()
    ensures JoinSpaced(SOME_WORDS) == "some verylongword"
  {
    assert SOME_WORDS[1..] == ["verylongword"];
  }

  /** The tokens of "some verylongword". */
  lemma SomeVeryLongWordTokens()
    ensures P.Tokenize(JoinSpaced(SOME_WORDS)) == [P.Word("some"), P.Whitespace(1), P.Word("verylongword")]
  {
    VeryLongWordIsWordChars();
    assert WordText(SOME_WORDS[0]) && WordText(SOME_WORDS[1]);
    SpacedWordsTokens(SOME_WORDS);
    assert SOME_WORDS[1..] == ["verylongword"];
  }

  /** A four-character word, a space and a twelve-character word ("some
      verylongword") take three rows in 50 pixels. */
  lemma SomeVeryLongWordRows(a: string, b: string)
    requires |a| == 4 && |b| == 12
    ensures TokensRows(FONT_6X8, 50, RowState(1, 0), [P.Word(a), P.Whitespace(1), P.Word(b)]) == RowState(3, 24)
  {
    var ts := [P.Word(a), P.Whitespace(1), P.Word(b)];
    Font6x8WordToken(50, RowState(1, 0), a);
    Font6x8SpaceToken(50, RowState(1, 24));
    WrappedVeryLongWordRows(b);
    TokensRowsThree(FONT_6X8, 50, RowState(1, 0), ts);
  }

  /** "some verylongword" is three rows in 50 pixels. */
  lemma SomeVeryLongWordExample()
    ensures TextRows(FONT_6X8, "some verylongword", 50) == 3
  {
    var s := JoinSpaced(SOME_WORDS);
    SomeJoined();
    assert '\n' !in s by {
      assert s == ['s', 'o', 'm', 'e', ' ', 'v', 'e', 'r', 'y', 'l', 'o', 'n', 'g', 'w', 'o', 'r', 'd'];
    }
    OneLineRows(FONT_6X8, s, 50);
    SomeVeryLongWordTokens();
    SomeVeryLongWordRows("some", "verylongword");
  }

  /** Tokens read in two parts: the second part continues from the count
      the first part left. */
  lemma {:induction false} TokensRowsAppend(f: Font, maxWidth: nat, st: RowState, a: seq<P.Token>, b: seq<P.Token>)
    ensures TokensRows(f, maxWidth, st, a + b) == TokensRows(f, maxWidth, TokensRows(f, maxWidth, st, a), b)
    decreases |a|
  {
    if a == [] {
      assert a + b == b;
    } else {
      assert (a + b)[0] == a[0] && (a + b)[1..] == a[1..] + b;
      TokensRowsAppend(f, maxWidth, TokenRows(f, maxWidth, st, a[0]), a[1..], b);
    }
  }

  /** One space before a word is read as a whitespace token of one space
      and the tokens of the word's text. */
  lemma SpaceThenWordTokens(rest: string)
    requires rest != [] && P.IsWordChar(rest[0])
    ensures P.Tokenize(" " + rest) == [P.Whitespace(1)] + P.Tokenize(rest)
  {
    P.SpaceIsSpaceChar();
    P.WordCharIsNotSpace(rest[0]);
    P.TokenizeSpacesFirst(" ", rest);
  }

  /** A word followed by one space and more text is read as the word, a
      whitespace token of one space, and the tokens of the rest. */
  lemma WordThenSpaceTokens(a: string, rest: string)
    requires a != [] && forall k :: 0 <= k < |a| ==> P.IsWordChar(a[k])
    requires rest != [] && P.IsWordChar(rest[0])
    ensures P.Tokenize(a + (" " + rest)) == [P.Word(a)] + ([P.Whitespace(1)] + P.Tokenize(rest))
  {
    P.SpaceIsSpaceChar();
    assert (" " + rest)[0] == ' ';
    P.TokenizeWordFirst(a, " " + rest);
    SpaceThenWordTokens(rest);
  }

  /** Digits are word characters. */
  lemma DigitsAreWordChars(s: string)
    requires s != [] && forall k :: 0 <= k < |s| ==> '0' <= s[k] <= '9'
    ensures WordText(s)
  {
  }

  /** A non-empty text of word characters. */
  predicate WordText(w: string) {
    w != [] && forall k :: 0 <= k < |w| ==> P.IsWordChar(w[k])
  }

  /** Words joined by single spaces. */
  function JoinSpaced(ws: seq<string>): string
    decreases |ws|
  {
    if ws == [] then [] else if |ws| == 1 then ws[0] else ws[0] + (" " + JoinSpaced(ws[1..]))
  }

  /** The tokens of words joined by single spaces. */
  function SpacedTokens(ws: seq<string>): seq<P.Token>
    decreases |ws|
  {
    if ws == [] then [] else if |ws| == 1 then [P.Word(ws[0])]
    else [P.Word(ws[0])] + ([P.Whitespace(1)] + SpacedTokens(ws[1..]))
  }

  /** Words joined by single spaces are read back as those words with a
      one-space whitespace token between each two. */
  lemma {:induction false} SpacedWordsTokens(ws: seq<string>)
    requires forall i :: 0 <= i < |ws| ==> WordText(ws[i])
    ensures P.Tokenize(JoinSpaced(ws)) == SpacedTokens(ws)
    ensures ws != [] ==> WordText(ws[0]) && JoinSpaced(ws) != [] && JoinSpaced(ws)[0] == ws[0][0]
    decreases |ws|
  {
    if |ws| == 1 {
      P.WordOnlyText(ws[0]);
    } else if |ws| > 1 {
      SpacedWordsTokens(ws[1..]);
      assert WordText(ws[0]) && WordText(ws[1]);
      WordThenSpaceTokens(ws[0], JoinSpaced(ws[1..]));
    }
  }

  /** The words of "1 23456 12345 61234 561" are numbers. */
  lemma DigitWords()
    ensures forall i :: 0 <= i < |DIGIT_WORDS| ==> WordText(DIGIT_WORDS[i])
  {
    assert "1" == ['1'];
    assert "23456" == ['2', '3', '4', '5', '6'];
    assert "12345" == ['1', '2', '3', '4', '5'];
    assert "61234" == ['6', '1', '2', '3', '4'];
    assert "561" == ['5', '6', '1'];
    DigitsAreWordChars("1");
    DigitsAreWordChars("23456");
    DigitsAreWordChars("12345");
    DigitsAreWordChars("61234");
    DigitsAreWordChars("561");
  }

  const DIGIT_WORDS: seq<string> := ["1", "23456", "12345", "61234", "561"]

  lemma DigitsJoined()
    ensures JoinSpaced(DIGIT_WORDS) == "1 23456 12345 61234 561"
  {
    var ws := DIGIT_WORDS;
    assert ws[1..][1..][1..][1..] == ["561"];
  }

  /** The tokens of "1 23456 12345 61234 561": five words with one space
      between each two. */
  lemma DigitTokens()
    ensures SpacedTokens(DIGIT_WORDS)
         == [P.Word("1"), P.Whitespace(1), P.Word("23456"), P.Whitespace(1), P.Word("12345"),
             P.Whitespace(1), P.Word("61234"), P.Whitespace(1), P.Word("561")]
  {
    var ws := DIGIT_WORDS;
    assert ws[1..][1..][1..][1..] == ["561"];
  }

  /** A word in the 6x8 font that starts on a full row: its first character
      opens a row and carries the (empty) word there, and the rest fits. */
  lemma Font6x8WordAfterFullRow(maxWidth: nat, st: RowState, c: char, rest: string)
    requires 0 < st.totalWidth && st.totalWidth + 6 > maxWidth
    requires 6 + 6 * |rest| <= maxWidth
    ensures WordRows(FONT_6X8, maxWidth, st, [c] + rest) == RowState(st.rows + 1, 6 + 6 * |rest|)
  {
    WordFromAppend(FONT_6X8, maxWidth, st, 0, [c], rest);
    Font6x8Overflow(maxWidth, st, 0, c);
    Font6x8Fits(maxWidth, RowState(st.rows + 1, 0), 6, rest);
  }

  /** One space in the 6x8 font that fits on the row. */
  lemma Font6x8Space(maxWidth: nat, st: RowState)
    requires st.totalWidth + 6 <= maxWidth
    ensures SpacesRows(maxWidth, FONT_6X8.TotalCharWidth(' '), st, 1) == RowState(st.rows, st.totalWidth + 6)
  {
    Font6x8Advance();
  }

  /** A one-character word, a space, a five-character word and a space
      ("1 23456 ") in 36 pixels: the second word is wrapped with its first
      four characters carried along, and the space after it fills the
      second row. */
  lemma DigitsFirstRows(a: string, b: string)
    requires |a| == 1 && |b| == 5
    ensures TokensRows(FONT_6X8, 36, RowState(1, 0),
      [P.Word(a), P.Whitespace(1), P.Word(b), P.Whitespace(1)]) == RowState(2, 36)
  {
    var ts := [P.Word(a), P.Whitespace(1), P.Word(b), P.Whitespace(1)];
    Font6x8WordToken(36, RowState(1, 0), a);
    Font6x8SpaceToken(36, RowState(1, 6));
    assert b == b[..4] + [b[4]];
    WordFromAppend(FONT_6X8, 36, RowState(1, 12), 0, b[..4], [b[4]]);
    Font6x8Fits(36, RowState(1, 12), 0, b[..4]);
    Font6x8Overflow(36, RowState(1, 12), 24, b[4]);
    assert TokenRows(FONT_6X8, 36, RowState(1, 12), ts[2]) == RowState(2, 30);
    Font6x8SpaceToken(36, RowState(2, 30));
    TokensRowsFour(FONT_6X8, 36, RowState(1, 0), ts);
  }

  /** Words of five, five and three characters with a space between each
      two ("12345 61234 561"), after a full row of 36 pixels: each word
      moves to a row of its own. */
  lemma DigitsLastRows(a: string, b: string, c: string, rows: nat)
    requires |a| == 5 && |b| == 5 && |c| == 3
    ensures TokensRows(FONT_6X8, 36, RowState(rows, 36),
      [P.Word(a), P.Whitespace(1), P.Word(b), P.Whitespace(1), P.Word(c)]) == RowState(rows + 3, 18)
  {
    var ts := [P.Word(a), P.Whitespace(1), P.Word(b), P.Whitespace(1), P.Word(c)];
    Font6x8WordAfterFullRowToken(36, RowState(rows, 36), a);
    Font6x8SpaceToken(36, RowState(rows + 1, 30));
    Font6x8WordAfterFullRowToken(36, RowState(rows + 1, 36), b);
    Font6x8SpaceToken(36, RowState(rows + 2, 30));
    Font6x8WordAfterFullRowToken(36, RowState(rows + 2, 36), c);
    TokensRowsOne(FONT_6X8, 36, RowState(rows + 2, 36), ts[4..]);
    TokensRowsFour(FONT_6X8, 36, RowState(rows, 36), ts);
  }

  /** The tokens of "1 23456 12345 61234 561" take five rows in 36 pixels. */
  lemma DigitsRows()
    ensures TokensRows(FONT_6X8, 36, RowState(1, 0), SpacedTokens(DIGIT_WORDS)).rows == 5
  {
    DigitTokens();
    var a := [P.Word("1"), P.Whitespace(1), P.Word("23456"), P.Whitespace(1)];
    var b := [P.Word("12345"), P.Whitespace(1), P.Word("61234"), P.Whitespace(1), P.Word("561")];
    assert SpacedTokens(DIGIT_WORDS) == a + b;
    TokensRowsAppend(FONT_6X8, 36, RowState(1, 0), a, b);
    DigitsFirstRows("1", "23456");
    DigitsLastRows("12345", "61234", "561", 2);
  }

  /** "1 23456 12345 61234 561" is five rows in 36 pixels. */
  lemma DigitsExample()
    ensures TextRows(FONT_6X8, "1 23456 12345 61234 561", 36) == 5
  {
    var s := JoinSpaced(DIGIT_WORDS);
    DigitsJoined();
    assert '\n' !in s by {
      assert s == ['1', ' ', '2', '3', '4', '5', '6', ' ', '1', '2', '3', '4', '5', ' ',
                   '6', '1', '2', '3', '4', ' ', '5', '6', '1'];
    }
    OneLineRows(FONT_6X8, s, 36);
    DigitWords();
    SpacedWordsTokens(DIGIT_WORDS);
    DigitsRows();
  }

  /** The measurement examples of src/style/mod.rs: an empty text is 0
      pixels high; "word" is one 8-pixel row in 24 pixels and two rows in
      23 or 12; in 50 pixels "word\nnext" and "verylongword" are two rows
      and "some verylongword" three; "1 23456 12345 61234 561" is five rows
      in 36 pixels. */
  lemma MeasureTextExamples()
    ensures TextRows(FONT_6X8, "", 0) * FONT_6X8.characterHeight == 0
    ensures TextRows(FONT_6X8, "word", 24) * FONT_6X8.characterHeight == 8
    ensures TextRows(FONT_6X8, "word", 23) * FONT_6X8.characterHeight == 16
    ensures TextRows(FONT_6X8, "word", 12) * FONT_6X8.characterHeight == 16
    ensures TextRows(FONT_6X8, "word\nnext", 50) * FONT_6X8.characterHeight == 16
    ensures TextRows(FONT_6X8, "verylongword", 50) * FONT_6X8.characterHeight == 16
    ensures TextRows(FONT_6X8, "some verylongword", 50) * FONT_6X8.characterHeight == 24
    ensures TextRows(FONT_6X8, "1 23456 12345 61234 561", 36) * FONT_6X8.characterHeight == 40
  {
    WordRowsExamples();
    TwoLinesExample();
    VeryLongWordExample();
    SomeVeryLongWordExample();
    DigitsExample();
  }
}
