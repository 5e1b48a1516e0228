/** The unit tests of src/rendering/line_iter.rs, proved on the model. The
    tests lay out lines in a 6x9 font, where every glyph is 6 pixels wide,
    on lines `n` characters wide, with tabs of four spaces and
    left-aligned text; each line of a test starts on what the previous
    line left. Each test is proved first for any words of the lengths it
    uses, then for its own text. */
module LineIterExamples {
  import opened Wrappers
  import opened Widths
  import T = TextTokens
  import P = Parser
  import opened LineIter
  import opened LineIterProps

  /** The glyph widths of the tests' font. */
  const MONO6: char -> nat := _ => 6

  /** The space configuration of the tests: spaces 6 pixels wide, no
      justification budget. */
  const TEST_SPACES: SpaceConfig := SpaceConfig(6, None)

  lemma {:induction false} Mono6Width(s: string)
    ensures TextWidth(MONO6, s) == 6 * |s|
    decreases |s|
  {
    if s != [] {
      Mono6Width(s[..|s| - 1]);
    }
  }

  /** A line `chars` characters wide with tab stops every four characters. */
  function TestCursor(chars: nat): (c: LineCursor)
    ensures c.Valid() && c.position == 0 && c.width == 6 * chars
  {
    LineCursor(0, 6 * chars, 24)
  }

  /** The state in which a test lays out a line of `text`. */
  function LineStart(text: string, chars: nat): (st: LineState)
    ensures st.cursor.Valid() && st.empty && st.events == [] && st.lookahead == text
  {
    LineState(text, text, TestCursor(chars), TEST_SPACES, true, [])
  }

  /** A word of ASCII letters, as the tests' words are. */
  predicate Letters(w: string) {
    w != [] && forall k :: 0 <= k < |w| ==> ('a' <= w[k] <= 'z') || ('A' <= w[k] <= 'Z')
  }

  // ---------------------------------------------------------------------
  // Tokens

  /** Letters followed by a tab, a newline, a space, a soft hyphen or
      nothing are read as one word. */
  lemma LettersLex(w: string, rest: string)
    requires Letters(w)
    requires rest == [] || rest[0] in {'\t', '\n', ' ', T.SOFT_HYPHEN}
    ensures T.Lex(w + rest) == Some(T.Lexeme(T.Word(w), |w|))
    ensures IndexOfNbsp(w) == None
  {
    var s := w + rest;
    forall k | 0 <= k < |w|
      ensures T.IsWordChar(w[k]) && w[k] != P.NBSP
    {
    }
    assert s[0] == w[0];
    var l := T.Lex(s).value;
    assert l.token.Word?;
    assert s[..|w|] == w;
  }

  /** The width of the word ahead, when a word of letters is followed by
      nothing or by a character that ends it without a soft hyphen. */
  lemma WordWidthAheadOfLetters(cw: char -> nat, w: string, rest: string)
    requires Letters(w)
    requires rest == [] || rest[0] in {'\t', '\n', ' '}
    ensures WordWidthAhead(cw, w + rest, None) == Some(TextWidth(cw, w))
  {
    LettersLex(w, rest);
    assert (w + rest)[|w|..] == rest;
  }

  lemma FitsAheadTab(cw: char -> nat, la: string, cursor: LineCursor, spaces: SpaceConfig)
    requires cursor.Valid() && la != [] && la[0] == '\t'
    ensures WordFitsAhead(cw, la, cursor, spaces)
      == (cursor.FitsInLine(cursor.NextTabWidth())
          && WordFitsAhead(cw, la[1..], cursor.(position := cursor.position + cursor.NextTabWidth()), spaces))
  {
  }

  lemma FitsAheadWord(cw: char -> nat, la: string, cursor: LineCursor, spaces: SpaceConfig, w: string)
    requires cursor.Valid() && T.Lex(la).Some? && T.Lex(la).value.token == T.Word(w)
    ensures WordFitsAhead(cw, la, cursor, spaces) == cursor.FitsInLine(TextWidth(cw, w))
  {
  }

  // ---------------------------------------------------------------------
  // Steps

  /** A step that continues the line leads to the same end of line. */
  lemma Continues(cw: char -> nat, a: HorizontalAlignment, st: LineState, next: LineState)
    requires st.cursor.Valid() && Step(cw, a, st) == Continue(next)
    ensures Processed(cw, a, st) == Processed(cw, a, next)
  {
  }

  /** A word with no non-breaking space that fits is printed. */
  lemma WordFitsStep(cw: char -> nat, a: HorizontalAlignment, st: LineState, w: string, rest: string)
    requires st.cursor.Valid() && st.lookahead == w + rest
    requires T.Lex(w + rest) == Some(T.Lexeme(T.Word(w), |w|)) && IndexOfNbsp(w) == None
    requires st.cursor.FitsInLine(TextWidth(cw, w))
    ensures var width := TextWidth(cw, w);
      Step(cw, a, st) == Continue(LineState(w + rest, rest,
        st.cursor.(position := st.cursor.position + width), st.spaces, false,
        st.events + [PrintedCharacters(w, width)]))
  {
    assert (w + rest)[|w|..] == rest;
    var width := TextWidth(cw, w);
    var st' := st.(parser := w + rest, lookahead := rest);
    assert Step(cw, a, st) == TokenStep(cw, a, st', T.Word(w));
    var cur := st.cursor.(position := st.cursor.position + width);
    assert st.cursor.MoveCursor(width) == Ok(width, cur);
    assert TokenStep(cw, a, st', T.Word(w)) == WordStep(cw, st', w);
    WordPrintedWhole(cw, st.spaces, w);
    var printed := PrintWord(cw, st'.(cursor := cur, empty := false), w);
    assert WordStep(cw, st', w) == Continue(printed);
    assert printed == LineState(w + rest, rest, cur, st.spaces, false, st.events + [PrintedCharacters(w, width)]);
  }

  /** A tab that fits on a line with content is drawn as whitespace when
      the word after it fits too, and is a plain cursor move otherwise. */
  lemma TabStep(cw: char -> nat, a: HorizontalAlignment, st: LineState, rest: string, draw: bool)
    requires st.cursor.Valid() && !st.empty && st.lookahead == ['\t'] + rest
    requires st.cursor.FitsInLine(st.cursor.NextTabWidth())
    requires draw == WordFitsAhead(cw, st.lookahead, st.cursor, st.spaces)
    ensures var tw := st.cursor.NextTabWidth();
      Step(cw, a, st) == Continue(LineState(st.lookahead, rest,
        st.cursor.(position := st.cursor.position + tw), st.spaces, false,
        st.events + [if draw then Whitespace(1, tw) else MoveCursor(tw)]))
  {
    assert st.lookahead[1..] == rest;
    var st' := st.(parser := st.lookahead, lookahead := rest);
    assert Step(cw, a, st) == TokenStep(cw, a, st', T.Tab);
  }

  /** A word that fits, then the end of the line at a newline. */
  lemma WordThenNewLine(cw: char -> nat, a: HorizontalAlignment, st: LineState, w: string, rest: string)
    requires st.cursor.Valid() && Letters(w) && st.lookahead == w + (['\n'] + rest)
    requires st.cursor.FitsInLine(TextWidth(cw, w))
    ensures var width := TextWidth(cw, w);
      Processed(cw, a, st) == (LineState(rest, rest,
        st.cursor.(position := st.cursor.position + width), st.spaces, false,
        st.events + [PrintedCharacters(w, width)]), NewLine)
  {
    var width := TextWidth(cw, w);
    var next := LineState(w + (['\n'] + rest), ['\n'] + rest,
      st.cursor.(position := st.cursor.position + width), st.spaces, false,
      st.events + [PrintedCharacters(w, width)]);
    assert (['\n'] + rest)[1..] == rest;
    LettersLex(w, ['\n'] + rest);
    WordFitsStep(cw, a, st, w, ['\n'] + rest);
    Continues(cw, a, st, next);
    LineEnds(cw, a, next);
  }

  /** A word that fits, then the end of the text. */
  lemma WordThenEnd(cw: char -> nat, a: HorizontalAlignment, st: LineState, w: string)
    requires st.cursor.Valid() && Letters(w) && st.lookahead == w
    requires st.cursor.FitsInLine(TextWidth(cw, w))
    ensures var width := TextWidth(cw, w);
      Processed(cw, a, st) == (LineState([], [],
        st.cursor.(position := st.cursor.position + width), st.spaces, false,
        st.events + [PrintedCharacters(w, width)]), EndOfText)
  {
    var width := TextWidth(cw, w);
    var next := LineState(w, [],
      st.cursor.(position := st.cursor.position + width), st.spaces, false,
      st.events + [PrintedCharacters(w, width)]);
    assert Step(cw, a, st) == Continue(next) by {
      LettersLex(w, []);
      assert w + [] == w;
      WordFitsStep(cw, a, st, w, []);
    }
    Continues(cw, a, st, next);
    LineEnds(cw, a, next);
  }

  // ---------------------------------------------------------------------
  // `tabs`

  /** The tab of the first line of `tabs`, at position 6 of 96, before a
      word of four letters: it is drawn to the first tab stop. */
  lemma TabsFirstLineTab(la1: string, w: string, rest: string, events: seq<Event>)
    requires Letters(w) && |w| == 4
    ensures var st := LineState(la1, ['\t'] + (w + (['\n'] + rest)), LineCursor(6, 96, 24), TEST_SPACES, false, events);
      Processed(MONO6, Left, st)
      == (LineState(rest, rest, LineCursor(48, 96, 24), TEST_SPACES, false,
            events + [Whitespace(1, 18)] + [PrintedCharacters(w, 24)]), NewLine)
  {
    var la2 := w + (['\n'] + rest);
    var st := LineState(la1, ['\t'] + la2, LineCursor(6, 96, 24), TEST_SPACES, false, events);
    var s2 := LineState(['\t'] + la2, la2, LineCursor(24, 96, 24), TEST_SPACES, false, events + [Whitespace(1, 18)]);
    assert Step(MONO6, Left, st) == Continue(s2) by {
      Mono6Width(w);
      LettersLex(w, ['\n'] + rest);
      FitsAheadTab(MONO6, ['\t'] + la2, st.cursor, TEST_SPACES);
      assert (['\t'] + la2)[1..] == la2;
      FitsAheadWord(MONO6, la2, LineCursor(24, 96, 24), TEST_SPACES, w);
      TabStep(MONO6, Left, st, la2, true);
    }
    Continues(MONO6, Left, st, s2);
    Mono6Width(w);
    WordThenNewLine(MONO6, Left, s2, w, rest);
  }

  /** The first line of `tabs`: a one-letter word, a tab and a four-letter
      word, on a line of 16 characters. The tab reaches the first tab stop
      and is drawn, since the word after it fits. */
  lemma TabsFirstLine(a: string, w: string, rest: string)
    requires Letters(a) && |a| == 1 && Letters(w) && |w| == 4
    ensures Processed(MONO6, Left, LineStart(a + (['\t'] + (w + (['\n'] + rest))), 16))
      == (LineState(rest, rest, LineCursor(48, 96, 24), TEST_SPACES, false,
            [PrintedCharacters(a, 6), Whitespace(1, 18), PrintedCharacters(w, 24)]), NewLine)
  {
    var la1 := ['\t'] + (w + (['\n'] + rest));
    var e1 := [PrintedCharacters(a, 6)];
    assert e1 + [Whitespace(1, 18)] + [PrintedCharacters(w, 24)]
      == [PrintedCharacters(a, 6), Whitespace(1, 18), PrintedCharacters(w, 24)];
    assert [] + e1 == e1;
    Mono6Width(a);
    LettersLex(a, la1);
    var s0 := LineStart(a + la1, 16);
    var s1 := LineState(a + la1, la1, LineCursor(6, 96, 24), TEST_SPACES, false, e1);
    WordFitsStep(MONO6, Left, s0, a, la1);
    Continues(MONO6, Left, s0, s1);
    TabsFirstLineTab(a + la1, w, rest, e1);
  }

  /** The last tab of `tabs`, at position 90 of 96 with nothing after it:
      it fits, but only moves the cursor, and the text ends. */
  lemma TabsLastTab(la: string, events: seq<Event>)
    ensures var st := LineState(la, ['\t'], LineCursor(90, 96, 24), TEST_SPACES, false, events);
      Processed(MONO6, Left, st)
      == (LineState([], [], LineCursor(96, 96, 24), TEST_SPACES, false, events + [MoveCursor(6)]), EndOfText)
  {
    var st := LineState(la, ['\t'], LineCursor(90, 96, 24), TEST_SPACES, false, events);
    var next := LineState(['\t'], [], LineCursor(96, 96, 24), TEST_SPACES, false, events + [MoveCursor(6)]);
    assert Step(MONO6, Left, st) == Continue(next) by {
      FitsAheadTab(MONO6, ['\t'], st.cursor, TEST_SPACES);
      assert ['\t'][1..] == [];
      assert ['\t'] == ['\t'] + [];
      TabStep(MONO6, Left, st, [], false);
    }
    Continues(MONO6, Left, st, next);
    LineEnds(MONO6, Left, next);
  }

  /** The seven-letter word of the second line of `tabs`, at position 48. */
  lemma TabsLastWord(la: string, y: string, events: seq<Event>)
    requires Letters(y) && |y| == 7
    ensures var st := LineState(la, y + ['\t'], LineCursor(48, 96, 24), TEST_SPACES, false, events);
      Processed(MONO6, Left, st)
      == (LineState([], [], LineCursor(96, 96, 24), TEST_SPACES, false,
            events + [PrintedCharacters(y, 42)] + [MoveCursor(6)]), EndOfText)
  {
    var st := LineState(la, y + ['\t'], LineCursor(48, 96, 24), TEST_SPACES, false, events);
    var next := LineState(y + ['\t'], ['\t'], LineCursor(90, 96, 24), TEST_SPACES, false, events + [PrintedCharacters(y, 42)]);
    assert Step(MONO6, Left, st) == Continue(next) by {
      Mono6Width(y);
      LettersLex(y, ['\t']);
      WordFitsStep(MONO6, Left, st, y, ['\t']);
    }
    Continues(MONO6, Left, st, next);
    TabsLastTab(y + ['\t'], events + [PrintedCharacters(y, 42)]);
  }

  /** The word after the tabs of the second line of `tabs` fits from
      position 24 on, across the second tab. */
  lemma TabsWordFitsAfterTab(y: string)
    requires Letters(y) && |y| == 7
    ensures WordFitsAhead(MONO6, ['\t'] + (y + ['\t']), LineCursor(24, 96, 24), TEST_SPACES)
  {
    Mono6Width(y);
    LettersLex(y, ['\t']);
    FitsAheadTab(MONO6, ['\t'] + (y + ['\t']), LineCursor(24, 96, 24), TEST_SPACES);
    assert (['\t'] + (y + ['\t']))[1..] == y + ['\t'];
    FitsAheadWord(MONO6, y + ['\t'], LineCursor(48, 96, 24), TEST_SPACES, y);
  }

  /** The second tab of the second line of `tabs`, at position 24. */
  lemma TabsSecondTab(la: string, y: string, events: seq<Event>)
    requires Letters(y) && |y| == 7
    ensures var st := LineState(la, ['\t'] + (y + ['\t']), LineCursor(24, 96, 24), TEST_SPACES, false, events);
      Processed(MONO6, Left, st)
      == (LineState([], [], LineCursor(96, 96, 24), TEST_SPACES, false,
            events + [Whitespace(1, 24)] + [PrintedCharacters(y, 42)] + [MoveCursor(6)]), EndOfText)
  {
    var la3 := y + ['\t'];
    var st := LineState(la, ['\t'] + la3, LineCursor(24, 96, 24), TEST_SPACES, false, events);
    var next := LineState(['\t'] + la3, la3, LineCursor(48, 96, 24), TEST_SPACES, false, events + [Whitespace(1, 24)]);
    assert Step(MONO6, Left, st) == Continue(next) by {
      TabsWordFitsAfterTab(y);
      TabStep(MONO6, Left, st, la3, true);
    }
    Continues(MONO6, Left, st, next);
    TabsLastWord(['\t'] + la3, y, events + [Whitespace(1, 24)]);
  }

  /** The first tab of the second line of `tabs`, at position 18: the
      following tab and word fit, so it is drawn. */
  lemma TabsFirstTab(la: string, y: string, events: seq<Event>)
    requires Letters(y) && |y| == 7
    ensures var st := LineState(la, ['\t'] + (['\t'] + (y + ['\t'])), LineCursor(18, 96, 24), TEST_SPACES, false, events);
      Processed(MONO6, Left, st)
      == (LineState([], [], LineCursor(96, 96, 24), TEST_SPACES, false,
            events + [Whitespace(1, 6)] + [Whitespace(1, 24)] + [PrintedCharacters(y, 42)] + [MoveCursor(6)]), EndOfText)
  {
    var la2 := ['\t'] + (y + ['\t']);
    assert (['\t'] + la2)[1..] == la2;
    Mono6Width(y);
    LettersLex(y, ['\t']);
    var st := LineState(la, ['\t'] + la2, LineCursor(18, 96, 24), TEST_SPACES, false, events);
    var next := LineState(['\t'] + la2, la2, LineCursor(24, 96, 24), TEST_SPACES, false, events + [Whitespace(1, 6)]);
    assert Step(MONO6, Left, st) == Continue(next) by {
      TabsWordFitsAfterTab(y);
      FitsAheadTab(MONO6, ['\t'] + la2, st.cursor, TEST_SPACES);
      TabStep(MONO6, Left, st, la2, true);
    }
    Continues(MONO6, Left, st, next);
    TabsSecondTab(['\t'] + la2, y, events + [Whitespace(1, 6)]);
  }

  /** The second line of `tabs`: a three-letter word, two tabs, a
      seven-letter word and a final tab. Both inner tabs are drawn; the last
      one only moves the cursor, as no word follows it. */
  lemma TabsSecondLine(x: string, y: string)
    requires Letters(x) && |x| == 3 && Letters(y) && |y| == 7
    ensures Processed(MONO6, Left, LineStart(x + (['\t'] + (['\t'] + (y + ['\t']))), 16))
      == (LineState([], [], LineCursor(96, 96, 24), TEST_SPACES, false,
            [PrintedCharacters(x, 18), Whitespace(1, 6), Whitespace(1, 24), PrintedCharacters(y, 42), MoveCursor(6)]), EndOfText)
  {
    var la1 := ['\t'] + (['\t'] + (y + ['\t']));
    var e1 := [PrintedCharacters(x, 18)];
    assert e1 + [Whitespace(1, 6)] + [Whitespace(1, 24)] + [PrintedCharacters(y, 42)] + [MoveCursor(6)]
      == [PrintedCharacters(x, 18), Whitespace(1, 6), Whitespace(1, 24), PrintedCharacters(y, 42), MoveCursor(6)];
    assert [] + e1 == e1;
    Mono6Width(x);
    LettersLex(x, la1);
    var s0 := LineStart(x + la1, 16);
    var s1 := LineState(x + la1, la1, LineCursor(18, 96, 24), TEST_SPACES, false, e1);
    WordFitsStep(MONO6, Left, s0, x, la1);
    Continues(MONO6, Left, s0, s1);
    TabsFirstTab(x + la1, y, e1);
  }

  /** `tabs`, first line: "a\tword\nand\t\tanother\t" on lines of 16
      characters. */
  lemma TabsExampleFirstLine()
    ensures var first := Processed(MONO6, Left, LineStart("a\tword\nand\t\tanother\t", 16));
      && first.1 == NewLine
      && first.0.events == [PrintedCharacters("a", 6), Whitespace(1, 18), PrintedCharacters("word", 24)]
      && first.0.parser == "and\t\tanother\t"
  {
    assert "a\tword\nand\t\tanother\t" == "a" + (['\t'] + ("word" + (['\n'] + "and\t\tanother\t")));
    TabsFirstLine("a", "word", "and\t\tanother\t");
  }

  /** `tabs`, second line: what the first line leaves. */
  lemma TabsExampleSecondLine()
    ensures var second := Processed(MONO6, Left, LineStart("and\t\tanother\t", 16));
      && second.1 == EndOfText
      && second.0.events == [PrintedCharacters("and", 18), Whitespace(1, 6), Whitespace(1, 24),
                             PrintedCharacters("another", 42), MoveCursor(6)]
  {
    assert "and\t\tanother\t" == "and" + (['\t'] + (['\t'] + ("another" + ['\t'])));
    TabsSecondLine("and", "another");
  }

  // ---------------------------------------------------------------------
  // Soft hyphens

  /** A line that starts with a word of three letters, on a line of at
      least 3 characters, prints it and goes on after it. */
  lemma FirstWordOfThree(a: string, rest: string, chars: nat)
    requires Letters(a) && |a| == 3 && 3 <= chars
    requires rest == [] || rest[0] in {'\t', '\n', ' ', T.SOFT_HYPHEN}
    ensures Processed(MONO6, Left, LineStart(a + rest, chars))
      == Processed(MONO6, Left, LineState(a + rest, rest, LineCursor(18, 6 * chars, 24), TEST_SPACES, false, [PrintedCharacters(a, 18)]))
  {
    var e1 := [PrintedCharacters(a, 18)];
    assert [] + e1 == e1;
    Mono6Width(a);
    LettersLex(a, rest);
    var s0 := LineStart(a + rest, chars);
    WordFitsStep(MONO6, Left, s0, a, rest);
    Continues(MONO6, Left, s0, LineState(a + rest, rest, LineCursor(18, 6 * chars, 24), TEST_SPACES, false, e1));
  }

  /** The first line of `soft_hyphen` and of `soft_hyphen_wrapped`: a
      three-letter word on a line of `chars` characters, and a word after
      the soft hyphen that does not fit. The hyphen is drawn when it fits,
      and the line breaks at it. */
  lemma SoftHyphenFirstLine(a: string, b: string, chars: nat)
    requires Letters(a) && |a| == 3 && Letters(b)
    requires 3 <= chars < 3 + |b|
    ensures var r := Processed(MONO6, Left, LineStart(a + ([T.SOFT_HYPHEN] + b), chars));
      && r.1 == LineBreak
      && (if 4 <= chars then
            r.0.events == [PrintedCharacters(a, 18), PrintedCharacters(T.HYPHEN, 6)] && r.0.parser == b
          else
            r.0.events == [PrintedCharacters(a, 18)] && r.0.parser == [T.SOFT_HYPHEN] + b)
  {
    var la1 := [T.SOFT_HYPHEN] + b;
    var s1 := LineState(a + la1, la1, LineCursor(18, 6 * chars, 24), TEST_SPACES, false, [PrintedCharacters(a, 18)]);
    FirstWordOfThree(a, la1, chars);
    assert la1[1..] == b && b + [] == b;
    Mono6Width(b);
    Mono6Width(T.HYPHEN);
    WordWidthAheadOfLetters(MONO6, b, []);
    SoftHyphenBreaksLine(MONO6, Left, s1);
  }

  /** A soft hyphen at the start of a line, before a word: the hyphen is
      drawn when it fits, since the line is still empty, and the line goes
      on, still empty, at the word. */
  lemma HyphenOnEmptyLineStep(cw: char -> nat, a: HorizontalAlignment, st: LineState, b: string)
    requires st.cursor.Valid() && st.empty && st.lookahead == [T.SOFT_HYPHEN] + b
    requires WordWidthAhead(cw, b, None).Some? && st.cursor.FitsInLine(TextWidth(cw, T.HYPHEN))
    ensures var width := TextWidth(cw, T.HYPHEN);
      Step(cw, a, st) == Continue(st.(parser := b, lookahead := b,
        cursor := st.cursor.(position := st.cursor.position + width),
        events := st.events + [PrintedCharacters(T.HYPHEN, width)]))
  {
    assert st.lookahead[1..] == b;
    var st' := st.(parser := st.lookahead, lookahead := b);
    assert Step(cw, a, st) == BreakStep(cw, st', T.HYPHEN);
  }

  /** A line that starts at a soft hyphen, followed by a word of
      `|b| <= chars - 1` letters: the hyphen is drawn, since the line is
      still empty, and the word fits after it. */
  lemma SoftHyphenLineStart(b: string, chars: nat)
    requires Letters(b) && 1 + |b| <= chars
    ensures Processed(MONO6, Left, LineStart([T.SOFT_HYPHEN] + b, chars))
      == (LineState([], [], LineCursor(6 + 6 * |b|, 6 * chars, 24), TEST_SPACES, false,
            [PrintedCharacters(T.HYPHEN, 6), PrintedCharacters(b, 6 * |b|)]), EndOfText)
  {
    var s0 := LineStart([T.SOFT_HYPHEN] + b, chars);
    var s1 := LineState(b, b, LineCursor(6, 6 * chars, 24), TEST_SPACES, true, [] + [PrintedCharacters(T.HYPHEN, 6)]);
    assert Step(MONO6, Left, s0) == Continue(s1) by {
      Mono6Width(T.HYPHEN);
      assert b + [] == b;
      WordWidthAheadOfLetters(MONO6, b, []);
      HyphenOnEmptyLineStep(MONO6, Left, s0, b);
    }
    Continues(MONO6, Left, s0, s1);
    Mono6Width(b);
    WordThenEnd(MONO6, Left, s1, b);
    assert [] + [PrintedCharacters(T.HYPHEN, 6)] + [PrintedCharacters(b, 6 * |b|)]
      == [PrintedCharacters(T.HYPHEN, 6), PrintedCharacters(b, 6 * |b|)];
  }

  /** A line holding one word of letters that fits. */
  lemma OneWordLine(b: string, chars: nat)
    requires Letters(b) && |b| <= chars
    ensures Processed(MONO6, Left, LineStart(b, chars))
      == (LineState([], [], LineCursor(6 * |b|, 6 * chars, 24), TEST_SPACES, false,
            [PrintedCharacters(b, 6 * |b|)]), EndOfText)
  {
    assert [] + [PrintedCharacters(b, 6 * |b|)] == [PrintedCharacters(b, 6 * |b|)];
    assert b + [] == b;
    LettersLex(b, []);
    Mono6Width(b);
    WordThenEnd(MONO6, Left, LineState(b, b, LineCursor(0, 6 * chars, 24), TEST_SPACES, true, []), b);
  }

  /** `soft_hyphen`: "sam\u{AD}ple" on lines of 5 characters is "sam-",
      then "ple". */
  lemma SoftHyphenExample()
    ensures var first := Processed(MONO6, Left, LineStart("sam\U{AD}ple", 5));
      && first.1 == LineBreak
      && first.0.events == [PrintedCharacters("sam", 18), PrintedCharacters("-", 6)]
      && first.0.parser == "ple"
    ensures Processed(MONO6, Left, LineStart("ple", 5)).0.events == [PrintedCharacters("ple", 18)]
  {
    assert "sam\U{AD}ple" == "sam" + ([T.SOFT_HYPHEN] + "ple");
    SoftHyphenFirstLine("sam", "ple", 5);
    OneWordLine("ple", 5);
  }

  /** `soft_hyphen_wrapped`: "sam\u{AD}mm" on lines of 3 characters is
      "sam", then "-" and "mm": the hyphen does not fit after "sam", so the
      second line starts with it. */
  lemma SoftHyphenWrappedExample()
    ensures var first := Processed(MONO6, Left, LineStart("sam\U{AD}mm", 3));
      && first.1 == LineBreak
      && first.0.events == [PrintedCharacters("sam", 18)]
      && first.0.parser == "\U{AD}mm"
    ensures Processed(MONO6, Left, LineStart("\U{AD}mm", 3)).0.events
      == [PrintedCharacters("-", 6), PrintedCharacters("mm", 12)]
  {
    assert "sam\U{AD}mm" == "sam" + ([T.SOFT_HYPHEN] + "mm");
    assert "\U{AD}mm" == [T.SOFT_HYPHEN] + "mm";
    SoftHyphenFirstLine("sam", "mm", 3);
    SoftHyphenLineStart("mm", 3);
  }

  // ---------------------------------------------------------------------
  // `cursor_limit`

  /** A word of four letters on an empty line of 2 characters: its first
      two letters are printed and the rest starts the next line. */
  lemma SplitFourLetters(w: string, rest: string)
    requires Letters(w) && |w| == 4 && (rest == [] || rest[0] in {'\t', '\n', ' '})
    ensures var r := Processed(MONO6, Left, LineStart(w + rest, 2));
      && r.1 == LineBreak
      && r.0.events == [PrintedCharacters(w[..2], 12)]
      && r.0.parser == w[2..] + rest
  {
    var s0 := LineStart(w + rest, 2);
    LettersLex(w, rest);
    assert FittingPrefixLen(MONO6, w, 12) == 2 by {
      Mono6Width(w[..2]);
      Mono6Width(w[..3]);
      FittingPrefixUnique(MONO6, w, 12, 2);
    }
    assert WordPrinted(MONO6, TEST_SPACES, w[..2]).0 == [PrintedCharacters(w[..2], 12)] by {
      Mono6Width(w[..2]);
      assert IndexOfNbsp(w[..2]) == None;
      WordPrintedWhole(MONO6, TEST_SPACES, w[..2]);
    }
    Mono6Width(w);
    OversizedWordIsSplit(MONO6, Left, s0, w);
    assert (w + rest)[|w|..] == rest;
    assert [] + [PrintedCharacters(w[..2], 12)] == [PrintedCharacters(w[..2], 12)];
  }

  /** `cursor_limit`: "Some sample text" on a line of 2 characters shows
      "So". */
  lemma CursorLimitExample()
    ensures Processed(MONO6, Left, LineStart("Some sample text", 2)).0.events == [PrintedCharacters("So", 12)]
  {
    assert "Some sample text" == "Some" + " sample text";
    assert "Some"[..2] == "So";
    SplitFourLetters("Some", " sample text");
  }
}
