/** Properties of the line layout of src/rendering/line_iter.rs, stated on
    the functions that its methods are proved against. */
module LineIterProps {
  import opened Wrappers
  import opened Widths
  import T = TextTokens
  import P = Parser
  import opened LineIter

  // ---------------------------------------------------------------------
  // Words and non-breaking spaces

  /** The text of the PrintedCharacters events, in order. */
  function PrintedText(evs: seq<Event>): string
    decreases |evs|
  {
    if evs == [] then []
    else (if evs[0].PrintedCharacters? then evs[0].text else []) + PrintedText(evs[1..])
  }

  /** The number of Whitespace events. */
  function SpaceEvents(evs: seq<Event>): nat
    decreases |evs|
  {
    if evs == [] then 0 else (if evs[0].Whitespace? then 1 else 0) + SpaceEvents(evs[1..])
  }

  /** `w` with its non-breaking spaces removed. */
  function WithoutNbsp(w: string): string
    decreases |w|
  {
    if w == [] then [] else (if w[0] == P.NBSP then [] else [w[0]]) + WithoutNbsp(w[1..])
  }

  function NbspCount(w: string): nat
    decreases |w|
  {
    if w == [] then 0 else (if w[0] == P.NBSP then 1 else 0) + NbspCount(w[1..])
  }

  lemma {:induction false} EventsAppend(a: seq<Event>, b: seq<Event>)
    ensures PrintedText(a + b) == PrintedText(a) + PrintedText(b)
    ensures SpaceEvents(a + b) == SpaceEvents(a) + SpaceEvents(b)
    decreases |a|
  {
    if a == [] {
      assert a + b == b;
    } else {
      var ab := a + b;
      assert ab[0] == a[0] && ab[1..] == a[1..] + b;
      EventsAppend(a[1..], b);
      var piece := if a[0].PrintedCharacters? then a[0].text else [];
      assert PrintedText(ab) == piece + PrintedText(ab[1..]);
      assert PrintedText(a) == piece + PrintedText(a[1..]);
      assert piece + (PrintedText(a[1..]) + PrintedText(b)) == (piece + PrintedText(a[1..])) + PrintedText(b);
    }
  }

  lemma {:induction false} WithoutNbspAppend(a: string, b: string)
    ensures WithoutNbsp(a + b) == WithoutNbsp(a) + WithoutNbsp(b)
    ensures NbspCount(a + b) == NbspCount(a) + NbspCount(b)
    decreases |a|
  {
    if a == [] {
      assert a + b == b;
    } else {
      WithoutNbspAppend(a[1..], b);
      assert (a + b)[1..] == a[1..] + b;
    }
  }

  lemma {:induction false} NoNbspUnchanged(w: string)
    requires forall k :: 0 <= k < |w| ==> w[k] != P.NBSP
    ensures WithoutNbsp(w) == w && NbspCount(w) == 0
    decreases |w|
  {
    if w != [] {
      NoNbspUnchanged(w[1..]);
    }
  }

  /** The position `IndexOfNbsp` finds is the first non-breaking space. */
  lemma {:induction false} IndexOfNbspFirst(w: string, p: nat)
    requires p < |w| && w[p] == P.NBSP
    requires forall k :: 0 <= k < p ==> w[k] != P.NBSP
    ensures IndexOfNbsp(w) == Some(p)
    decreases p
  {
    if p > 0 {
      IndexOfNbspFirst(w[1..], p - 1);
    }
  }

  /** How `WordPrinted` splits a word at its first non-breaking space. */
  lemma WordPrintedSplit(cw: char -> nat, spaces: SpaceConfig, w: string, p: nat)
    requires IndexOfNbsp(w) == Some(p)
    ensures WordPrinted(cw, spaces, w).0
      == (if p != 0 then [PrintedCharacters(w[..p], TextWidth(cw, w[..p]))] else [])
         + [Whitespace(1, spaces.Consume(1).0)]
         + WordPrinted(cw, spaces.Consume(1).1, w[p + 1..]).0
  {
  }

  /** Removing non-breaking spaces around the first one. */
  lemma WithoutNbspAt(w: string, p: nat)
    requires IndexOfNbsp(w) == Some(p)
    ensures WithoutNbsp(w) == w[..p] + WithoutNbsp(w[p + 1..])
    ensures NbspCount(w) == 1 + NbspCount(w[p + 1..])
  {
    assert w == w[..p] + [P.NBSP] + w[p + 1..];
    NoNbspUnchanged(w[..p]);
    WithoutNbspAppend(w[..p], [P.NBSP]);
    WithoutNbspAppend(w[..p] + [P.NBSP], w[p + 1..]);
  }

  /** The printed text and the space count of `before`, a space, `after`. */
  lemma SplitEvents(before: seq<Event>, space: Event, after: seq<Event>, piece: string)
    requires before == [] || (|before| == 1 && before[0].PrintedCharacters? && before[0].text == piece)
    requires before == [] ==> piece == []
    requires space.Whitespace?
    ensures PrintedText(before + [space] + after) == piece + PrintedText(after)
    ensures SpaceEvents(before + [space] + after) == 1 + SpaceEvents(after)
  {
    EventsAppend(before, [space]);
    EventsAppend(before + [space], after);
  }

  /** `process_word` prints every character of the word except its
      non-breaking spaces, in order, and draws one space for each of them. */
  lemma {:induction false} WordPrintedKeepsText(cw: char -> nat, spaces: SpaceConfig, w: string)
    ensures PrintedText(WordPrinted(cw, spaces, w).0) == WithoutNbsp(w)
    ensures SpaceEvents(WordPrinted(cw, spaces, w).0) == NbspCount(w)
    decreases |w|
  {
    match IndexOfNbsp(w)
    case None =>
      NoNbspUnchanged(w);
      assert PrintedText([PrintedCharacters(w, TextWidth(cw, w))]) == w;
    case Some(p) =>
      var before := if p != 0 then [PrintedCharacters(w[..p], TextWidth(cw, w[..p]))] else [];
      var after := WordPrinted(cw, spaces.Consume(1).1, w[p + 1..]).0;
      WordPrintedSplit(cw, spaces, w, p);
      WordPrintedKeepsText(cw, spaces.Consume(1).1, w[p + 1..]);
      SplitEvents(before, Whitespace(1, spaces.Consume(1).0), after, w[..p]);
      WithoutNbspAt(w, p);
  }

  /** A non-breaking space between two pieces of a word is drawn as one
      space between them (`nbsp_is_rendered_as_space`). */
  lemma NbspDrawnAsSpace(cw: char -> nat, spaces: SpaceConfig, a: string, b: string)
    requires a != []
    requires forall k :: 0 <= k < |a| ==> a[k] != P.NBSP
    requires forall k :: 0 <= k < |b| ==> b[k] != P.NBSP
    ensures WordPrinted(cw, spaces, a + [P.NBSP] + b).0
      == [PrintedCharacters(a, TextWidth(cw, a)), Whitespace(1, spaces.Consume(1).0),
          PrintedCharacters(b, TextWidth(cw, b))]
  {
    var w := a + [P.NBSP] + b;
    assert w[..|a|] == a && w[|a| + 1..] == b;
    IndexOfNbspFirst(w, |a|);
    assert IndexOfNbsp(b) == None;
    OneNbsp(cw, spaces, w, |a|);
  }

  lemma OneNbsp(cw: char -> nat, spaces: SpaceConfig, w: string, p: nat)
    requires p > 0 && IndexOfNbsp(w) == Some(p) && IndexOfNbsp(w[p + 1..]) == None
    ensures WordPrinted(cw, spaces, w).0
      == [PrintedCharacters(w[..p], TextWidth(cw, w[..p])), Whitespace(1, spaces.Consume(1).0),
          PrintedCharacters(w[p + 1..], TextWidth(cw, w[p + 1..]))]
  {
    WordPrintedWhole(cw, spaces.Consume(1).1, w[p + 1..]);
    WordPrintedSplit(cw, spaces, w, p);
  }

  lemma WordPrintedWhole(cw: char -> nat, spaces: SpaceConfig, w: string)
    requires IndexOfNbsp(w) == None
    ensures WordPrinted(cw, spaces, w) == ([PrintedCharacters(w, TextWidth(cw, w))], spaces)
  {
  }

  // ---------------------------------------------------------------------
  // Progress

  /** Invariant of the states `Processed` passes through when it starts on
      a fresh line over `n` characters. */
  lemma {:induction false} ProcessedProgress(cw: char -> nat, a: HorizontalAlignment, st: LineState, n: nat)
    requires st.cursor.Valid()
    requires n > 0 && |st.lookahead| <= n
    requires !st.empty ==> |st.lookahead| < n
    ensures |Processed(cw, a, st).0.parser| < n
    decreases |st.lookahead|
  {
    match Step(cw, a, st)
    case Continue(next) =>
      ProcessedProgress(cw, a, next, n);
    case Done(last, end) =>
      match T.Lex(st.lookahead)
      case None =>
      case Some(l) =>
  }

  /** A line that starts on a non-empty text always consumes part of it, so
      laying out line after line reaches the end of the text even when the
      line is too narrow for a single character (`insufficient_width_no_looping`). */
  lemma ProcessMakesProgress(cw: char -> nat, a: HorizontalAlignment, text: string, cursor: LineCursor, spaces: SpaceConfig)
    requires cursor.Valid() && text != []
    ensures |Processed(cw, a, LineState(text, text, cursor, spaces, true, [])).0.parser| < |text|
  {
    ProcessedProgress(cw, a, LineState(text, text, cursor, spaces, true, []), |text|);
  }

  /** `s` is what is left of `t` after some prefix of it was read. */
  predicate SuffixOf(s: string, t: string) {
    |s| <= |t| && s == t[|t| - |s|..]
  }

  lemma SuffixTrans(a: string, b: string, c: string)
    requires SuffixOf(a, b) && SuffixOf(b, c)
    ensures SuffixOf(a, c)
  {
    assert c[|c| - |b|..][|b| - |a|..] == c[|c| - |a|..];
  }

  /** A step that ends the line leaves a suffix of the text it read from,
      and an empty one when the text has ended. */
  lemma StepDoneResumesInText(cw: char -> nat, a: HorizontalAlignment, st: LineState)
    requires st.cursor.Valid() && Step(cw, a, st).Done?
    ensures SuffixOf(Step(cw, a, st).last.parser, st.lookahead)
    ensures Step(cw, a, st).end == EndOfText ==> Step(cw, a, st).last.parser == []
  {
    match T.Lex(st.lookahead)
    case None =>
    case Some(l) =>
      var st2 := st.(parser := st.lookahead, lookahead := st.lookahead[l.len..]);
      assert SuffixOf(st2.lookahead, st.lookahead);
      match l.token
      case Word(w) =>
        if !st2.cursor.FitsInLine(TextWidth(cw, w)) && st2.empty {
          var k := FittingPrefixLen(cw, w, st2.cursor.Space());
          assert SuffixOf(st.lookahead[k..], st.lookahead);
        }
      case _ =>
  }

  /** The next line resumes inside the text of this one: what is left for
      it is a suffix of the text this line started on, and the line ends
      with EndOfText only when nothing is left. */
  lemma {:induction false} ProcessedResumesInText(cw: char -> nat, a: HorizontalAlignment, st: LineState)
    requires st.cursor.Valid()
    ensures SuffixOf(Processed(cw, a, st).0.parser, st.lookahead)
    ensures Processed(cw, a, st).1 == EndOfText ==> Processed(cw, a, st).0.parser == []
    decreases |st.lookahead|
  {
    match Step(cw, a, st)
    case Continue(next) =>
      var l := T.Lex(st.lookahead).value;
      assert next.lookahead == st.lookahead[l.len..];
      ProcessedResumesInText(cw, a, next);
      SuffixTrans(Processed(cw, a, next).0.parser, next.lookahead, st.lookahead);
    case Done(_, _) =>
      StepDoneResumesInText(cw, a, st);
  }

  /** How a line ends at a line ending or at the end of the text: a
      newline or carriage return is consumed and reported as such, and a
      line that runs out of tokens ends with EndOfText having read all of
      it. Nothing is drawn and the cursor stays. */
  lemma LineEnds(cw: char -> nat, a: HorizontalAlignment, st: LineState)
    requires st.cursor.Valid()
    ensures st.lookahead == [] ==> Processed(cw, a, st) == (st.(parser := []), EndOfText)
    ensures st.lookahead != [] && st.lookahead[0] == '\n' ==>
      Processed(cw, a, st) == (st.(parser := st.lookahead[1..], lookahead := st.lookahead[1..]), NewLine)
    ensures st.lookahead != [] && st.lookahead[0] == '\r' ==>
      Processed(cw, a, st) == (st.(parser := st.lookahead[1..], lookahead := st.lookahead[1..]), CarriageReturn)
  {
  }

  // ---------------------------------------------------------------------
  // Words

  /** A word that fits is printed whole: a word without non-breaking spaces
      becomes one PrintedCharacters event with its width, the cursor moves
      past it and the line is no longer empty. */
  lemma WordThatFitsIsPrinted(cw: char -> nat, a: HorizontalAlignment, st: LineState, w: string)
    requires st.cursor.Valid()
    requires T.Lex(st.lookahead).Some? && T.Lex(st.lookahead).value.token == T.Word(w)
    requires forall k :: 0 <= k < |w| ==> w[k] != P.NBSP
    requires st.cursor.FitsInLine(TextWidth(cw, w))
    ensures Step(cw, a, st).Continue?
    ensures Step(cw, a, st).next.events == st.events + [PrintedCharacters(w, TextWidth(cw, w))]
    ensures Step(cw, a, st).next.cursor.position == st.cursor.position + TextWidth(cw, w)
    ensures !Step(cw, a, st).next.empty
    ensures Step(cw, a, st).next.lookahead == st.lookahead[|w|..]
  {
    assert IndexOfNbsp(w) == None;
  }

  /** Word wrapping: on a line that already has content, a word that does
      not fit ends the line, nothing of it is drawn, and the next line
      starts with it. */
  lemma WordWrapsWhole(cw: char -> nat, a: HorizontalAlignment, st: LineState, w: string)
    requires st.cursor.Valid() && !st.empty
    requires T.Lex(st.lookahead).Some? && T.Lex(st.lookahead).value.token == T.Word(w)
    requires !st.cursor.FitsInLine(TextWidth(cw, w))
    ensures Processed(cw, a, st).1 == LineBreak
    ensures Processed(cw, a, st).0.parser == st.lookahead
    ensures Processed(cw, a, st).0.events == st.events
    ensures Processed(cw, a, st).0.cursor == st.cursor
  {
  }

  /** A word wider than the space left on an empty line is split: the
      longest prefix that fits is printed, the line ends, and the next line
      starts with the rest of the word. */
  lemma OversizedWordIsSplit(cw: char -> nat, a: HorizontalAlignment, st: LineState, w: string)
    requires st.cursor.Valid() && st.empty
    requires T.Lex(st.lookahead).Some? && T.Lex(st.lookahead).value.token == T.Word(w)
    requires !st.cursor.FitsInLine(TextWidth(cw, w))
    requires FittingPrefixLen(cw, w, st.cursor.Space()) > 0
    ensures var k := FittingPrefixLen(cw, w, st.cursor.Space());
      && k < |w|
      && Processed(cw, a, st).1 == LineBreak
      && Processed(cw, a, st).0.parser == w[k..] + st.lookahead[|w|..]
      && Processed(cw, a, st).0.events == st.events + WordPrinted(cw, st.spaces, w[..k]).0
  {
    var k := FittingPrefixLen(cw, w, st.cursor.Space());
    assert w[..|w|] == w;
    var l := T.Lex(st.lookahead).value;
    assert st.lookahead[..l.len] == w;
    assert st.lookahead[k..] == w[k..] + st.lookahead[|w|..];
  }

  /** A line too narrow for the first character of a word gives it up: the
      word is skipped, nothing is drawn, and the line ends. */
  lemma UndrawableWordIsSkipped(cw: char -> nat, a: HorizontalAlignment, st: LineState, w: string)
    requires st.cursor.Valid() && st.empty
    requires T.Lex(st.lookahead).Some? && T.Lex(st.lookahead).value.token == T.Word(w)
    requires !st.cursor.FitsInLine(cw(w[0]))
    ensures Processed(cw, a, st).1 == LineBreak
    ensures Processed(cw, a, st).0.parser == st.lookahead[|w|..]
    ensures Processed(cw, a, st).0.events == st.events
  {
    TextWidthSingle(cw, w[0]);
    assert w[..1] == [w[0]];
    PrefixWidthMonotone(cw, w, 1, |w|);
    assert w[..|w|] == w;
    assert FittingPrefixLen(cw, w, st.cursor.Space()) == 0;
  }

  // ---------------------------------------------------------------------
  // Whitespace

  /** Leading whitespace of a line that is not left aligned is dropped: no
      event, no cursor movement. */
  lemma LeadingWhitespaceHidden(cw: char -> nat, a: HorizontalAlignment, st: LineState)
    requires st.cursor.Valid() && st.empty && a != Left
    requires T.Lex(st.lookahead).Some?
    requires T.Lex(st.lookahead).value.token.Whitespace? || T.Lex(st.lookahead).value.token.Tab?
    ensures Step(cw, a, st).Continue?
    ensures Step(cw, a, st).next.events == st.events
    ensures Step(cw, a, st).next.cursor == st.cursor
  {
  }

  /** Whitespace after content that fits is drawn only when it and the
      word after it fit together; otherwise the cursor just moves over it,
      so that a line never ends in visible whitespace. The look-ahead reads
      the run again with the spaces of the run already taken from the
      justification budget. */
  lemma TrailingWhitespaceHidden(cw: char -> nat, a: HorizontalAlignment, st: LineState, n: nat, s: string)
    requires st.cursor.Valid() && !st.empty
    requires T.Lex(st.lookahead).Some? && T.Lex(st.lookahead).value.token == T.Whitespace(n, s)
    requires st.cursor.FitsInLine(st.spaces.Consume(n).0)
    ensures Step(cw, a, st).Continue?
    ensures var width := st.spaces.Consume(n).0;
      Step(cw, a, st).next.events == st.events +
        [if WordFitsAhead(cw, st.lookahead, st.cursor, st.spaces.Consume(n).1) then Whitespace(n, width) else MoveCursor(width)]
    ensures Step(cw, a, st).next.cursor.position == st.cursor.position + st.spaces.Consume(n).0
  {
    var l := T.Lex(st.lookahead).value;
    var st2 := st.(parser := st.lookahead, lookahead := st.lookahead[l.len..], spaces := st.spaces.Consume(n).1);
    assert Step(cw, a, st) == Continue(WhitespaceDrawn(cw, a, st2, s, n, st.spaces.Consume(n).0));
  }

  /** Whitespace that does not fit the rest of a line is cut: as many of
      its spaces as fit whole, at the width of one space of the run
      (`space_width / space_count`), are drawn as whitespace, none if none
      fit, the cursor stays, and the whole run is consumed. Where the run is
      narrower than one pixel per space, that width is 0; the source then
      divides by zero, and the model draws nothing for the run. */
  lemma OverflowingWhitespaceIsCut(cw: char -> nat, a: HorizontalAlignment, st: LineState, n: nat, s: string)
    requires st.cursor.Valid() && (!st.empty || a == Left)
    requires T.Lex(st.lookahead).Some? && T.Lex(st.lookahead).value.token == T.Whitespace(n, s)
    requires !st.cursor.FitsInLine(st.spaces.Consume(n).0)
    ensures Step(cw, a, st).Continue?
    ensures var single := st.spaces.Consume(n).0 / n;
      var consumed := if single == 0 then 0 else st.cursor.Space() / single;
      && Step(cw, a, st).next.events
         == st.events + (if consumed > 0 then [Whitespace(consumed, consumed * single)] else [])
      && consumed * single <= st.cursor.Space()
    ensures Step(cw, a, st).next.cursor == st.cursor
    ensures Step(cw, a, st).next.parser == st.lookahead[n..]
    ensures Step(cw, a, st).next.lookahead == st.lookahead[n..]
  {
    var width := st.spaces.Consume(n).0;
    var l := T.Lex(st.lookahead).value;
    assert n == l.len && s == st.lookahead[..n];
    var st2 := st.(parser := st.lookahead, lookahead := st.lookahead[n..], spaces := st.spaces.Consume(n).1);
    assert Step(cw, a, st) == Continue(WhitespaceDrawn(cw, a, st2, s, n, width));
    var single := width / n;
    if single != 0 {
      var consumed := st.cursor.Space() / single;
      assert consumed * single <= st.cursor.Space();
    }
  }

  /** A tab that fits moves the cursor to the next tab stop. */
  lemma TabReachesTabStop(cw: char -> nat, a: HorizontalAlignment, st: LineState)
    requires st.cursor.Valid() && (!st.empty || a == Left)
    requires T.Lex(st.lookahead).Some? && T.Lex(st.lookahead).value.token == T.Tab
    requires st.cursor.FitsInLine(st.cursor.NextTabWidth())
    ensures Step(cw, a, st).Continue?
    ensures Step(cw, a, st).next.cursor.position % st.cursor.tabWidth == 0
    ensures Step(cw, a, st).next.cursor.position > st.cursor.position
  {
  }

  // ---------------------------------------------------------------------
  // Soft hyphens

  /** A soft hyphen inside a word that fits the line is invisible. */
  lemma SoftHyphenInvisibleWhenWordFits(cw: char -> nat, a: HorizontalAlignment, st: LineState)
    requires st.cursor.Valid() && !st.empty
    requires T.Lex(st.lookahead).Some? && T.Lex(st.lookahead).value.token.Break?
    requires var la := st.lookahead[1..];
      WordWidthAhead(cw, la, None).Some? && st.cursor.FitsInLine(WordWidthAhead(cw, la, None).value)
    ensures Step(cw, a, st).Continue?
    ensures Step(cw, a, st).next.events == st.events
    ensures Step(cw, a, st).next.cursor == st.cursor
  {
  }

  /** A soft hyphen at the start of a line, with a word after it, is
      drawn as "-" when it fits and the line goes on (it stays empty, so the
      word after it may still be split); when the hyphen does not fit,
      nothing is drawn. Either way the hyphen is read past. */
  lemma SoftHyphenOnEmptyLine(cw: char -> nat, a: HorizontalAlignment, st: LineState)
    requires st.cursor.Valid() && st.empty
    requires T.Lex(st.lookahead).Some? && T.Lex(st.lookahead).value.token.Break?
    requires WordWidthAhead(cw, st.lookahead[1..], None).Some?
    ensures Step(cw, a, st).Continue?
    ensures Step(cw, a, st).next.empty
    ensures Step(cw, a, st).next.lookahead == st.lookahead[1..]
    ensures var width := TextWidth(cw, T.HYPHEN);
      if st.cursor.FitsInLine(width) then
        && Step(cw, a, st).next.events == st.events + [PrintedCharacters(T.HYPHEN, width)]
        && Step(cw, a, st).next.cursor.position == st.cursor.position + width
        && Step(cw, a, st).next.parser == st.lookahead[1..]
      else
        && Step(cw, a, st).next.events == st.events
        && Step(cw, a, st).next.cursor == st.cursor
  {
  }

  /** A soft hyphen that no word follows is read past without effect. */
  lemma SoftHyphenWithoutWord(cw: char -> nat, a: HorizontalAlignment, st: LineState)
    requires st.cursor.Valid()
    requires T.Lex(st.lookahead).Some? && T.Lex(st.lookahead).value.token.Break?
    requires WordWidthAhead(cw, st.lookahead[1..], None).None?
    ensures Step(cw, a, st).Continue?
    ensures Step(cw, a, st).next.events == st.events
    ensures Step(cw, a, st).next.cursor == st.cursor
    ensures Step(cw, a, st).next.lookahead == st.lookahead[1..]
  {
  }

  /** Where the word after a soft hyphen does not fit, the line breaks at
      the hyphen: a "-" is drawn if it fits, and the next line starts after
      the hyphen; if it does not fit, the next line starts with the hyphen. */
  lemma SoftHyphenBreaksLine(cw: char -> nat, a: HorizontalAlignment, st: LineState)
    requires st.cursor.Valid() && !st.empty
    requires T.Lex(st.lookahead).Some? && T.Lex(st.lookahead).value.token.Break?
    requires var la := st.lookahead[1..];
      WordWidthAhead(cw, la, None).Some? && !st.cursor.FitsInLine(WordWidthAhead(cw, la, None).value)
    ensures Processed(cw, a, st).1 == LineBreak
    ensures var width := TextWidth(cw, T.HYPHEN);
      if st.cursor.FitsInLine(width) then
        && Processed(cw, a, st).0.events == st.events + [PrintedCharacters(T.HYPHEN, width)]
        && Processed(cw, a, st).0.parser == st.lookahead[1..]
      else
        && Processed(cw, a, st).0.events == st.events
        && Processed(cw, a, st).0.parser == st.lookahead
  {
  }
}
