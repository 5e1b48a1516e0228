/** The line layout of src/rendering/line_iter.rs. A `LineElementParser`
    reads tokens for one line and turns them into handler events: printed
    words, drawn whitespace and plain cursor moves. It wraps words that do
    not fit, hides leading whitespace when the line is not left aligned,
    hides trailing whitespace, breaks words that are wider than an empty
    line, draws a hyphen at a soft hyphen where the line breaks, and draws a
    non-breaking space as a space inside its word.

    Each method is proved against a function on values: `Processed` for a
    whole line, `Step` for one token. */
module LineIter {
  import opened Wrappers
  import opened Widths
  import T = TextTokens
  import P = Parser

  datatype HorizontalAlignment = Left | Center | Right | Justified

  /** Why a line ended. */
  datatype LineEndType = NewLine | CarriageReturn | EndOfText | LineBreak

  /** Adding a tab stop's remainder to a position lands on a tab stop. */
  lemma TabStop(p: nat, t: nat)
    requires t > 0
    ensures (p + (t - p % t)) % t == 0
  {
    var q := p / t;
    assert p + (t - p % t) == (q + 1) * t;
    MultipleMod(q + 1, t);
  }

  lemma MultipleMod(k: nat, t: nat)
    requires t > 0
    ensures (k * t) % t == 0
  {
    var q: int := (k * t) / t;
    var r: int := (k * t) % t;
    var d: int := k - q;
    assert k * t == q * t + r;
    assert d * t == r;
    if d >= 1 {
      assert false;
    }
  }

  /** The result of a cursor move: Ok with the distance and the moved
      cursor, or Err with the space that was left (the cursor stays). */
  datatype Move = Ok(moved: nat, cursor: LineCursor) | Err(moved: nat)

  /** The horizontal position inside a line of `width` pixels. The cursor
      type itself (src/rendering/cursor.rs) is not part of this model; this
      is the behaviour the layout relies on. */
  datatype LineCursor = LineCursor(position: nat, width: nat, tabWidth: nat) {
    predicate Valid() {
      position <= width && tabWidth > 0
    }

    /** The pixels left in the line. */
    function Space(): nat
      requires Valid()
    {
      width - position
    }

    function FitsInLine(w: nat): (b: bool)
      requires Valid()
      ensures b <==> position + w <= width
    {
      w <= Space()
    }

    function MoveCursor(delta: nat): (r: Move)
      requires Valid()
      ensures r.Ok? <==> FitsInLine(delta)
      ensures r.Ok? ==> r.moved == delta && r.cursor == this.(position := position + delta) && r.cursor.Valid()
      ensures r.Err? ==> r.moved == Space() < delta
    {
      if delta <= Space() then Ok(delta, this.(position := position + delta)) else Err(Space())
    }

    /** The distance to the next tab stop. */
    function NextTabWidth(): (w: nat)
      requires Valid()
      ensures 1 <= w <= tabWidth
      ensures (position + w) % tabWidth == 0
    {
      TabStop(position, tabWidth);
      tabWidth - position % tabWidth
    }
  }

  /** Space widths: `spaceWidth` pixels each, and, for justified text, a
      budget of spaces that still get a width (src/rendering/space_config.rs
      is not part of this model; this is the behaviour the layout relies on). */
  datatype SpaceConfig = SpaceConfig(spaceWidth: nat, budget: Option<nat>) {
    /** The width of `n` spaces, and the configuration after them. */
    function Consume(n: nat): (r: (nat, SpaceConfig))
      ensures r.0 <= n * spaceWidth
      ensures r.1.spaceWidth == spaceWidth
      ensures budget.None? ==> r == (n * spaceWidth, this)
      ensures budget.Some? ==> r.1.budget.Some? && r.1.budget.value <= budget.value
    {
      match budget
      case None => (n * spaceWidth, this)
      case Some(b) =>
        var k := if n <= b then n else b;
        (k * spaceWidth, SpaceConfig(spaceWidth, Some(b - k)))
    }
  }

  /** What the layout tells its handler. */
  datatype Event =
    | Whitespace(count: nat, width: nat)
    | PrintedCharacters(text: string, width: nat)
    | MoveCursor(delta: nat)

  /** An element handler that records the events it receives. */
  class ElementHandler {
    const charWidth: char -> nat
    var events: seq<Event>

    constructor (charWidth: char -> nat)
      ensures this.charWidth == charWidth && events == []
    {
      this.charWidth := charWidth;
      events := [];
    }

    function Measure(s: string): (w: nat)
      ensures |s| == 1 ==> w == charWidth(s[0])
    {
      if |s| == 1 then
        TextWidthSingle(charWidth, s[0]);
        assert s == [s[0]];
        TextWidth(charWidth, s)
      else TextWidth(charWidth, s)
    }

    method Whitespace(count: nat, width: nat)
      modifies this
      ensures events == old(events) + [Event.Whitespace(count, width)]
    {
      events := events + [Event.Whitespace(count, width)];
    }

    method PrintedCharacters(s: string, width: nat)
      modifies this
      ensures events == old(events) + [Event.PrintedCharacters(s, width)]
    {
      events := events + [Event.PrintedCharacters(s, width)];
    }

    method MoveCursor(delta: nat)
      modifies this
      ensures events == old(events) + [Event.MoveCursor(delta)]
    {
      events := events + [Event.MoveCursor(delta)];
    }
  }

  /** Leading whitespace is drawn only in left-aligned text. */
  function RenderLeadingSpaces(alignment: HorizontalAlignment): (b: bool)
    ensures b <==> alignment == Left
  {
    match alignment
    case Left => true
    case Center => false
    case Right => false
    case Justified => false
  }

  /** Trailing whitespace is never forced visible. */
  function RenderTrailingSpaces(): (b: bool)
    ensures !b
  {
    false
  }

  /** The observable state of a line parser and its handler. `parser` is the
      text before the token being handled, `lookahead` the text after it. */
  datatype LineState = LineState(
    parser: string,
    lookahead: string,
    cursor: LineCursor,
    spaces: SpaceConfig,
    empty: bool,
    events: seq<Event>)

  datatype StepResult = Continue(next: LineState) | Done(last: LineState, end: LineEndType)

  function Plus(acc: Option<nat>, w: nat): nat {
    match acc
    case None => w
    case Some(a) => a + w
  }

  /** The width of the word ahead of `la`: the Word tokens that follow,
      added to `acc`, up to and including the glyph of a soft hyphen;
      None when no Word or soft hyphen follows and `acc` is None. */
  function WordWidthAhead(cw: char -> nat, la: string, acc: Option<nat>): (r: Option<nat>)
    ensures acc.Some? ==> r.Some? && r.value >= acc.value
    decreases |la|
  {
    match T.Lex(la)
    case None => acc
    case Some(l) =>
      match l.token
      case Word(w) => WordWidthAhead(cw, la[l.len..], Some(Plus(acc, TextWidth(cw, w))))
      case Break(c, _) => Some(Plus(acc, TextWidth(cw, c)))
      case _ => acc
  }

  /** The whitespace and tabs at the front of `la`, followed by the next
      word or soft hyphen, all fit on the rest of the line. */
  function WordFitsAhead(cw: char -> nat, la: string, cursor: LineCursor, spaces: SpaceConfig): (b: bool)
    requires cursor.Valid()
    ensures b ==> T.Lex(la).Some? && !T.Lex(la).value.token.NewLine? && !T.Lex(la).value.token.CarriageReturn?
    ensures b && T.Lex(la).value.token.Word? ==> cursor.FitsInLine(TextWidth(cw, T.Lex(la).value.token.text))
    ensures b && T.Lex(la).value.token.Break? ==> cursor.FitsInLine(TextWidth(cw, T.HYPHEN))
    decreases |la|
  {
    match T.Lex(la)
    case None => false
    case Some(l) =>
      match l.token
      case Word(w) => cursor.FitsInLine(TextWidth(cw, w))
      case Break(c, _) => cursor.FitsInLine(TextWidth(cw, c))
      case Whitespace(n, _) =>
        var (width, sp) := spaces.Consume(n);
        (match cursor.MoveCursor(width)
         case Ok(_, c) => WordFitsAhead(cw, la[l.len..], c, sp)
         case Err(_) => false)
      case Tab =>
        (match cursor.MoveCursor(cursor.NextTabWidth())
         case Ok(_, c) => WordFitsAhead(cw, la[l.len..], c, spaces)
         case Err(_) => false)
      case _ => false
  }

  /** The position of the first non-breaking space in `w`. */
  function IndexOfNbsp(w: string): (r: Option<nat>)
    ensures r.Some? ==> r.value < |w| && w[r.value] == P.NBSP
    ensures forall k :: 0 <= k < |w| && (r.None? || k < r.value) ==> w[k] != P.NBSP
    decreases |w|
  {
    if w == [] then None
    else if w[0] == P.NBSP then Some(0)
    else match IndexOfNbsp(w[1..])
      case None => None
      case Some(p) => Some(p + 1)
  }

  /** The events `process_word` emits for `w`, and the space configuration
      after it: the pieces between non-breaking spaces are printed and each
      non-breaking space is drawn as one space. */
  function WordPrinted(cw: char -> nat, spaces: SpaceConfig, w: string): (r: (seq<Event>, SpaceConfig))
    ensures r.0 != [] && r.0[|r.0| - 1].PrintedCharacters?
    ensures forall e :: e in r.0 ==> e.PrintedCharacters? || e == Whitespace(1, spaces.spaceWidth) || e == Whitespace(1, 0)
    ensures r.1.spaceWidth == spaces.spaceWidth
    ensures spaces.budget.None? ==> r.1 == spaces
    decreases |w|
  {
    match IndexOfNbsp(w)
    case None => ([PrintedCharacters(w, TextWidth(cw, w))], spaces)
    case Some(p) =>
      var before := if p != 0 then [PrintedCharacters(w[..p], TextWidth(cw, w[..p]))] else [];
      var (width, sp) := spaces.Consume(1);
      var (after, sp') := WordPrinted(cw, sp, w[p + 1..]);
      (before + [Whitespace(1, width)] + after, sp')
  }

  /** `WordPrinted` of a word with a non-breaking space at `p`. */
  lemma WordPrintedAt(cw: char -> nat, spaces: SpaceConfig, w: string, p: nat)
    requires IndexOfNbsp(w) == Some(p)
    ensures var before := if p != 0 then [PrintedCharacters(w[..p], TextWidth(cw, w[..p]))] else [];
      var rest := WordPrinted(cw, spaces.Consume(1).1, w[p + 1..]);
      WordPrinted(cw, spaces, w) == (before + [Whitespace(1, spaces.Consume(1).0)] + rest.0, rest.1)
  {
  }

  function PrintWord(cw: char -> nat, st: LineState, w: string): LineState {
    var (evs, sp) := WordPrinted(cw, st.spaces, w);
    st.(events := st.events + evs, spaces := sp)
  }

  /** `draw_whitespace` for a run `s` of `count` spaces, `spaceWidth` wide. */
  function WhitespaceDrawn(cw: char -> nat, a: HorizontalAlignment, st: LineState, s: string, count: nat, spaceWidth: nat): (r: LineState)
    requires st.cursor.Valid() && count >= 1
    requires |s| <= |st.parser| && st.lookahead == st.parser[|s|..]
    ensures r.cursor.Valid() && r.lookahead == st.lookahead
  {
    if st.empty && !RenderLeadingSpaces(a) then st
    else
      var draw := (st.empty && RenderLeadingSpaces(a)) || RenderTrailingSpaces()
        || WordFitsAhead(cw, st.parser, st.cursor, st.spaces);
      match st.cursor.MoveCursor(spaceWidth)
      case Ok(moved, c) =>
        if draw then st.(cursor := c, events := st.events + [Whitespace(count, moved)])
        else st.(cursor := c, events := st.events + [MoveCursor(moved)])
      case Err(moved) =>
        var single := spaceWidth / count;
        var consumed := if single == 0 then 0 else moved / single;
        var evs := if consumed > 0 then [Whitespace(consumed, consumed * single)] else [];
        st.(events := st.events + evs, parser := st.parser[|s|..], lookahead := st.parser[|s|..])
  }

  /** `draw_tab` for a tab `spaceWidth` wide. */
  function TabDrawn(cw: char -> nat, a: HorizontalAlignment, st: LineState, spaceWidth: nat): (r: LineState)
    requires st.cursor.Valid()
    ensures r.cursor.Valid() && r.lookahead == st.lookahead
  {
    if st.empty && !RenderLeadingSpaces(a) then st
    else
      var draw := (st.empty && RenderLeadingSpaces(a)) || RenderTrailingSpaces()
        || WordFitsAhead(cw, st.parser, st.cursor, st.spaces);
      match st.cursor.MoveCursor(spaceWidth)
      case Ok(moved, c) =>
        if draw then st.(cursor := c, events := st.events + [Whitespace(1, moved)])
        else st.(cursor := c, events := st.events + [MoveCursor(moved)])
      case Err(moved) => st.(events := st.events + [MoveCursor(moved)])
  }

  /** A soft hyphen with glyph `c`: if a word follows and it does not fit
      (or the line is still empty), draw the glyph if it fits; a line that
      has content then ends. */
  function BreakStep(cw: char -> nat, st: LineState, c: string): (r: StepResult)
    requires st.cursor.Valid()
    ensures r.Continue? ==> r.next.cursor.Valid() && r.next.lookahead == st.lookahead
    ensures r.Done? ==> r.last.cursor.Valid()
  {
    match WordWidthAhead(cw, st.lookahead, None)
    case None => Continue(st)
    case Some(ww) =>
      if !st.cursor.FitsInLine(ww) || st.empty then
        var width := TextWidth(cw, c);
        var st' :=
          match st.cursor.MoveCursor(width)
          case Ok(_, cur) =>
            st.(cursor := cur, events := st.events + [PrintedCharacters(c, width)], parser := st.lookahead)
          case Err(_) => st;
        if !st'.empty then Done(st', LineBreak) else Continue(st')
      else Continue(st)
  }

  /** A word `w`: print it if it fits; otherwise wrap, or, on an empty
      line, print the longest prefix that fits and leave the rest. */
  function WordStep(cw: char -> nat, st: LineState, w: string): (r: StepResult)
    requires st.cursor.Valid() && |w| <= |st.parser|
    ensures r.Continue? ==> r.next.cursor.Valid() && r.next.lookahead == st.lookahead
    ensures r.Done? ==> r.last.cursor.Valid()
  {
    match st.cursor.MoveCursor(TextWidth(cw, w))
    case Ok(_, cur) => Continue(PrintWord(cw, st.(cursor := cur, empty := false), w))
    case Err(_) =>
      if !st.empty then Done(st, LineBreak)
      else
        var k := FittingPrefixLen(cw, w, st.cursor.Space());
        if k == 0 then Done(st.(parser := st.lookahead), LineBreak)
        else
          var st' := PrintWord(cw, st.(empty := false), w[..k]);
          Done(st'.(parser := st.parser[k..], lookahead := st.parser[k..]), LineBreak)
  }

  /** `tok` is the token at the front of `st.parser`, and `st.lookahead`
      the text after it. */
  predicate TokenAhead(st: LineState, tok: T.Token) {
    && T.Lex(st.parser).Some?
    && T.Lex(st.parser).value.token == tok
    && st.lookahead == st.parser[T.Lex(st.parser).value.len..]
  }

  /** What `process` does with the token `tok` it has just read. */
  function TokenStep(cw: char -> nat, a: HorizontalAlignment, st: LineState, tok: T.Token): (r: StepResult)
    requires st.cursor.Valid() && TokenAhead(st, tok)
    ensures r.Continue? ==> r.next.cursor.Valid() && r.next.lookahead == st.lookahead
    ensures r.Done? ==> r.last.cursor.Valid()
  {
    match tok
    case Whitespace(n, s) =>
      var (width, sp) := st.spaces.Consume(n);
      Continue(WhitespaceDrawn(cw, a, st.(spaces := sp), s, n, width))
    case Tab => Continue(TabDrawn(cw, a, st, st.cursor.NextTabWidth()))
    case Break(c, _) => BreakStep(cw, st, c)
    case Word(w) => WordStep(cw, st, w)
    case CarriageReturn => Done(st.(parser := st.lookahead), CarriageReturn)
    case NewLine => Done(st.(parser := st.lookahead), NewLine)
  }

  /** One turn of the `process` loop: read the next token and handle it. */
  function Step(cw: char -> nat, a: HorizontalAlignment, st: LineState): (r: StepResult)
    requires st.cursor.Valid()
    ensures r.Continue? ==> r.next.cursor.Valid() && |r.next.lookahead| < |st.lookahead|
    ensures r.Done? ==> r.last.cursor.Valid()
  {
    match T.Lex(st.lookahead)
    case None => Done(st.(parser := st.lookahead), EndOfText)
    case Some(l) =>
      TokenStep(cw, a, st.(parser := st.lookahead, lookahead := st.lookahead[l.len..]), l.token)
  }

  /** The state at the end of the line and why it ended. */
  function Processed(cw: char -> nat, a: HorizontalAlignment, st: LineState): (r: (LineState, LineEndType))
    requires st.cursor.Valid()
    ensures r.0.cursor.Valid()
    decreases |st.lookahead|
  {
    match Step(cw, a, st)
    case Continue(next) => Processed(cw, a, next)
    case Done(last, end) => (last, end)
  }

  class LineElementParser {
    /** The text after the token being handled. */
    var lookahead: string
    var cursor: LineCursor
    /** The text before the token being handled (`*self.parser`). */
    var parser: string
    var spaces: SpaceConfig
    const alignment: HorizontalAlignment
    /** Nothing has been printed on this line yet. */
    var empty: bool

    ghost predicate Valid()
      reads this
    {
      cursor.Valid()
    }

    function State(h: ElementHandler): LineState
      reads this, h
    {
      LineState(parser, lookahead, cursor, spaces, empty, h.events)
    }

    constructor (parser: string, cursor: LineCursor, spaces: SpaceConfig, alignment: HorizontalAlignment)
      requires cursor.Valid()
      ensures Valid()
      ensures this.parser == parser && lookahead == parser && empty
      ensures this.cursor == cursor && this.spaces == spaces && this.alignment == alignment
    {
      lookahead := parser;
      this.parser := parser;
      this.spaces := spaces;
      this.cursor := cursor;
      this.alignment := alignment;
      empty := true;
    }

    method NextWordWidth(h: ElementHandler) returns (width: Option<nat>)
      ensures width == WordWidthAhead(h.charWidth, lookahead, None)
    {
      width := None;
      var la := lookahead;
      while true
        invariant WordWidthAhead(h.charWidth, la, width) == WordWidthAhead(h.charWidth, lookahead, None)
        decreases |la|
      {
        var next := T.Lex(la);
        if next.None? {
          break;
        }
        var l := next.value;
        match l.token {
          case Word(w) =>
            width := Some(Plus(width, h.Measure(w)));
            la := la[l.len..];
          case Break(c, _) =>
            width := Some(Plus(width, h.Measure(c)));
            break;
          case _ =>
            break;
        }
      }
    }

    method MoveCursor(delta: nat) returns (r: Move)
      requires Valid()
      modifies this`cursor
      ensures Valid()
      ensures r == old(cursor).MoveCursor(delta)
      ensures cursor == (if r.Ok? then r.cursor else old(cursor))
    {
      r := cursor.MoveCursor(delta);
      if r.Ok? {
        cursor := r.cursor;
      }
    }

    method LongestFittingSubstr(h: ElementHandler, w: string) returns (prefix: string, rest: Option<string>)
      requires Valid()
      ensures prefix == w[..FittingPrefixLen(h.charWidth, w, cursor.Space())]
      ensures rest.None? <==> prefix == w
      ensures rest.Some? ==> rest.value == w[|prefix|..]
    {
      var width := 0;
      var idx := 0;
      assert w[..0] == [];
      while idx < |w|
        invariant 0 <= idx <= |w|
        invariant width == TextWidth(h.charWidth, w[..idx]) <= cursor.Space()
        invariant FitFrom(h.charWidth, w, cursor.Space(), idx) == FittingPrefixLen(h.charWidth, w, cursor.Space())
        decreases |w| - idx
      {
        var charWidth := h.Measure([w[idx]]);
        assert w[..idx + 1][..idx] == w[..idx];
        if !cursor.FitsInLine(width + charWidth) {
          return w[..idx], Some(w[idx..]);
        }
        width := width + charWidth;
        idx := idx + 1;
      }
      assert w[..|w|] == w;
      return w, None;
    }

    method NextWordFits(h: ElementHandler) returns (fits: bool)
      requires Valid()
      ensures fits == WordFitsAhead(h.charWidth, parser, cursor, spaces)
    {
      var la := parser;
      var cur := cursor;
      var sp := spaces;
      var exit := false;
      while !exit
        invariant cur.Valid()
        invariant !exit ==> WordFitsAhead(h.charWidth, la, cur, sp) == WordFitsAhead(h.charWidth, parser, cursor, spaces)
        invariant exit ==> WordFitsAhead(h.charWidth, parser, cursor, spaces)
        decreases |la|
      {
        var next := T.Lex(la);
        if next.None? {
          return false;
        }
        var l := next.value;
        var width;
        match l.token {
          case Word(w) =>
            exit := true;
            width := h.Measure(w);
          case Break(c, _) =>
            exit := true;
            width := h.Measure(c);
          case Whitespace(n, _) =>
            var r := sp.Consume(n);
            width, sp := r.0, r.1;
          case Tab =>
            width := cur.NextTabWidth();
          case _ =>
            return false;
        }
        var m := cur.MoveCursor(width);
        if m.Err? {
          return false;
        }
        cur := m.cursor;
        la := la[l.len..];
      }
      return true;
    }

    method DrawWhitespace(h: ElementHandler, s: string, count: nat, spaceWidth: nat)
      requires Valid() && count >= 1
      requires |s| <= |parser| && lookahead == parser[|s|..]
      modifies this, h
      ensures Valid()
      ensures State(h) == WhitespaceDrawn(h.charWidth, alignment, old(State(h)), s, count, spaceWidth)
    {
      if empty && !RenderLeadingSpaces(alignment) {
        return;
      }
      var fits := NextWordFits(h);
      var draw := (empty && RenderLeadingSpaces(alignment)) || RenderTrailingSpaces() || fits;
      var m := MoveCursor(spaceWidth);
      match m {
        case Ok(moved, _) =>
          if draw {
            h.Whitespace(count, moved);
          } else {
            h.MoveCursor(moved);
          }
        case Err(moved) =>
          var single := spaceWidth / count;
          var consumed := if single == 0 then 0 else moved / single;
          if consumed > 0 {
            h.Whitespace(consumed, consumed * single);
          }
          ConsumeStr(s);
      }
    }

    method DrawTab(h: ElementHandler, spaceWidth: nat)
      requires Valid()
      modifies this, h
      ensures Valid()
      ensures State(h) == TabDrawn(h.charWidth, alignment, old(State(h)), spaceWidth)
    {
      if empty && !RenderLeadingSpaces(alignment) {
        return;
      }
      var fits := NextWordFits(h);
      var draw := (empty && RenderLeadingSpaces(alignment)) || RenderTrailingSpaces() || fits;
      var m := MoveCursor(spaceWidth);
      match m {
        case Ok(moved, _) =>
          if draw {
            h.Whitespace(1, moved);
          } else {
            h.MoveCursor(moved);
          }
        case Err(moved) =>
          h.MoveCursor(moved);
      }
    }

    method PeekNextToken() returns (t: Option<T.Token>)
      modifies this`parser, this`lookahead
      ensures parser == old(lookahead)
      ensures T.Lex(parser).None? ==> t.None? && lookahead == parser
      ensures T.Lex(parser).Some? ==>
        t == Some(T.Lex(parser).value.token) && lookahead == parser[T.Lex(parser).value.len..]
    {
      ConsumeToken();
      match T.Lex(lookahead) {
        case None =>
          t := None;
        case Some(l) =>
          t := Some(l.token);
          lookahead := lookahead[l.len..];
      }
    }

    method ConsumeToken()
      modifies this`parser
      ensures parser == lookahead
    {
      parser := lookahead;
    }

    method ConsumeStr(s: string)
      requires |s| <= |parser|
      modifies this`parser, this`lookahead
      ensures parser == old(parser)[|s|..] && lookahead == parser
    {
      parser := parser[|s|..];
      lookahead := parser;
    }

    /** Lays out one line; returns why it ended. */
    method Process(h: ElementHandler) returns (end: LineEndType)
      requires Valid()
      modifies this, h
      ensures Valid()
      ensures (State(h), end) == Processed(h.charWidth, alignment, old(State(h)))
    {
      ghost var target := Processed(h.charWidth, alignment, State(h));
      while true
        invariant Valid()
        invariant Processed(h.charWidth, alignment, State(h)) == target
        decreases |lookahead|
      {
        ghost var before := State(h);
        var token := PeekNextToken();
        if token.None? {
          break;
        }
        var done;
        done, end := ProcessToken(h, token.value);
        if done {
          return end;
        }
      }
      ConsumeToken();
      return EndOfText;
    }

    /** One arm of the `process` loop, for the token just read. */
    method ProcessToken(h: ElementHandler, token: T.Token) returns (done: bool, end: LineEndType)
      requires Valid() && TokenAhead(State(h), token)
      modifies this, h
      ensures Valid()
      ensures TokenStep(h.charWidth, alignment, old(State(h)), token)
        == if done then Done(State(h), end) else Continue(State(h))
    {
      done, end := false, LineBreak;
      match token {
        case Whitespace(n, s) =>
          var r := spaces.Consume(n);
          spaces := r.1;
          DrawWhitespace(h, s, n, r.0);
        case Tab =>
          DrawTab(h, cursor.NextTabWidth());
        case Break(c, _) =>
          done := ProcessBreak(h, c);
        case Word(w) =>
          done := ProcessWordToken(h, w);
        case CarriageReturn =>
          ConsumeToken();
          return true, CarriageReturn;
        case NewLine =>
          ConsumeToken();
          return true, NewLine;
      }
    }

    /** The soft hyphen arm of `process`; true when the line ends. */
    method ProcessBreak(h: ElementHandler, c: string) returns (done: bool)
      requires Valid()
      modifies this, h
      ensures Valid()
      ensures BreakStep(h.charWidth, old(State(h)), c)
        == if done then Done(State(h), LineBreak) else Continue(State(h))
    {
      var wordWidth := NextWordWidth(h);
      if wordWidth.Some? && (!cursor.FitsInLine(wordWidth.value) || empty) {
        var width := h.Measure(c);
        var m := MoveCursor(width);
        if m.Ok? {
          h.PrintedCharacters(c, width);
          ConsumeToken();
        }
        if !empty {
          return true;
        }
      }
      return false;
    }

    /** The word arm of `process`; true when the line ends. */
    method ProcessWordToken(h: ElementHandler, w: string) returns (done: bool)
      requires Valid() && |w| <= |parser|
      modifies this, h
      ensures Valid()
      ensures WordStep(h.charWidth, old(State(h)), w)
        == if done then Done(State(h), LineBreak) else Continue(State(h))
    {
      var width := h.Measure(w);
      var m := MoveCursor(width);
      var word, remainder;
      if m.Ok? {
        word, remainder := w, None;
      } else if empty {
        word, remainder := LongestFittingSubstr(h, w);
        if word == [] {
          ConsumeToken();
          return true;
        }
      } else {
        return true;
      }
      empty := false;
      ProcessWord(h, word);
      if remainder.Some? {
        ConsumeStr(word);
        return true;
      }
      return false;
    }

    /** The part of `process_word` before the recursive call: the piece
        before the non-breaking space at `p`, if any, then one space. */
    method PrintUpToNbsp(h: ElementHandler, w: string, p: nat)
      requires p < |w|
      modifies this`spaces, h
      ensures h.events == old(h.events)
        + (if p != 0 then [PrintedCharacters(w[..p], TextWidth(h.charWidth, w[..p]))] else [])
        + [Whitespace(1, old(spaces).Consume(1).0)]
      ensures spaces == old(spaces).Consume(1).1
    {
      if p != 0 {
        var word := w[..p];
        h.PrintedCharacters(word, h.Measure(word));
      }
      var r := spaces.Consume(1);
      spaces := r.1;
      h.Whitespace(1, r.0);
    }

    /** Prints `w`, drawing each non-breaking space in it as a space. */
    method ProcessWord(h: ElementHandler, w: string)
      modifies this`spaces, h
      ensures h.events == old(h.events) + WordPrinted(h.charWidth, old(spaces), w).0
      ensures spaces == WordPrinted(h.charWidth, old(spaces), w).1
      decreases |w|
    {
      var found := IndexOfNbsp(w);
      if found.Some? {
        var p := found.value;
        WordPrintedAt(h.charWidth, spaces, w, p);
        ghost var events0 := h.events;
        ghost var head := (if p != 0 then [PrintedCharacters(w[..p], TextWidth(h.charWidth, w[..p]))] else [])
          + [Whitespace(1, spaces.Consume(1).0)];
        ghost var tail := WordPrinted(h.charWidth, spaces.Consume(1).1, w[p + 1..]).0;
        PrintUpToNbsp(h, w, p);
        assert h.events == events0 + head;
        ProcessWord(h, w[p + 1..]);
        assert h.events == events0 + (head + tail);
      } else {
        h.PrintedCharacters(w, h.Measure(w));
      }
    }
  }
}
