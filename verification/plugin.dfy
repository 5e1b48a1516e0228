/** The plugin wrapper of src/plugin/mod.rs, the successor of the
    middleware wrapper. A plugin pulls tokens straight from the text (the
    text advances as it reads), the wrapper caches the token it produced
    until the layout consumes it, and the layout may take only the first
    characters of a cached word or whitespace token. The plugin's own
    behaviour is a parameter: the wrapper is given each of its trait
    methods as a function of its state. */
module Plugin {
  import opened Wrappers
  import T = TextTokens
  import MW = Middleware

  /** The text left after its first `n` characters, or nothing when it is
      shorter (`skip_chars`). */
  function SkipChars(s: string, n: nat): (r: string)
    ensures |r| == if n <= |s| then |s| - n else 0
    ensures r == s[|s| - |r|..]
  {
    if n <= |s| then s[n..] else []
  }

  /** A word or whitespace token can be consumed in part; the whitespace
      count is an unsigned subtraction, so `len` may not exceed it. */
  predicate CanConsumePartially(t: T.Token, len: nat) {
    t.Word? || (t.Whitespace? && len <= t.count)
  }

  /** The token left when the layout has taken the first `len` characters
      of `t`. */
  function Remainder(t: T.Token, len: nat): (r: T.Token)
    requires CanConsumePartially(t, len)
    ensures t.Word? ==> r.Word? && r.text == SkipChars(t.text, len)
    ensures t.Whitespace? ==> r.Whitespace? && r.count + len == t.count && r.chars == SkipChars(t.chars, len)
  {
    match t
    case Whitespace(count, s) => T.Whitespace(count - len, SkipChars(s, len))
    case Word(w) => T.Word(SkipChars(w, len))
  }

  /** Taking nothing leaves the token as it was. */
  lemma RemainderOfNothing(t: T.Token)
    requires t.Word? || t.Whitespace?
    ensures Remainder(t, 0) == t
  {
    match t
    case Word(w) => assert w[0..] == w;
    case Whitespace(_, s) => assert s[0..] == s;
  }

  /** Taking `a` characters and then `b` more is taking `a + b`. */
  lemma RemainderComposes(t: T.Token, a: nat, b: nat)
    requires CanConsumePartially(t, a + b)
    ensures CanConsumePartially(Remainder(t, a), b)
    ensures Remainder(Remainder(t, a), b) == Remainder(t, a + b)
  {
    match t
    case Word(w) =>
      if a + b <= |w| {
        assert w[a..][b..] == w[a + b..];
      }
    case Whitespace(_, s) =>
      if a + b <= |s| {
        assert s[a..][b..] == s[a + b..];
      }
  }

  /** A whitespace token whose text has one character per counted space
      keeps that property when part of it is taken. */
  lemma RemainderKeepsWhitespaceText(t: T.Token, len: nat)
    requires t.Whitespace? && |t.chars| == t.count && len <= t.count
    ensures Remainder(t, len).Whitespace?
    ensures |Remainder(t, len).chars| == Remainder(t, len).count
  {
  }

  class PluginWrapper<M> {
    const newLineHook: M -> M
    const nextTokenHook: (M, string) -> MW.Pull<M>
    const renderTokenHook: (M, T.Token) -> (M, Option<T.Token>)
    const onStartRenderHook: M -> M
    const onRenderingFinishedHook: M -> M
    var plugin: M
    var state: MW.ProcessingState
    var peeked: Option<T.Token>

    constructor (newLine: M -> M, nextToken: (M, string) -> MW.Pull<M>,
                 renderToken: (M, T.Token) -> (M, Option<T.Token>),
                 onStartRender: M -> M, onRenderingFinished: M -> M, plugin: M)
      ensures newLineHook == newLine && nextTokenHook == nextToken
      ensures renderTokenHook == renderToken && onStartRenderHook == onStartRender
      ensures onRenderingFinishedHook == onRenderingFinished
      ensures this.plugin == plugin && state == MW.Measure && peeked == None
    {
      newLineHook := newLine;
      nextTokenHook := nextToken;
      renderTokenHook := renderToken;
      onStartRenderHook := onStartRender;
      onRenderingFinishedHook := onRenderingFinished;
      this.plugin := plugin;
      state := MW.Measure;
      peeked := None;
    }

    /** The plugin, handed back to the caller. */
    function IntoInner(): (m: M)
      reads this
      ensures m == plugin
    {
      plugin
    }

    /** Starts a line in the plugin; the cached token stays. */
    method NewLine()
      modifies this`plugin
      ensures plugin == newLineHook(old(plugin))
    {
      plugin := newLineHook(plugin);
    }

    method SetState(state: MW.ProcessingState)
      modifies this`state
      ensures this.state == state
    {
      this.state := state;
    }

    /** While measuring, tokens pass unchanged; while rendering, the
        plugin may change them. */
    method RenderToken(token: T.Token) returns (r: Option<T.Token>)
      modifies this`plugin
      ensures state == MW.Measure ==> r == Some(token) && plugin == old(plugin)
      ensures state == MW.Render ==> (plugin, r) == renderTokenHook(old(plugin), token)
    {
      match state {
        case Measure =>
          r := Some(token);
        case Render =>
          var out := renderTokenHook(plugin, token);
          plugin, r := out.0, out.1;
      }
    }

    /** The next token: the cached one, leaving the text and the plugin as
        they are, or a new one from the plugin, which advances the text by
        the tokens it pulls. */
    method PeekToken(source: T.Parser) returns (t: Option<T.Token>)
      modifies this`peeked, this`plugin, source`rest
      ensures old(peeked).Some? ==>
        t == peeked == old(peeked) && plugin == old(plugin) && source.rest == old(source.rest)
      ensures old(peeked).None? ==>
        var p := nextTokenHook(old(plugin), old(source.rest));
        && t == peeked == p.token
        && plugin == p.middleware
        && source.rest == T.AdvanceBy(old(source.rest), p.pulled)
    {
      if peeked.None? {
        var p := nextTokenHook(plugin, source.rest);
        source.rest := T.AdvanceBy(source.rest, p.pulled);
        plugin := p.middleware;
        peeked := p.token;
      }
      t := peeked;
    }

    method ConsumePeekedToken()
      modifies this`peeked
      ensures peeked == None
    {
      if peeked.Some? {
        peeked := None;
      }
    }

    /** The layout took the first `len` characters of the cached token; the
        rest stays cached. */
    method ConsumePartial(len: nat)
      requires peeked.Some? && CanConsumePartially(peeked.value, len)
      modifies this`peeked
      ensures peeked == Some(Remainder(old(peeked).value, len))
    {
      var token := peeked.value;
      peeked := None;
      match token {
        case Whitespace(count, s) =>
          token := T.Whitespace(count - len, SkipChars(s, len));
        case Word(w) =>
          token := T.Word(SkipChars(w, len));
      }
      peeked := Some(token);
    }

    /** Forgets the cached token and lets the plugin prepare for drawing. */
    method OnStartRender()
      modifies this`peeked, this`plugin
      ensures peeked == None
      ensures plugin == onStartRenderHook(old(plugin))
    {
      peeked := None;
      plugin := onStartRenderHook(plugin);
    }

    method OnRenderingFinished()
      modifies this`plugin
      ensures plugin == onRenderingFinishedHook(old(plugin))
    {
      plugin := onRenderingFinishedHook(plugin);
    }
  }
}
