/** The middleware wrapper of src/middleware.rs. A middleware is user code
    that sees every token before the layout does and may replace it; the
    wrapper keeps the token it last peeked, with the length of text it
    stands for, until the layout consumes or replaces it. The middleware's
    own behaviour is a parameter: the wrapper is given each of its trait
    methods as a function of its state. */
module Middleware {
  import opened Wrappers
  import T = TextTokens

  datatype ProcessingState = Measure | Render

  /** What a `next_token` hook did: the middleware state after it, the
      token it produced and how many tokens it pulled from the text. */
  datatype Pull<M> = Pull(middleware: M, token: Option<T.Token>, pulled: nat)

  /** The middleware hands on the text's own tokens, one per call, and
      keeps its state: the trait's default `next_token`. */
  ghost predicate PassesTokensThrough<M(!new)>(nextToken: (M, string) -> Pull<M>) {
    forall m: M, s: string :: nextToken(m, s) == Pull(m, T.NextToken(s), 1)
  }

  lemma PassedThrough<M(!new)>(nextToken: (M, string) -> Pull<M>, m: M, s: string)
    requires PassesTokensThrough(nextToken)
    ensures nextToken(m, s).token == T.NextToken(s) && nextToken(m, s).pulled == 1
  {
  }

  /** The default `next_token`, which `NoMiddleware` uses. */
  function DefaultNextToken<M>(m: M, s: string): (p: Pull<M>)
    ensures p.middleware == m && p.pulled == 1
    ensures p.token.Some? <==> s != []
  {
    Pull(m, T.NextToken(s), 1)
  }

  lemma NoMiddlewarePassesTokensThrough<M(!new)>()
    ensures PassesTokensThrough<M>(DefaultNextToken)
  {
  }

  /** The middleware renders every token as it is and keeps its state:
      the trait's default `render_token`. */
  ghost predicate RendersTokensUnchanged<M(!new)>(renderToken: (M, T.Token) -> (M, Option<T.Token>)) {
    forall m: M, t: T.Token :: renderToken(m, t) == (m, Some(t))
  }

  /** The default `render_token`, which `NoMiddleware` uses. */
  function DefaultRenderToken<M>(m: M, t: T.Token): (M, Option<T.Token>) {
    (m, Some(t))
  }

  lemma NoMiddlewareRendersTokensUnchanged<M(!new)>()
    ensures RendersTokensUnchanged<M>(DefaultRenderToken)
  {
  }

  /** The wrapper around a middleware whose trait methods are given as
      functions of its state (`post_render` draws and is not part of this
      model). */
  class MiddlewareWrapper<M(!new)> {
    const newLineHook: M -> M
    const nextTokenHook: (M, string) -> Pull<M>
    const renderTokenHook: (M, T.Token) -> (M, Option<T.Token>)
    const onStartRenderHook: M -> M
    /** The middleware state that peeking works on. */
    var lookahead: M
    /** The middleware state as of the last consumed token. */
    var middleware: M
    var state: ProcessingState
    /** The peeked token and the number of characters it stands for. */
    var peekedLen: nat
    var peeked: Option<T.Token>

    constructor (newLine: M -> M, nextToken: (M, string) -> Pull<M>,
                 renderToken: (M, T.Token) -> (M, Option<T.Token>), onStartRender: M -> M,
                 middleware: M)
      ensures newLineHook == newLine && nextTokenHook == nextToken
      ensures renderTokenHook == renderToken && onStartRenderHook == onStartRender
      ensures this.middleware == middleware && lookahead == middleware
      ensures state == Measure && peekedLen == 0 && peeked == None
    {
      newLineHook := newLine;
      nextTokenHook := nextToken;
      renderTokenHook := renderToken;
      onStartRenderHook := onStartRender;
      lookahead := middleware;
      this.middleware := middleware;
      state := Measure;
      peekedLen := 0;
      peeked := None;
    }

    /** Forgets the peeked token and starts a line in the middleware. */
    method NewLine()
      modifies this
      ensures peekedLen == 0 && peeked == None
      ensures middleware == newLineHook(old(middleware)) && lookahead == middleware
      ensures state == old(state)
    {
      peekedLen := 0;
      peeked := None;
      middleware := newLineHook(middleware);
      lookahead := middleware;
    }

    method SetState(state: ProcessingState)
      modifies this`state
      ensures this.state == state
    {
      this.state := state;
    }

    /** While measuring, tokens pass unchanged; while rendering, the
        middleware may change them. */
    method RenderToken(token: T.Token) returns (r: Option<T.Token>)
      modifies this`lookahead
      ensures state == Measure ==> r == Some(token) && lookahead == old(lookahead)
      ensures state == Render ==> (lookahead, r) == renderTokenHook(old(lookahead), token)
      ensures RendersTokensUnchanged(renderTokenHook) ==> r == Some(token) && lookahead == old(lookahead)
    {
      match state {
        case Measure =>
          r := Some(token);
        case Render =>
          var out := renderTokenHook(lookahead, token);
          lookahead, r := out.0, out.1;
      }
    }

    /** The next token: the one already peeked, or a new one from the
        middleware, which reads a copy of `source`; `source` itself is
        never advanced here. */
    method PeekToken(source: T.Parser) returns (t: Option<T.Token>)
      modifies this`peeked, this`peekedLen, this`lookahead
      ensures old(peeked).Some? ==>
        t == peeked == old(peeked) && peekedLen == old(peekedLen) && lookahead == old(lookahead)
      ensures old(peeked).None? ==>
        var p := nextTokenHook(old(lookahead), source.rest);
        && t == peeked == p.token
        && lookahead == p.middleware
        && peekedLen <= |source.rest|
        && source.rest[peekedLen..] == T.AdvanceBy(source.rest, p.pulled)
    {
      if peeked.None? {
        var p := nextTokenHook(lookahead, source.rest);
        var cloned := T.AdvanceBy(source.rest, p.pulled);
        lookahead := p.middleware;
        peeked := p.token;
        peekedLen := |source.rest| - |cloned|;
      }
      t := peeked;
    }

    /** Advances `source` past the peeked token and keeps the middleware
        state the peek produced. */
    method ConsumePeekedToken(source: T.Parser)
      requires peekedLen <= |source.rest|
      modifies this, source
      ensures source.rest == old(source.rest)[old(peekedLen)..]
      ensures peekedLen == 0 && peeked == None
      ensures middleware == lookahead == old(lookahead)
      ensures state == old(state)
    {
      source.rest := source.rest[peekedLen..];
      peekedLen := 0;
      peeked := None;
      middleware := lookahead;
    }

    /** Replaces the peeked token by the part of it the layout did not
        take, and undoes what peeking did to the middleware state. */
    method ReplacePeekedToken(len: nat, token: T.Token)
      modifies this
      ensures peekedLen == len && peeked == Some(token)
      ensures lookahead == middleware == old(middleware)
      ensures state == old(state)
    {
      peekedLen := len;
      peeked := Some(token);
      lookahead := middleware;
    }

    method OnStartRender()
      modifies this
      ensures peekedLen == 0 && peeked == None
      ensures middleware == onStartRenderHook(old(middleware))
      ensures lookahead == old(lookahead) && state == old(state)
    {
      peekedLen := 0;
      peeked := None;
      middleware := onStartRenderHook(middleware);
    }
  }

  /** Peeking and then consuming advances the text by exactly the tokens
      the middleware pulled; a middleware that passes tokens through
      yields the text's next token and advances past it. */
  method PeekThenConsume<M(!new)>(w: MiddlewareWrapper<M>, source: T.Parser) returns (t: Option<T.Token>)
    requires w.peeked.None?
    modifies w, source
    ensures var p := w.nextTokenHook(old(w.lookahead), old(source.rest));
      && t == p.token
      && source.rest == T.AdvanceBy(old(source.rest), p.pulled)
      && w.middleware == w.lookahead == p.middleware
    ensures PassesTokensThrough(w.nextTokenHook) ==>
      t == T.NextToken(old(source.rest)) && source.rest == T.AdvanceBy(old(source.rest), 1)
  {
    ghost var text := source.rest;
    ghost var p := w.nextTokenHook(w.lookahead, text);
    t := w.PeekToken(source);
    w.ConsumePeekedToken(source);
    assert source.rest == T.AdvanceBy(text, p.pulled);
    if PassesTokensThrough(w.nextTokenHook) {
      PassedThrough(w.nextTokenHook, old(w.lookahead), text);
      assert p.pulled == 1 && t == T.NextToken(text);
      assert source.rest == T.AdvanceBy(text, 1);
    }
  }

  /** With the default hooks, the wrapper hands the layout exactly the
      text's own tokens: peeking, consuming and rendering one token yields
      the next token of the text, in both phases, and advances past it. */
  method NextRenderedToken<M(!new)>(w: MiddlewareWrapper<M>, source: T.Parser) returns (t: Option<T.Token>)
    requires w.peeked.None?
    requires PassesTokensThrough(w.nextTokenHook) && RendersTokensUnchanged(w.renderTokenHook)
    modifies w, source
    ensures t == T.NextToken(old(source.rest))
    ensures source.rest == T.AdvanceBy(old(source.rest), 1)
  {
    var peeked := PeekThenConsume(w, source);
    match peeked {
      case None =>
        t := None;
      case Some(token) =>
        t := w.RenderToken(token);
    }
  }
}
