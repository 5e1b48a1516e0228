/** The token stream that src/rendering/line_iter.rs and src/plugin/mod.rs
    read. Their revision of the tokenizer adds tab and soft-hyphen tokens and
    keeps the raw text of whitespace runs; that tokenizer is not part of this
    model, so `Lex` below follows src/parser.rs with two additions: '\t' is
    a Tab token and U+00AD (soft hyphen) is a Break token drawn as "-". */
module TextTokens {
  import opened Wrappers
  import P = Parser

  const SOFT_HYPHEN: char := '\U{00AD}'

  /** The glyph drawn when a soft hyphen break is taken. */
  const HYPHEN: string := "-"

  datatype Token =
    | NewLine
    | CarriageReturn
      /** `count` space characters and the text they were read from. */
    | Whitespace(count: nat, chars: string)
    | Tab
    | Word(text: string)
      /** A soft hyphen: the glyph to draw if the line breaks here, and the
          original (invisible) text. */
    | Break(glyph: string, original: string)

  datatype Lexeme = Lexeme(token: Token, len: nat)

  /** A character of a whitespace run: a space character other than a tab. */
  predicate IsSpace(c: char) {
    P.IsSpaceChar(c) && c != '\t'
  }

  /** A character of a word: a word character other than a soft hyphen. */
  predicate IsWordChar(c: char) {
    P.IsWordChar(c) && c != SOFT_HYPHEN
  }

  /** The token at the front of `s` and the number of characters it spans. */
  function Lex(s: string): (r: Option<Lexeme>)
    ensures r.None? <==> s == []
    ensures r.Some? ==> 1 <= r.value.len <= |s|
    ensures r.Some? && r.value.token.Whitespace? ==>
      && r.value.token.count == r.value.len
      && r.value.token.chars == s[..r.value.len]
      && (forall k :: 0 <= k < r.value.len ==> IsSpace(s[k]))
      && (r.value.len < |s| ==> !IsSpace(s[r.value.len]))
    ensures r.Some? && r.value.token.Word? ==>
      && r.value.token.text == s[..r.value.len]
      && (forall k :: 0 <= k < r.value.len ==> IsWordChar(s[k]))
      && (r.value.len < |s| ==> !IsWordChar(s[r.value.len]))
    ensures r.Some? && r.value.token.Break? ==>
      r.value == Lexeme(Break(HYPHEN, [SOFT_HYPHEN]), 1) && s[0] == SOFT_HYPHEN
    ensures r.Some? && (r.value.token.NewLine? || r.value.token.CarriageReturn? || r.value.token.Tab?) ==>
      r.value.len == 1
  {
    if s == [] then None
    else if s[0] == '\n' then Some(Lexeme(NewLine, 1))
    else if s[0] == '\r' then Some(Lexeme(CarriageReturn, 1))
    else if s[0] == '\t' then Some(Lexeme(Tab, 1))
    else if s[0] == SOFT_HYPHEN then Some(Lexeme(Break(HYPHEN, [SOFT_HYPHEN]), 1))
    else if IsSpace(s[0]) then
      var n := P.Run(s, IsSpace);
      Some(Lexeme(Whitespace(n, s[..n]), n))
    else
      var n := P.Run(s, IsWordChar);
      Some(Lexeme(Word(s[..n]), n))
  }

  /** The token at the front of `s`, as `Parser::next` returns it. */
  function NextToken(s: string): (t: Option<Token>)
    ensures t.None? <==> s == []
  {
    match Lex(s)
    case None => None
    case Some(l) => Some(l.token)
  }

  /** The text left after `k` tokens are read from `s` (fewer if it runs out). */
  function AdvanceBy(s: string, k: nat): (r: string)
    ensures |r| <= |s| && r == s[|s| - |r|..]
    ensures k > 0 && s != [] ==> |r| < |s|
    decreases k
  {
    if k == 0 then s
    else match Lex(s)
      case None => s
      case Some(l) =>
        var r := AdvanceBy(s[l.len..], k - 1);
        assert s[l.len..][|s[l.len..]| - |r|..] == s[|s| - |r|..];
        r
  }

  /** A token source that is advanced in place (`&mut Parser`). */
  class Parser {
    var rest: string

    constructor Parse(text: string)
      ensures rest == text
    {
      rest := text;
    }
  }
}
