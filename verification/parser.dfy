/** The tokenizer of src/parser.rs. It reads a text one character at a time
    and cuts it into newlines, carriage returns, runs of space characters
    and words. A non-breaking space (U+00A0) is a word character. */
module Parser {
  import opened Wrappers

  const NBSP: char := '\U{00A0}'

  /** Rust's `char::is_whitespace`: the characters with the Unicode
      White_Space property. */
  predicate IsWhitespace(c: char) {
    ('\U{0009}' <= c <= '\U{000D}') || c == ' ' || c == '\U{0085}' || c == NBSP
    || c == '\U{1680}' || ('\U{2000}' <= c <= '\U{200A}') || c == '\U{2028}'
    || c == '\U{2029}' || c == '\U{202F}' || c == '\U{205F}' || c == '\U{3000}'
  }

  /** A character that belongs to a word: anything but whitespace, and NBSP. */
  predicate IsWordChar(c: char) {
    !IsWhitespace(c) || c == NBSP
  }

  /** A character that belongs to a whitespace run: whitespace other than
      '\n', '\r' and NBSP. */
  predicate IsSpaceChar(c: char) {
    IsWhitespace(c) && c != '\n' && c != '\r' && c != NBSP
  }

  /** A word character is neither a space character nor a line ending. */
  lemma WordCharIsNotSpace(c: char)
    requires IsWordChar(c)
    ensures !IsSpaceChar(c) && c != '\n' && c != '\r'
  {
  }

  /** The two classes and the two line endings split the characters: each
      character is exactly one of a word character, a space character,
      '\n' and '\r'. NBSP is a word character although it is whitespace. */
  lemma CharClasses(c: char)
    ensures IsWordChar(c) <==> !IsSpaceChar(c) && c != '\n' && c != '\r'
    ensures IsSpaceChar(c) ==> c != '\n' && c != '\r'
    ensures IsWordChar(NBSP) && IsWhitespace(NBSP) && !IsSpaceChar(NBSP)
  {
  }

  /** ' ' is a space character, not a word character. */
  lemma SpaceIsSpaceChar()
    ensures IsSpaceChar(' ') && !IsWordChar(' ')
  {
  }

  datatype Token =
    | NewLine
    | CarriageReturn
      /** A number of consecutive space characters. */
    | Whitespace(count: nat)
      /** A run of word characters, verbatim. */
    | Word(text: string)

  /** A token with the number of characters it was read from. */
  datatype Lexeme = Lexeme(token: Token, len: nat)

  /** The length of the longest prefix of `s` whose characters all satisfy `p`. */
  function Run(s: string, p: char -> bool): (n: nat)
    ensures n <= |s|
    ensures forall k :: 0 <= k < n ==> p(s[k])
    ensures n < |s| ==> !p(s[n])
    decreases |s|
  {
    if s != [] && p(s[0]) then 1 + Run(s[1..], p) else 0
  }

  /** What `Parser::next` reads from the front of `s`: None at the end of
      the text, otherwise the token and how many characters it spans. */
  function Lex(s: string): (r: Option<Lexeme>)
    ensures r.None? <==> s == []
    ensures r.Some? ==> 1 <= r.value.len <= |s|
    ensures s != [] && s[0] == '\n' ==> r == Some(Lexeme(NewLine, 1))
    ensures s != [] && s[0] == '\r' ==> r == Some(Lexeme(CarriageReturn, 1))
    ensures r.Some? && r.value.token.Whitespace? ==>
      && IsSpaceChar(s[0])
      && r.value.token.count == r.value.len
      && (forall k :: 0 <= k < r.value.len ==> IsSpaceChar(s[k]))
      && (r.value.len < |s| ==> !IsSpaceChar(s[r.value.len]))
    ensures r.Some? && r.value.token.Word? ==>
      && r.value.token.text == s[..r.value.len]
      && (forall k :: 0 <= k < r.value.len ==> IsWordChar(s[k]))
      && (r.value.len < |s| ==> !IsWordChar(s[r.value.len]))
    ensures s != [] && IsSpaceChar(s[0]) ==> r.value.token.Whitespace?
    ensures s != [] && IsWordChar(s[0]) ==> r.value.token.Word?
  {
    if s == [] then None
    else if s[0] == '\n' then Some(Lexeme(NewLine, 1))
    else if s[0] == '\r' then Some(Lexeme(CarriageReturn, 1))
    else if IsSpaceChar(s[0]) then
      var n := Run(s, IsSpaceChar);
      Some(Lexeme(Whitespace(n), n))
    else
      var n := Run(s, IsWordChar);
      Some(Lexeme(Word(s[..n]), n))
  }

  /** The text left after the token at the front of `s` is read. */
  function Advance(s: string): string {
    match Lex(s)
    case None => s
    case Some(l) => s[l.len..]
  }

  /** The whole token sequence of a text, as `Parser::parse(s).collect()`. */
  function Tokenize(s: string): seq<Token>
    decreases |s|
  {
    match Lex(s)
    case None => []
    case Some(l) => [l.token] + Tokenize(s[l.len..])
  }

  /** The number of input characters a token stands for. */
  function Span(t: Token): nat {
    match t
    case Whitespace(n) => n
    case Word(w) => |w|
    case _ => 1
  }

  /** `piece` is text that `t` stands for: the word itself, `count` space
      characters, or the one line-ending character. */
  predicate StandsFor(t: Token, piece: string) {
    match t
    case NewLine => piece == "\n"
    case CarriageReturn => piece == "\r"
    case Whitespace(n) => |piece| == n && forall k :: 0 <= k < n ==> IsSpaceChar(piece[k])
    case Word(w) => piece == w
  }

  /** The tokens `ts`, in order, account for every character of `s`. */
  predicate Spells(ts: seq<Token>, s: string)
    decreases |ts|
  {
    if ts == [] then s == []
    else
      && Span(ts[0]) <= |s|
      && StandsFor(ts[0], s[..Span(ts[0])])
      && Spells(ts[1..], s[Span(ts[0])..])
  }

  /** Lossless tokenization: the tokens of a text account for all of its
      characters, in order. */
  lemma {:induction false} TokenizeSpellsText(s: string)
    ensures Spells(Tokenize(s), s)
    decreases |s|
  {
    match Lex(s)
    case None =>
    case Some(l) =>
      TokenizeSpellsText(s[l.len..]);
      var ts := Tokenize(s);
      assert ts[0] == l.token && ts[1..] == Tokenize(s[l.len..]);
      assert Span(l.token) == l.len;
  }

  /** A run over a text whose characters all satisfy `p` is the whole text. */
  lemma {:induction false} RunWhole(s: string, p: char -> bool)
    requires forall k :: 0 <= k < |s| ==> p(s[k])
    ensures Run(s, p) == |s|
    decreases |s|
  {
    if s != [] {
      assert p(s[0]);
      assert forall k :: 0 <= k < |s| - 1 ==> s[1..][k] == s[k + 1];
      RunWhole(s[1..], p);
    }
  }

  /** A text that starts with a word character starts with a word: the
      longest run of word characters. */
  lemma LexWord(s: string)
    requires s != [] && IsWordChar(s[0])
    ensures Lex(s) == Some(Lexeme(Word(s[..Run(s, IsWordChar)]), Run(s, IsWordChar)))
  {
    WordCharIsNotSpace(s[0]);
  }

  /** A text made only of word characters is one Word token. */
  lemma WordOnlyText(s: string)
    requires s != []
    requires forall k :: 0 <= k < |s| ==> IsWordChar(s[k])
    ensures Tokenize(s) == [Word(s)]
  {
    LexWord(s);
    RunWhole(s, IsWordChar);
    assert s[..|s|] == s && s[|s|..] == [];
    assert Tokenize(s) == [Word(s)] + Tokenize([]);
  }

  /** Maximal munch for words: a text that starts with a run of word
      characters followed by something else is read as that whole run,
      then the rest. */
  lemma TokenizeWordFirst(a: string, rest: string)
    requires a != [] && forall k :: 0 <= k < |a| ==> IsWordChar(a[k])
    requires rest == [] || !IsWordChar(rest[0])
    ensures Tokenize(a + rest) == [Word(a)] + Tokenize(rest)
  {
    var s := a + rest;
    assert s[0] == a[0] && !IsSpaceChar(a[0]);
    assert forall k :: 0 <= k < |a| ==> s[k] == a[k];
    if rest != [] {
      assert s[|a|] == rest[0];
    }
    assert Run(s, IsWordChar) == |a|;
    assert s[..|a|] == a && s[|a|..] == rest;
  }

  /** Maximal munch for whitespace: a run of space characters followed by
      something else is read as one whitespace token counting the run. */
  lemma TokenizeSpacesFirst(a: string, rest: string)
    requires a != [] && forall k :: 0 <= k < |a| ==> IsSpaceChar(a[k])
    requires rest == [] || !IsSpaceChar(rest[0])
    ensures Tokenize(a + rest) == [Whitespace(|a|)] + Tokenize(rest)
  {
    var s := a + rest;
    assert s[0] == a[0] && IsSpaceChar(a[0]);
    assert forall k :: 0 <= k < |a| ==> s[k] == a[k];
    if rest != [] {
      assert s[|a|] == rest[0];
    }
    assert Run(s, IsSpaceChar) == |a|;
    assert s[|a|..] == rest;
  }

  /** A non-breaking space never separates tokens: it is read as part of
      the word around it. */
  lemma NbspInsideWord()
    ensures Tokenize("test\U{00A0}word") == [Word("test\U{00A0}word")]
  {
    var a := "test\U{00A0}word";
    assert forall k | 0 <= k < |a| :: IsWordChar(a[k]) by {
      assert a == ['t', 'e', 's', 't', NBSP, 'w', 'o', 'r', 'd'];
    }
    WordOnlyText(a);
  }

  /** A non-breaking space after a space run starts a word. */
  lemma NbspStartsWord()
    ensures Tokenize(" \U{00A0}word") == [Whitespace(1), Word("\U{00A0}word")]
  {
    var b := " \U{00A0}word";
    var c := "\U{00A0}word";
    assert forall k | 0 <= k < |c| :: IsWordChar(c[k]) by {
      assert c == [NBSP, 'w', 'o', 'r', 'd'];
    }
    WordOnlyText(c);
    assert b[1..] == c;
    assert Run(b, IsSpaceChar) == 1 by {
      assert IsSpaceChar(b[0]) && !IsSpaceChar(b[1]);
    }
    assert Lex(b) == Some(Lexeme(Whitespace(1), 1));
    assert Tokenize(b) == [Whitespace(1)] + Tokenize(c);
  }

  /** The number of bytes the UTF-8 encoding of `c` takes. */
  function Utf8Width(c: char): nat {
    if c as int < 0x80 then 1
    else if c as int < 0x800 then 2
    else if c as int < 0x10000 then 3
    else 4
  }

  /** The length of `s` in UTF-8 bytes (Rust's `str::len`). */
  function Utf8Len(s: string): nat
    decreases |s|
  {
    if s == [] then 0 else Utf8Width(s[0]) + Utf8Len(s[1..])
  }

  lemma {:induction false} Utf8LenSplit(s: string, k: nat)
    requires k <= |s|
    ensures Utf8Len(s) == Utf8Len(s[..k]) + Utf8Len(s[k..])
    ensures Utf8Len(s[..k]) >= k
    decreases k
  {
    if k > 0 {
      Utf8LenSplit(s[1..], k - 1);
      assert s[..k][1..] == s[1..][..k - 1];
      assert s[1..][k - 1..] == s[k..];
    }
  }

  /** Reading a token always consumes input: the number of unread bytes
      strictly decreases. */
  lemma AdvanceShrinks(s: string)
    requires s != []
    ensures Utf8Len(Advance(s)) < Utf8Len(s)
    ensures |Advance(s)| < |s|
  {
    var l := Lex(s).value;
    Utf8LenSplit(s, l.len);
  }

  class Parser {
    /** The text not read yet (`self.inner.as_str()`). */
    var rest: string

    constructor Parse(text: string)
      ensures rest == text
    {
      rest := text;
    }

    /** The next token, without advancing. */
    function Peek(): (t: Option<Token>)
      reads this
      ensures t.None? <==> IsEmpty()
    {
      match Lex(rest)
      case None => None
      case Some(l) => Some(l.token)
    }

    /** True when no text is left to read. */
    function IsEmpty(): (b: bool)
      reads this
      ensures b <==> Remaining() == 0
    {
      rest == []
    }

    /** The number of unread bytes. */
    function Remaining(): (n: nat)
      reads this
      ensures n >= |rest|
      ensures n == 0 <==> rest == []
    {
      Utf8LenSplit(rest, |rest|);
      assert rest[..|rest|] == rest;
      Utf8Len(rest)
    }

    /** Reads the next token. */
    method Next() returns (t: Option<Token>)
      modifies this
      ensures t == old(Peek())
      ensures rest == Advance(old(rest))
      ensures t.None? <==> old(IsEmpty())
      ensures t.Some? ==> Remaining() < old(Remaining())
    {
      var s := rest;
      if s == [] {
        return None;
      }
      AdvanceShrinks(s);
      var c := s[0];
      rest := s[1..];
      if c == '\n' {
        return Some(NewLine);
      }
      if c == '\r' {
        return Some(CarriageReturn);
      }
      // `iter` reads ahead of `rest`; `rest` follows it over accepted characters
      var iter := 1;
      if IsSpaceChar(c) {
        var len := 1;
        while iter < |s|
          invariant 1 <= iter <= |s| && len == iter && rest == s[iter..]
          invariant forall k :: 0 <= k < iter ==> IsSpaceChar(s[k])
          decreases |s| - iter
        {
          if IsSpaceChar(s[iter]) {
            len := len + 1;
            iter := iter + 1;
            rest := s[iter..];
          } else {
            return Some(Whitespace(len));
          }
        }
        rest := [];
        return Some(Whitespace(len));
      }
      while iter < |s|
        invariant 1 <= iter <= |s| && rest == s[iter..]
        invariant forall k :: 0 <= k < iter ==> IsWordChar(s[k])
        decreases |s| - iter
      {
        if !IsWordChar(s[iter]) {
          var offset := |s| - |rest|;
          return Some(Word(s[..offset]));
        }
        iter := iter + 1;
        rest := s[iter..];
      }
      rest := [];
      assert s[..|s|] == s;
      return Some(Word(s));
    }
  }
}
