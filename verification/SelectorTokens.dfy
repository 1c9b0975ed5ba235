/** The selector tokenizer, and exactly which texts it turns into which tokens
    (internal/labels/selector.go). Characters stand for bytes. */
module SelectorTokens {
  import opened Common
  import opened Labels

  datatype Token = Ident(text: string) | TEq | TNotEq | TBang | TComma | TLParen | TRParen

  datatype Lexed = Tokens(toks: seq<Token>) | Unexpected(c: char, offset: nat)

  predicate IsSpace(c: char) {
    c == ' ' || c == '\t' || c == '\n' || c == '\r'
  }

  /** The length of the longest prefix of identifier characters. */
  function IdentLength(s: string): (n: nat)
    ensures n <= |s| && (forall i :: 0 <= i < n ==> IsIdentChar(s[i]))
    ensures n < |s| ==> !IsIdentChar(s[n])
  {
    if s == "" || !IsIdentChar(s[0]) then 0 else
    var n := IdentLength(s[1..]);
    assert forall i :: 1 <= i < n + 1 ==> s[i] == s[1..][i - 1];
    n + 1
  }

  function Push(t: Token, rest: Lexed): Lexed {
    if rest.Tokens? then Tokens([t] + rest.toks) else rest
  }

  function Spelling(t: Token): string {
    match t
    case Ident(text) => text
    case TEq => "="
    case TNotEq => "!="
    case TBang => "!"
    case TComma => ","
    case TLParen => "("
    case TRParen => ")"
  }

  /** What a text begins with: whitespace, a token of n characters, or neither. */
  datatype Head = Space | Take(t: Token, n: nat) | Bad

  function HeadOf(s: string): (h: Head)
    requires s != ""
    ensures h.Take? ==> 0 < h.n <= |s| && h.n == |Spelling(h.t)|
  {
    if IsSpace(s[0]) then Space
    else if s[0] == ',' then Take(TComma, 1)
    else if s[0] == '(' then Take(TLParen, 1)
    else if s[0] == ')' then Take(TRParen, 1)
    else if s[0] == '=' then Take(TEq, 1)
    else if s[0] == '!' then if |s| > 1 && s[1] == '=' then Take(TNotEq, 2) else Take(TBang, 1)
    else if IsIdentChar(s[0]) then Take(Ident(s[..IdentLength(s)]), IdentLength(s))
    else Bad
  }

  /** The tokens of s, whose first character is at offset base of the input. */
  function Lex(s: string, base: nat): Lexed {
    if s == "" then Tokens([])
    else
      match HeadOf(s)
      case Space => Lex(s[1..], base + 1)
      case Take(t, n) => Push(t, Lex(s[n..], base + n))
      case Bad => Unexpected(s[0], base)
  }

  /** out, then what is left to read. */
  function After(out: seq<Token>, rest: Lexed): Lexed {
    if rest.Tokens? then Tokens(out + rest.toks) else rest
  }

  lemma AfterPush(out: seq<Token>, t: Token, rest: Lexed)
    ensures After(out, Push(t, rest)) == After(out + [t], rest)
  {
    if rest.Tokens? {
      assert out + ([t] + rest.toks) == out + [t] + rest.toks;
    }
  }

  lemma AfterEnds(out: seq<Token>, rest: Lexed)
    ensures After([], rest) == rest && After(out, Tokens([])) == Tokens(out)
  {
    assert rest.Tokens? ==> [] + rest.toks == rest.toks;
    assert out + [] == out;
  }

  method ReadIdent(s: string, i: nat) returns (j: nat)
    requires i < |s| && IsIdentChar(s[i])
    ensures i < j <= |s| && j == i + IdentLength(s[i..])
  {
    j := i;
    while j < |s| && IsIdentChar(s[j])
      invariant i <= j <= |s|
      invariant IdentLength(s[i..]) == j - i + IdentLength(s[j..])
    {
      assert s[j..][1..] == s[j + 1..];
      j := j + 1;
    }
  }

  /** One round of the tokenizer's switch. */
  method ReadToken(s: string, i: nat) returns (h: Head)
    requires i < |s|
    ensures h == HeadOf(s[i..])
  {
    var c := s[i];
    if IsSpace(c) {
      return Space;
    } else if c == ',' {
      return Take(TComma, 1);
    } else if c == '(' {
      return Take(TLParen, 1);
    } else if c == ')' {
      return Take(TRParen, 1);
    } else if c == '=' {
      return Take(TEq, 1);
    } else if c == '!' {
      return if i + 1 < |s| && s[i + 1] == '=' then Take(TNotEq, 2) else Take(TBang, 1);
    } else if IsIdentChar(c) {
      var j := ReadIdent(s, i);
      assert s[i..][..j - i] == s[i..j];
      return Take(Ident(s[i..j]), j - i);
    } else {
      return Bad;
    }
  }

  /** One step of the lexer in the middle of a text. */
  lemma LexAt(s: string, i: nat, h: Head)
    requires i < |s| && h == HeadOf(s[i..])
    ensures h.Space? ==> Lex(s[i..], i) == Lex(s[i + 1..], i + 1)
    ensures h.Take? ==> i + h.n <= |s| && Lex(s[i..], i) == Push(h.t, Lex(s[i + h.n..], i + h.n))
    ensures h.Bad? ==> Lex(s[i..], i) == Unexpected(s[i], i)
  {
    assert h.Space? ==> s[i..][1..] == s[i + 1..];
    assert h.Take? ==> s[i..][h.n..] == s[i + h.n..];
  }

  /** The text's tokens are those read so far and then those of what is left. */
  predicate Reads(s: string, out: seq<Token>, i: nat) {
    i <= |s| && Lex(s, 0) == After(out, Lex(s[i..], i))
  }

  lemma ReadsMore(s: string, out: seq<Token>, i: nat, h: Head)
    requires i < |s| && Reads(s, out, i) && h == HeadOf(s[i..])
    ensures h.Space? ==> Reads(s, out, i + 1)
    ensures h.Take? ==> i + h.n <= |s| && Reads(s, out + [h.t], i + h.n)
    ensures h.Bad? ==> Lex(s, 0) == Unexpected(s[i], i)
  {
    LexAt(s, i, h);
    if h.Take? {
      AfterPush(out, h.t, Lex(s[i + h.n..], i + h.n));
    }
  }

  lemma ReadsAll(s: string, out: seq<Token>)
    ensures Reads(s, [], 0)
    ensures Reads(s, out, |s|) ==> Lex(s, 0) == Tokens(out)
  {
    assert s[0..] == s && s[|s|..] == "";
    AfterEnds([], Lex(s, 0));
    AfterEnds(out, Lex(s, 0));
  }

  method Tokenize(s: string) returns (result: Lexed)
    ensures result == Lex(s, 0)
  {
    var out: seq<Token> := [];
    var i: nat := 0;
    ReadsAll(s, out);
    while i < |s|
      invariant Reads(s, out, i)
    {
      var h := ReadToken(s, i);
      ReadsMore(s, out, i, h);
      if h.Bad? {
        return Unexpected(s[i], i);
      } else if h.Take? {
        out, i := out + [h.t], i + h.n;
      } else {
        i := i + 1;
      }
    }
    ReadsAll(s, out);
    return Tokens(out);
  }

  // ------------------------------------------------- the texts of a token list

  /** The spellings in order, with gaps before, between and after them. */
  function Render(ts: seq<Token>, gaps: seq<string>): string
    requires |gaps| == |ts| + 1
  {
    if ts == [] then gaps[0] else gaps[0] + (Spelling(ts[0]) + Render(ts[1..], gaps[1..]))
  }

  /** Neighbours that would read as one token if nothing stood between them. */
  predicate Touching(a: Token, b: Token) {
    (a.Ident? && b.Ident?) || (a.TBang? && b.TEq?)
  }

  predicate AllSpace(s: string) {
    forall i :: 0 <= i < |s| ==> IsSpace(s[i])
  }

  ghost predicate Apart(ts: seq<Token>, gaps: seq<string>)
    requires |gaps| == |ts| + 1
  {
    AllSpace(gaps[0]) &&
    (ts == [] || ((|ts| > 1 && Touching(ts[0], ts[1]) ==> gaps[1] != "") && Apart(ts[1..], gaps[1..])))
  }

  ghost predicate Lexical(ts: seq<Token>) {
    forall i :: 0 <= i < |ts| && ts[i].Ident? ==> IsIdent(ts[i].text)
  }

  ghost predicate SpelledWith(s: string, ts: seq<Token>, gaps: seq<string>) {
    |gaps| == |ts| + 1 && Apart(ts, gaps) && s == Render(ts, gaps)
  }

  /** s is the tokens' spellings with whitespace anywhere around them, and some of it
      between any two that would otherwise run together. */
  ghost predicate Spelled(s: string, ts: seq<Token>) {
    Lexical(ts) && exists gaps :: SpelledWith(s, ts, gaps)
  }

  lemma {:induction false} LexSkipsSpace(w: string, s: string, base: nat)
    requires AllSpace(w)
    ensures Lex(w + s, base) == Lex(s, base + |w|)
  {
    if w == "" {
      assert w + s == s;
    } else {
      assert (w + s)[1..] == w[1..] + s;
      LexSkipsSpace(w[1..], s, base + 1);
    }
  }

  lemma {:induction false} IdentLengthIs(text: string, rest: string)
    requires forall i :: 0 <= i < |text| ==> IsIdentChar(text[i])
    requires rest == "" || !IsIdentChar(rest[0])
    ensures IdentLength(text + rest) == |text|
  {
    if text == "" {
      assert text + rest == rest;
    } else {
      assert (text + rest)[1..] == text[1..] + rest;
      IdentLengthIs(text[1..], rest);
    }
  }

  /** What follows a token cannot be read as part of it. */
  lemma RestIsApart(t: Token, ts: seq<Token>, gaps: seq<string>)
    requires |gaps| == |ts| + 1 && Apart(ts, gaps) && Lexical(ts)
    requires ts != [] && Touching(t, ts[0]) ==> gaps[0] != ""
    ensures t.Ident? && Render(ts, gaps) != "" ==> !IsIdentChar(Render(ts, gaps)[0])
    ensures t.TBang? && Render(ts, gaps) != "" ==> Render(ts, gaps)[0] != '='
  {
    if gaps[0] != "" {
      assert Render(ts, gaps)[0] == gaps[0][0];
    } else if ts != [] {
      assert Render(ts, gaps) == Spelling(ts[0]) + Render(ts[1..], gaps[1..]);
      assert Spelling(ts[0]) != "";
    }
  }

  lemma OneToken(t: Token, rest: string)
    requires t.Ident? ==> IsIdent(t.text) && (rest == "" || !IsIdentChar(rest[0]))
    requires t.TBang? && rest != "" ==> rest[0] != '='
    ensures HeadOf(Spelling(t) + rest) == Take(t, |Spelling(t)|)
  {
    var s := Spelling(t) + rest;
    assert s[..|Spelling(t)|] == Spelling(t);
    if t.Ident? {
      IdentLengthIs(t.text, rest);
      assert s[0] == t.text[0] && IsIdentChar(t.text[0]);
    }
  }

  lemma {:induction false} LexReads(ts: seq<Token>, gaps: seq<string>, base: nat)
    requires Lexical(ts) && |gaps| == |ts| + 1 && Apart(ts, gaps)
    ensures Lex(Render(ts, gaps), base) == Tokens(ts)
  {
    if ts == [] {
      assert gaps[0] + "" == gaps[0];
      LexSkipsSpace(gaps[0], "", base);
    } else {
      var rest := Render(ts[1..], gaps[1..]);
      var after := base + |gaps[0]|;
      LexSkipsSpace(gaps[0], Spelling(ts[0]) + rest, base);
      RestIsApart(ts[0], ts[1..], gaps[1..]);
      assert ts[0].Ident? ==> IsIdent(ts[0].text);
      OneToken(ts[0], rest);
      assert (Spelling(ts[0]) + rest)[|Spelling(ts[0])|..] == rest;
      LexReads(ts[1..], gaps[1..], after + |Spelling(ts[0])|);
      assert [ts[0]] + ts[1..] == ts;
    }
  }

  /** A text that lexes is one token followed by a text that lexes. */
  lemma Extend(t: Token, s: string, ts: seq<Token>)
    requires Spelled(s, ts) && (t.Ident? ==> IsIdent(t.text))
    requires t.Ident? && s != "" ==> !IsIdentChar(s[0])
    requires t.TBang? && s != "" ==> s[0] != '='
    ensures Spelled(Spelling(t) + s, [t] + ts)
  {
    var gaps :| SpelledWith(s, ts, gaps);
    var more := [t] + ts;
    var wider := [""] + gaps;
    assert more[1..] == ts && wider[1..] == gaps;
    assert Render(more, wider) == "" + (Spelling(t) + s);
    assert "" + (Spelling(t) + s) == Spelling(t) + s;
    assert SpelledWith(Spelling(t) + s, more, wider);
  }

  lemma ExtendSpace(c: char, s: string, ts: seq<Token>)
    requires Spelled(s, ts) && IsSpace(c)
    ensures Spelled([c] + s, ts)
  {
    var gaps :| SpelledWith(s, ts, gaps);
    var wider := gaps[0 := [c] + gaps[0]];
    assert wider[1..] == gaps[1..];
    if ts == [] {
      assert Render(ts, wider) == [c] + s;
    } else {
      var tail := Spelling(ts[0]) + Render(ts[1..], gaps[1..]);
      assert ([c] + gaps[0]) + tail == [c] + (gaps[0] + tail);
    }
    assert SpelledWith([c] + s, ts, wider);
  }

  lemma {:induction false} LexIsSpelling(s: string, base: nat)
    requires Lex(s, base).Tokens?
    ensures Spelled(s, Lex(s, base).toks)
    decreases |s|
  {
    if s == "" {
      assert Lex(s, base).toks == [];
      assert SpelledWith(s, [], [""]);
    } else if IsSpace(s[0]) {
      LexIsSpelling(s[1..], base + 1);
      ExtendSpace(s[0], s[1..], Lex(s, base).toks);
      assert [s[0]] + s[1..] == s;
    } else {
      var t, n := HeadOf(s).t, HeadOf(s).n;
      HeadIsSpelled(s);
      LexIsSpelling(s[n..], base + n);
      Extend(t, s[n..], Lex(s[n..], base + n).toks);
      assert s[..n] + s[n..] == s;
    }
  }

  /** A token is spelled at the front of the text, and nothing after it belongs to it. */
  lemma HeadIsSpelled(s: string)
    requires s != "" && HeadOf(s).Take?
    ensures var t, n := HeadOf(s).t, HeadOf(s).n;
      && Spelling(t) == s[..n]
      && (t.Ident? ==> IsIdent(t.text) && (n < |s| ==> !IsIdentChar(s[n])))
      && (t.TBang? && n < |s| ==> s[n] != '=')
  {
    var n := HeadOf(s).n;
    if IsIdentChar(s[0]) {
      assert forall i :: 0 <= i < n ==> s[..n][i] == s[i];
    } else if n == 2 {
      assert s[..2] == "!=";
    } else {
      assert s[..1] == [s[0]];
    }
  }

  /** Exactly which texts give which tokens. */
  lemma LexMeans(s: string, ts: seq<Token>)
    ensures Lex(s, 0) == Tokens(ts) <==> Spelled(s, ts)
  {
    if Lex(s, 0) == Tokens(ts) {
      LexIsSpelling(s, 0);
    }
    if Spelled(s, ts) {
      var gaps :| SpelledWith(s, ts, gaps);
      LexReads(ts, gaps, 0);
    }
  }

  /** Blanks are space, tab, line feed and carriage return. */
  lemma BlanksAre(c: char)
    ensures IsSpace(c) <==> c as int == 32 || c as int == 9 || c as int == 10 || c as int == 13
  {
  }
}
