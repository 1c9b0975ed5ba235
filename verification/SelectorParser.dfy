/** The selector parser: exactly which texts it accepts, with which result, and exactly
    when it indexes past its tokens (internal/labels/selector.go). */
module SelectorParser {
  import opened Common
  import opened Labels
  import opened Selector
  import opened SelectorTokens

  datatype Error =
    | UnexpectedChar(c: char, offset: nat)
    | EmptyRequirement
    | ExpectedKey
    | BadKey
    | ExpectedOperator
    | ExpectedIn
    | ExpectedValue
    | BadValue
    | Expected(t: Token)
    | UnterminatedList
    | EmptyList

  /** OutOfRange: an index past the end of the tokens, which stops the program. */
  datatype Outcome<T> = Ok(value: T) | Failed(error: Error) | OutOfRange

  /** An outcome, and after Ok the tokens left. */
  datatype Parsed<T> = Parsed(outcome: Outcome<T>, rest: seq<Token>)

  // ---------------------------------------------------------- what is parsed

  predicate StartsWith(ts: seq<Token>, t: Token) {
    ts != [] && ts[0] == t
  }

  /** Where a requirement may stop. */
  predicate AtBoundary(ts: seq<Token>) {
    ts == [] || ts[0] == TComma
  }

  function OneValue(ts: seq<Token>): Parsed<string>
    requires ts != []
  {
    if !ts[0].Ident? then Parsed(Failed(ExpectedValue), [])
    else if !ValidValue(Some(ts[0].text)) then Parsed(Failed(BadValue), [])
    else Parsed(Ok(ts[0].text), ts[1..])
  }

  function ValueAt(ts: seq<Token>): Parsed<string> {
    if AtBoundary(ts) then Parsed(Ok(""), ts) else OneValue(ts)
  }

  function ListValueAt(ts: seq<Token>): Parsed<string>
    requires ts != []
  {
    if ts[0].TComma? || ts[0].TRParen? then Parsed(Ok(""), ts) else OneValue(ts)
  }

  /** The values of a list from one value position on. */
  function ItemsAt(ts: seq<Token>): Parsed<seq<string>> {
    if ts == [] then Parsed(OutOfRange, [])
    else if ts[0].TRParen? then Parsed(Failed(EmptyList), [])
    else
      var v := ListValueAt(ts);
      if v.outcome.Failed? then Parsed(Failed(v.outcome.error), [])
      else if v.rest == [] then Parsed(Failed(UnterminatedList), [])
      else if v.rest[0].TRParen? then Parsed(Ok([v.outcome.value]), v.rest[1..])
      else if !v.rest[0].TComma? then Parsed(Failed(Expected(TComma)), [])
      else
        var more := ItemsAt(v.rest[1..]);
        if more.outcome.Ok? then Parsed(Ok([v.outcome.value] + more.outcome.value), more.rest) else more
  }

  function ListAt(ts: seq<Token>): Parsed<seq<string>> {
    if !StartsWith(ts, TLParen) then Parsed(Failed(Expected(TLParen)), [])
    else if |ts| == 1 then Parsed(Failed(UnterminatedList), [])
    else ItemsAt(ts[1..])
  }

  function WithValue(op: Op, key: string, v: Parsed<string>): Parsed<Requirement> {
    match v.outcome
    case Ok(value) => Parsed(Ok(Requirement(op, key, [value])), v.rest)
    case Failed(e) => Parsed(Failed(e), [])
    case OutOfRange => Parsed(OutOfRange, [])
  }

  function WithValues(op: Op, key: string, vs: Parsed<seq<string>>): Parsed<Requirement> {
    match vs.outcome
    case Ok(values) => Parsed(Ok(Requirement(op, key, values)), vs.rest)
    case Failed(e) => Parsed(Failed(e), [])
    case OutOfRange => Parsed(OutOfRange, [])
  }

  /** What follows a key that is not alone. */
  function OperatorAt(key: string, ts: seq<Token>): Parsed<Requirement>
    requires ts != []
  {
    match ts[0]
    case TEq => WithValue(Eq, key, ValueAt(ts[1..]))
    case TNotEq => WithValue(NotEq, key, ValueAt(ts[1..]))
    case Ident(word) =>
      if word == "in" then WithValues(In, key, ListAt(ts[1..]))
      else if word == "notin" then WithValues(NotIn, key, ListAt(ts[1..]))
      else Parsed(Failed(ExpectedIn), [])
    case _ => Parsed(Failed(ExpectedOperator), [])
  }

  function RequirementAt(ts: seq<Token>): Parsed<Requirement> {
    if ts == [] then Parsed(Failed(EmptyRequirement), [])
    else if ts[0].TBang? then
      if |ts| == 1 || !ts[1].Ident? then Parsed(Failed(ExpectedKey), [])
      else if !ValidKey(ts[1].text, true) then Parsed(Failed(BadKey), [])
      else Parsed(Ok(Requirement(NotHas, ts[1].text, [])), ts[2..])
    else if !ts[0].Ident? then Parsed(Failed(ExpectedKey), [])
    else if !ValidKey(ts[0].text, true) then Parsed(Failed(BadKey), [])
    else if AtBoundary(ts[1..]) then Parsed(Ok(Requirement(Has, ts[0].text, [])), ts[1..])
    else OperatorAt(ts[0].text, ts[1..])
  }

  function Cons(r: Requirement, more: Outcome<Selector>): Outcome<Selector> {
    if more.Ok? then Ok([r] + more.value) else more
  }

  /** A requirement parsed is tokens consumed. */
  lemma {:induction false} ItemsShrink(ts: seq<Token>)
    ensures ItemsAt(ts).outcome.Ok? ==> |ItemsAt(ts).rest| < |ts|
  {
    if ts != [] && !ts[0].TRParen? && ListValueAt(ts).outcome.Ok? {
      var rest := ListValueAt(ts).rest;
      if rest != [] && rest[0].TComma? {
        ItemsShrink(rest[1..]);
      }
    }
  }

  lemma RequirementShrinks(ts: seq<Token>)
    ensures RequirementAt(ts).outcome.Ok? ==> |RequirementAt(ts).rest| < |ts|
  {
    if |ts| > 2 {
      ItemsShrink(ts[2..][1..]);
    }
  }

  function RequirementsAt(ts: seq<Token>): Outcome<Selector>
    decreases |ts|
  {
    RequirementShrinks(ts);
    var r := RequirementAt(ts);
    match r.outcome
    case Failed(e) => Failed(e)
    case OutOfRange => OutOfRange
    case Ok(req) =>
      if r.rest == [] then Ok([req])
      else if r.rest[0] != TComma then Failed(Expected(TComma))
      else Cons(req, RequirementsAt(r.rest[1..]))
  }

  function ParseTokens(ts: seq<Token>): Outcome<Selector> {
    if ts == [] then Ok([]) else RequirementsAt(ts)
  }

  function Parse(s: string): Outcome<Selector> {
    match Lex(s, 0)
    case Unexpected(c, offset) => Failed(UnexpectedChar(c, offset))
    case Tokens(ts) => ParseTokens(ts)
  }

  // --------------------------------------------------------- the parser itself

  class Parser {
    const toks: seq<Token>
    var pos: nat

    ghost predicate Valid() reads this {
      pos <= |toks|
    }

    ghost function Rest(): seq<Token>
      requires Valid()
      reads this
    {
      toks[pos..]
    }

    /** outcome is what p says, and after Ok the parser stands where p does. */
    ghost predicate Did<T>(outcome: Outcome<T>, p: Parsed<T>)
      reads this
    {
      Valid() && outcome == p.outcome && (outcome.Ok? ==> Rest() == p.rest)
    }

    constructor (toks: seq<Token>)
      ensures Valid() && Rest() == toks && this.toks == toks
    {
      this.toks := toks;
      pos := 0;
    }

    predicate Eof() reads this {
      pos >= |toks|
    }

    function Peek(): (t: Token)
      requires !Eof()
      reads this
      ensures Rest() != [] && t == Rest()[0]
    {
      toks[pos]
    }

    method Next() returns (t: Token)
      requires !Eof()
      modifies this`pos
      ensures Valid() && t == old(Rest())[0] && Rest() == old(Rest())[1..]
    {
      t := toks[pos];
      pos := pos + 1;
    }

    method Expect(t: Token) returns (ok: bool)
      requires Valid()
      modifies this`pos
      ensures Valid() && ok == StartsWith(old(Rest()), t)
      ensures Rest() == if ok then old(Rest())[1..] else old(Rest())
    {
      if Eof() || Peek() != t {
        return false;
      }
      pos := pos + 1;
      return true;
    }

    method ParseValue() returns (v: Outcome<string>)
      requires Valid()
      modifies this`pos
      ensures Did(v, ValueAt(old(Rest())))
    {
      if Eof() || Peek().TComma? {
        return if ValidValue(Some("")) then Ok("") else Failed(BadValue);
      }
      if !Peek().Ident? {
        return Failed(ExpectedValue);
      }
      var t := Next();
      return if ValidValue(Some(t.text)) then Ok(t.text) else Failed(BadValue);
    }

    method ParseListValue() returns (v: Outcome<string>)
      requires !Eof()
      modifies this`pos
      ensures Did(v, ListValueAt(old(Rest()))) && !v.OutOfRange?
    {
      if Peek().TComma? || Peek().TRParen? {
        return if ValidValue(Some("")) then Ok("") else Failed(BadValue);
      }
      if !Peek().Ident? {
        return Failed(ExpectedValue);
      }
      var t := Next();
      return if ValidValue(Some(t.text)) then Ok(t.text) else Failed(BadValue);
    }

    /** The values collected, then the rest of the list. */
    static ghost function Then(out: seq<string>, items: Parsed<seq<string>>): Parsed<seq<string>> {
      if items.outcome.Ok? then Parsed(Ok(out + items.outcome.value), items.rest) else items
    }

    method ParseValueList() returns (vs: Outcome<seq<string>>)
      requires Valid()
      modifies this`pos
      ensures Did(vs, ListAt(old(Rest())))
    {
      var open := Expect(TLParen);
      if !open {
        return Failed(Expected(TLParen));
      }
      if Eof() {
        return Failed(UnterminatedList);
      }
      var out: seq<string> := [];
      ghost var all := ListAt(old(Rest()));
      NothingBefore(ItemsAt(Rest()));
      while true
        invariant Valid() && all == Then(out, ItemsAt(Rest()))
        decreases |toks| - pos
      {
        // The source peeks here without a test for the end of the tokens.
        if Eof() {
          return OutOfRange;
        }
        if Peek().TRParen? {
          return Failed(EmptyList);
        }
        ghost var here := Rest();
        var v := ParseListValue();
        if v.Failed? {
          return Failed(v.error);
        }
        if Eof() {
          return Failed(UnterminatedList);
        }
        if Peek().TRParen? {
          var _ := Next();
          return Ok(out + [v.value]);
        }
        var comma := Expect(TComma);
        if !comma {
          return Failed(Expected(TComma));
        }
        AfterComma(out, v.value, here, Rest());
        out := out + [v.value];
      }
    }

    static lemma NothingBefore(items: Parsed<seq<string>>)
      ensures Then([], items) == items
    {
      if items.outcome.Ok? {
        assert [] + items.outcome.value == items.outcome.value;
      }
    }

    static lemma AfterComma(out: seq<string>, v: string, here: seq<Token>, rest: seq<Token>)
      requires here != [] && !here[0].TRParen? && ListValueAt(here) == Parsed(Ok(v), [TComma] + rest)
      ensures Then(out, ItemsAt(here)) == Then(out + [v], ItemsAt(rest))
    {
      assert ([TComma] + rest)[1..] == rest;
      if ItemsAt(rest).outcome.Ok? {
        var more := ItemsAt(rest).outcome.value;
        assert out + ([v] + more) == out + [v] + more;
      }
    }

    method ParseOperator(key: string) returns (r: Outcome<Requirement>)
      requires !Eof()
      modifies this`pos
      ensures Did(r, OperatorAt(key, old(Rest())))
    {
      match Peek() {
        case TEq =>
          var _ := Next();
          var v := ParseValue();
          r := WithValue(Eq, key, Parsed(v, [])).outcome;
        case TNotEq =>
          var _ := Next();
          var v := ParseValue();
          r := WithValue(NotEq, key, Parsed(v, [])).outcome;
        case Ident(word) =>
          if word == "in" {
            var _ := Next();
            var vs := ParseValueList();
            r := WithValues(In, key, Parsed(vs, [])).outcome;
          } else if word == "notin" {
            var _ := Next();
            var vs := ParseValueList();
            r := WithValues(NotIn, key, Parsed(vs, [])).outcome;
          } else {
            r := Failed(ExpectedIn);
          }
        case _ =>
          r := Failed(ExpectedOperator);
      }
    }

    method ParseRequirement() returns (r: Outcome<Requirement>)
      requires Valid()
      modifies this`pos
      ensures Did(r, RequirementAt(old(Rest())))
    {
      if Eof() {
        return Failed(EmptyRequirement);
      }
      if Peek().TBang? {
        var _ := Next();
        if Eof() || !Peek().Ident? {
          return Failed(ExpectedKey);
        }
        var t := Next();
        if !ValidKey(t.text, true) {
          return Failed(BadKey);
        }
        return Ok(Requirement(NotHas, t.text, []));
      }
      if !Peek().Ident? {
        return Failed(ExpectedKey);
      }
      var t := Next();
      if !ValidKey(t.text, true) {
        return Failed(BadKey);
      }
      if Eof() || Peek().TComma? {
        return Ok(Requirement(Has, t.text, []));
      }
      r := ParseOperator(t.text);
    }
  }

  ghost function Appended(out: Selector, more: Outcome<Selector>): Outcome<Selector> {
    if more.Ok? then Ok(out + more.value) else more
  }

  lemma AppendedNothing(all: Outcome<Selector>)
    ensures Appended([], all) == all
  {
    if all.Ok? {
      assert [] + all.value == all.value;
    }
  }

  lemma AppendedCons(out: Selector, r: Requirement, more: Outcome<Selector>)
    ensures Appended(out, Cons(r, more)) == Appended(out + [r], more)
  {
    if more.Ok? {
      assert out + ([r] + more.value) == out + [r] + more.value;
    }
  }

  method ParseSelector(s: string) returns (result: Outcome<Selector>)
    ensures result == Parse(s)
  {
    var lexed := Tokenize(s);
    if lexed.Unexpected? {
      return Failed(UnexpectedChar(lexed.c, lexed.offset));
    }
    if |lexed.toks| == 0 {
      return Ok([]);
    }
    var p := new Parser(lexed.toks);
    var out: Selector := [];
    ghost var all := RequirementsAt(p.Rest());
    AppendedNothing(all);
    while true
      invariant fresh(p) && p.Valid() && all == Appended(out, RequirementsAt(p.Rest()))
      decreases |p.toks| - p.pos
    {
      RequirementShrinks(p.Rest());
      var req := p.ParseRequirement();
      if req.Failed? {
        return Failed(req.error);
      }
      if req.OutOfRange? {
        return OutOfRange;
      }
      if p.Eof() {
        return Ok(out + [req.value]);
      }
      var comma := p.Expect(TComma);
      if !comma {
        return Failed(Expected(TComma));
      }
      AppendedCons(out, req.value, RequirementsAt(p.Rest()));
      out := out + [req.value];
    }
  }
}
