/** The grammar of selector texts, and that the parser accepts exactly it: which texts
    parse to which selector, and which texts make the parser index past its tokens. */
module SelectorGrammar {
  import opened Common
  import opened Labels
  import opened Selector
  import opened SelectorTokens
  import opened SelectorParser

  /** Valid keys and values, one value for = and !=, and lists that end in a non-empty value. */
  predicate WellFormedRequirement(r: Requirement) {
    && ValidKey(r.key, true) && ArityOk(r)
    && (forall v :: v in r.values ==> ValidValue(Some(v)))
    && (r.op.In? || r.op.NotIn? ==> Last(r.values) != "")
  }

  predicate WellFormed(sel: Selector) {
    forall i :: 0 <= i < |sel| ==> WellFormedRequirement(sel[i])
  }

  function ValueTokens(v: string): seq<Token> {
    if v == "" then [] else [Ident(v)]
  }

  function ListTokens(vs: seq<string>): seq<Token>
    requires vs != []
  {
    if |vs| == 1 then ValueTokens(vs[0]) else ValueTokens(vs[0]) + ([TComma] + ListTokens(vs[1..]))
  }

  function InWord(op: Op): Token {
    Ident(if op.In? then "in" else "notin")
  }

  /** What follows the key. */
  function OperatorTokens(r: Requirement): seq<Token>
    requires ArityOk(r)
  {
    match r.op
    case Has => []
    case NotHas => []
    case Eq => [TEq] + ValueTokens(r.values[0])
    case NotEq => [TNotEq] + ValueTokens(r.values[0])
    case _ => [InWord(r.op), TLParen] + (ListTokens(r.values) + [TRParen])
  }

  function RequirementTokens(r: Requirement): seq<Token>
    requires ArityOk(r)
  {
    (if r.op.NotHas? then [TBang] else []) + [Ident(r.key)] + OperatorTokens(r)
  }

  function TokensOf(sel: Selector): seq<Token>
    requires WellFormed(sel)
  {
    if sel == [] then []
    else if |sel| == 1 then RequirementTokens(sel[0])
    else RequirementTokens(sel[0]) + ([TComma] + TokensOf(sel[1..]))
  }

  // ------------------------------------------------------------------ value lists

  lemma Splice<T>(a: seq<T>, b: seq<T>, c: seq<T>, d: seq<T>)
    ensures a + (b + (c + d)) == a + (b + c) + d
  {
  }

  ghost predicate ValidValues(vs: seq<string>) {
    vs != [] && forall v :: v in vs ==> ValidValue(Some(v))
  }

  /** One step of the list loop, on tokens that begin with a value. */
  lemma ItemStep(v: string, next: seq<Token>)
    requires ValidValue(Some(v)) && next != [] && (next[0].TComma? || next[0].TRParen?)
    requires v == "" ==> next[0].TComma?
    ensures ListValueAt(ValueTokens(v) + next) == Parsed(Ok(v), next)
    ensures !(ValueTokens(v) + next)[0].TRParen?
  {
    if v == "" {
      assert ValueTokens(v) + next == next;
    } else {
      assert (ValueTokens(v) + next)[1..] == next;
    }
  }

  lemma ItemIs(ts: seq<Token>)
    requires Lexical(ts) && ts != [] && !ts[0].TRParen? && ListValueAt(ts).outcome.Ok?
    ensures var p := ListValueAt(ts);
      ValidValue(Some(p.outcome.value)) && ts == ValueTokens(p.outcome.value) + p.rest
      && Lexical(p.rest) && (p.outcome.value == "" ==> p.rest != [] && p.rest[0].TComma?)
  {
    if ts[0].Ident? {
      assert IsIdent(ts[0].text);
      assert ts == [ts[0]] + ts[1..];
    }
  }

  lemma {:induction false} ItemsAccept(vs: seq<string>, rest: seq<Token>)
    requires ValidValues(vs) && Last(vs) != ""
    ensures ItemsAt(ListTokens(vs) + ([TRParen] + rest)) == Parsed(Ok(vs), rest)
  {
    var v := vs[0];
    var end := [TRParen] + rest;
    if |vs| == 1 {
      ItemStep(v, end);
      assert end[1..] == rest && [v] == vs;
    } else {
      var next := [TComma] + (ListTokens(vs[1..]) + end);
      ItemStep(v, next);
      Splice(ValueTokens(v), [TComma], ListTokens(vs[1..]), end);
      assert next[1..] == ListTokens(vs[1..]) + end;
      assert vs[1..] != [] && Last(vs[1..]) == Last(vs);
      ItemsAccept(vs[1..], rest);
      assert [v] + vs[1..] == vs;
    }
  }

  lemma {:induction false} ItemsRunOut(vs: seq<string>)
    requires ValidValues(vs) && Last(vs) == ""
    ensures ItemsAt(ListTokens(vs)).outcome == OutOfRange
  {
    if |vs| > 1 {
      var next := [TComma] + ListTokens(vs[1..]);
      ItemStep(vs[0], next);
      assert next[1..] == ListTokens(vs[1..]);
      ItemsRunOut(vs[1..]);
    }
  }

  /** Every list accepted was spelled by its values. */
  lemma {:induction false} ItemsAre(ts: seq<Token>)
    requires Lexical(ts) && ItemsAt(ts).outcome.Ok?
    ensures var vs := ItemsAt(ts).outcome.value;
      ValidValues(vs) && Last(vs) != "" && ts == ListTokens(vs) + ([TRParen] + ItemsAt(ts).rest)
    decreases |ts|
  {
    ItemIs(ts);
    var v, next := ListValueAt(ts).outcome.value, ListValueAt(ts).rest;
    assert next == [next[0]] + next[1..];
    if next[0].TComma? {
      ItemsAre(next[1..]);
      var vs := ItemsAt(next[1..]).outcome.value;
      ListWith(v, vs);
      var end := [TRParen] + ItemsAt(next[1..]).rest;
      Splice(ValueTokens(v), [TComma], ListTokens(vs), end);
    }
  }

  /** Every list that runs out was spelled by values of which the last is empty. */
  lemma {:induction false} ItemsRanOut(ts: seq<Token>) returns (vs: seq<string>)
    requires Lexical(ts) && ItemsAt(ts).outcome.OutOfRange?
    ensures ValidValues(vs) && Last(vs) == "" && ts == ListTokens(vs)
    decreases |ts|
  {
    if ts == [] {
      vs := [""];
    } else {
      ItemIs(ts);
      var v, next := ListValueAt(ts).outcome.value, ListValueAt(ts).rest;
      assert next == [TComma] + next[1..];
      var more := ItemsRanOut(next[1..]);
      ListWith(v, more);
      vs := [v] + more;
    }
  }

  lemma ListWith(v: string, vs: seq<string>)
    requires ValidValues(vs) && ValidValue(Some(v))
    ensures ValidValues([v] + vs) && Last([v] + vs) == Last(vs)
    ensures ListTokens([v] + vs) == ValueTokens(v) + ([TComma] + ListTokens(vs))
  {
    assert ([v] + vs)[1..] == vs;
  }

  // ---------------------------------------------------------------- requirements

  lemma ValueAccepts(v: string, rest: seq<Token>)
    requires ValidValue(Some(v)) && AtBoundary(rest)
    ensures ValueAt(ValueTokens(v) + rest) == Parsed(Ok(v), rest)
  {
    if v == "" {
      assert ValueTokens(v) + rest == rest;
    } else {
      assert (ValueTokens(v) + rest)[1..] == rest;
    }
  }

  lemma ValueIs(ts: seq<Token>)
    requires Lexical(ts) && ValueAt(ts).outcome.Ok?
    ensures var p := ValueAt(ts); ValidValue(Some(p.outcome.value)) && ts == ValueTokens(p.outcome.value) + p.rest
  {
    if !AtBoundary(ts) {
      assert IsIdent(ts[0].text);
      assert ts == [ts[0]] + ts[1..];
    }
  }

  lemma ListAccepts(vs: seq<string>, rest: seq<Token>)
    requires ValidValues(vs) && Last(vs) != ""
    ensures ListAt([TLParen] + (ListTokens(vs) + ([TRParen] + rest))) == Parsed(Ok(vs), rest)
  {
    ItemsAccept(vs, rest);
    var items := ListTokens(vs) + ([TRParen] + rest);
    assert ([TLParen] + items)[1..] == items;
  }

  lemma ComparisonAccepts(r: Requirement, rest: seq<Token>)
    requires (r.op.Eq? || r.op.NotEq?) && ArityOk(r) && ValidValues(r.values) && AtBoundary(rest)
    ensures OperatorAt(r.key, OperatorTokens(r) + rest) == Parsed(Ok(r), rest)
  {
    var ts := OperatorTokens(r) + rest;
    assert ts[1..] == ValueTokens(r.values[0]) + rest;
    ValueAccepts(r.values[0], rest);
    assert [r.values[0]] == r.values;
  }

  lemma MembershipAt(key: string, op: Op, list: seq<Token>, vs: seq<string>, rest: seq<Token>)
    requires (op.In? || op.NotIn?) && ListAt(list) == Parsed(Ok(vs), rest)
    ensures OperatorAt(key, [InWord(op)] + list) == Parsed(Ok(Requirement(op, key, vs)), rest)
  {
    assert ([InWord(op)] + list)[1..] == list;
  }

  lemma MembershipAccepts(r: Requirement, rest: seq<Token>)
    requires (r.op.In? || r.op.NotIn?) && ArityOk(r) && ValidValues(r.values) && Last(r.values) != ""
    ensures OperatorAt(r.key, OperatorTokens(r) + rest) == Parsed(Ok(r), rest)
  {
    var list := [TLParen] + (ListTokens(r.values) + ([TRParen] + rest));
    assert OperatorTokens(r) + rest == [InWord(r.op)] + list;
    ListAccepts(r.values, rest);
    MembershipAt(r.key, r.op, list, r.values, rest);
  }

  lemma OperatorAccepts(r: Requirement, rest: seq<Token>)
    requires ArityOk(r) && !r.op.Has? && !r.op.NotHas? && ValidValues(r.values)
    requires r.op.In? || r.op.NotIn? ==> Last(r.values) != ""
    requires AtBoundary(rest)
    ensures OperatorAt(r.key, OperatorTokens(r) + rest) == Parsed(Ok(r), rest)
  {
    if r.op.Eq? || r.op.NotEq? {
      ComparisonAccepts(r, rest);
    } else {
      MembershipAccepts(r, rest);
    }
  }

  lemma RequirementAccepts(r: Requirement, rest: seq<Token>)
    requires WellFormedRequirement(r) && AtBoundary(rest)
    ensures RequirementAt(RequirementTokens(r) + rest) == Parsed(Ok(r), rest)
  {
    var ts := RequirementTokens(r) + rest;
    if r.op.NotHas? {
      assert ts[2..] == rest;
    } else {
      assert ts[1..] == OperatorTokens(r) + rest;
      if !r.op.Has? {
        OperatorAccepts(r, rest);
        assert !AtBoundary(ts[1..]);
      } else {
        assert ts[1..] == rest;
      }
    }
  }

  /** A requirement of a key with an operator and values. */
  ghost predicate SpellsOperator(ts: seq<Token>, key: string, r: Requirement, rest: seq<Token>) {
    && ArityOk(r) && r.key == key && !r.op.Has? && !r.op.NotHas? && ValidValues(r.values)
    && (r.op.In? || r.op.NotIn? ==> Last(r.values) != "") && ts == OperatorTokens(r) + rest
  }

  lemma ComparisonIs(key: string, ts: seq<Token>)
    requires Lexical(ts) && ts != [] && !ts[0].Ident? && OperatorAt(key, ts).outcome.Ok?
    ensures SpellsOperator(ts, key, OperatorAt(key, ts).outcome.value, OperatorAt(key, ts).rest)
  {
    assert ts == [ts[0]] + ts[1..];
    ValueIs(ts[1..]);
  }

  lemma ListIs(ts: seq<Token>)
    requires Lexical(ts) && ListAt(ts).outcome.Ok?
    ensures var vs := ListAt(ts).outcome.value;
      ValidValues(vs) && Last(vs) != "" && ts == [TLParen] + (ListTokens(vs) + ([TRParen] + ListAt(ts).rest))
  {
    assert ts == [TLParen] + ts[1..];
    LexicalSuffix([TLParen], ts[1..]);
    ItemsAre(ts[1..]);
  }

  lemma MembershipSpelled(r: Requirement, list: seq<Token>, rest: seq<Token>)
    requires (r.op.In? || r.op.NotIn?) && r.values != []
    requires list == [TLParen] + (ListTokens(r.values) + ([TRParen] + rest))
    ensures [InWord(r.op)] + list == OperatorTokens(r) + rest
  {
    Splice([InWord(r.op), TLParen], ListTokens(r.values), [TRParen], rest);
  }

  lemma MembershipIs(key: string, ts: seq<Token>)
    requires Lexical(ts) && ts != [] && ts[0].Ident? && OperatorAt(key, ts).outcome.Ok?
    ensures SpellsOperator(ts, key, OperatorAt(key, ts).outcome.value, OperatorAt(key, ts).rest)
  {
    var list, r := ts[1..], OperatorAt(key, ts).outcome.value;
    assert ts == [InWord(r.op)] + list;
    LexicalSuffix([ts[0]], list);
    ListIs(list);
    MembershipSpelled(r, list, OperatorAt(key, ts).rest);
  }

  lemma OperatorIs(key: string, ts: seq<Token>)
    requires Lexical(ts) && ts != [] && OperatorAt(key, ts).outcome.Ok?
    ensures SpellsOperator(ts, key, OperatorAt(key, ts).outcome.value, OperatorAt(key, ts).rest)
  {
    if ts[0].Ident? {
      MembershipIs(key, ts);
    } else {
      ComparisonIs(key, ts);
    }
  }

  ghost predicate SpellsRequirement(ts: seq<Token>, r: Requirement, rest: seq<Token>) {
    WellFormedRequirement(r) && ts == RequirementTokens(r) + rest
  }

  lemma AbsenceIs(ts: seq<Token>)
    requires ts != [] && ts[0].TBang? && RequirementAt(ts).outcome.Ok?
    ensures SpellsRequirement(ts, RequirementAt(ts).outcome.value, RequirementAt(ts).rest)
  {
    assert ts == [ts[0], ts[1]] + ts[2..];
  }

  /** A key followed by what spells its operator, possibly nothing. */
  lemma KeyThenOperator(ts: seq<Token>, r: Requirement, rest: seq<Token>)
    requires ArityOk(r) && !r.op.NotHas? && ts != [] && ts[0] == Ident(r.key) && ts[1..] == OperatorTokens(r) + rest
    ensures ts == RequirementTokens(r) + rest
  {
  }

  lemma PresenceIs(ts: seq<Token>)
    requires ts != [] && !ts[0].TBang? && AtBoundary(ts[1..]) && RequirementAt(ts).outcome.Ok?
    ensures SpellsRequirement(ts, RequirementAt(ts).outcome.value, RequirementAt(ts).rest)
  {
    KeyThenOperator(ts, RequirementAt(ts).outcome.value, ts[1..]);
  }

  lemma ConditionIs(ts: seq<Token>)
    requires Lexical(ts) && ts != [] && !ts[0].TBang? && !AtBoundary(ts[1..]) && RequirementAt(ts).outcome.Ok?
    ensures SpellsRequirement(ts, RequirementAt(ts).outcome.value, RequirementAt(ts).rest)
  {
    var p := OperatorAt(ts[0].text, ts[1..]);
    assert p == RequirementAt(ts);
    OperatorIs(ts[0].text, ts[1..]);
    KeyThenOperator(ts, p.outcome.value, p.rest);
  }

  lemma RequirementIs(ts: seq<Token>)
    requires Lexical(ts) && RequirementAt(ts).outcome.Ok?
    ensures SpellsRequirement(ts, RequirementAt(ts).outcome.value, RequirementAt(ts).rest)
    ensures Lexical(RequirementAt(ts).rest)
  {
    if ts[0].TBang? {
      AbsenceIs(ts);
    } else if AtBoundary(ts[1..]) {
      PresenceIs(ts);
    } else {
      ConditionIs(ts);
    }
    LexicalSuffix(RequirementTokens(RequirementAt(ts).outcome.value), RequirementAt(ts).rest);
  }

  lemma LexicalSuffix(front: seq<Token>, rest: seq<Token>)
    requires Lexical(front + rest)
    ensures Lexical(rest)
  {
    assert forall i :: 0 <= i < |rest| ==> rest[i] == (front + rest)[|front| + i];
  }

  // -------------------------------------------------------------------- selectors

  lemma SelectorWith(r: Requirement, sel: Selector)
    requires WellFormedRequirement(r) && WellFormed(sel) && sel != []
    ensures WellFormed([r] + sel)
    ensures TokensOf([r] + sel) == RequirementTokens(r) + ([TComma] + TokensOf(sel))
  {
    assert ([r] + sel)[1..] == sel;
  }

  /** A requirement, its comma, and more. */
  lemma FirstRequirement(r: Requirement, more: seq<Token>)
    requires WellFormedRequirement(r)
    ensures RequirementsAt(RequirementTokens(r) + ([TComma] + more)) == Cons(r, RequirementsAt(more))
  {
    RequirementAccepts(r, [TComma] + more);
    assert ([TComma] + more)[1..] == more;
  }

  lemma OnlyRequirement(r: Requirement)
    requires WellFormedRequirement(r)
    ensures RequirementsAt(RequirementTokens(r)) == Ok([r])
  {
    RequirementAccepts(r, []);
    assert RequirementTokens(r) + [] == RequirementTokens(r);
  }

  lemma {:induction false} SelectorAccepted(sel: Selector)
    requires WellFormed(sel) && sel != []
    ensures RequirementsAt(TokensOf(sel)) == Ok(sel)
  {
    if |sel| == 1 {
      OnlyRequirement(sel[0]);
      assert [sel[0]] == sel;
    } else {
      FirstRequirement(sel[0], TokensOf(sel[1..]));
      SelectorAccepted(sel[1..]);
      assert [sel[0]] + sel[1..] == sel;
    }
  }

  /** When a requirement was parsed and a comma follows it. */
  lemma CommaAfter(ts: seq<Token>) returns (r: Requirement, more: seq<Token>)
    requires Lexical(ts) && RequirementAt(ts).outcome.Ok? && StartsWith(RequirementAt(ts).rest, TComma)
    ensures WellFormedRequirement(r) && RequirementAt(ts).outcome.value == r
    ensures ts == RequirementTokens(r) + ([TComma] + more) && Lexical(more) && |more| < |ts|
    ensures RequirementsAt(ts) == Cons(r, RequirementsAt(more))
  {
    RequirementIs(ts);
    r, more := RequirementAt(ts).outcome.value, RequirementAt(ts).rest[1..];
    assert RequirementAt(ts).rest == [TComma] + more;
    LexicalSuffix([TComma], more);
    FirstRequirement(r, more);
  }

  lemma {:induction false} SelectorIs(ts: seq<Token>)
    requires Lexical(ts) && RequirementsAt(ts).Ok?
    ensures var sel := RequirementsAt(ts).value; sel != [] && WellFormed(sel) && ts == TokensOf(sel)
    decreases |ts|
  {
    if RequirementAt(ts).rest == [] {
      RequirementIs(ts);
    } else {
      var r, more := CommaAfter(ts);
      SelectorIs(more);
      SelectorWith(r, RequirementsAt(more).value);
    }
  }

  /** The parser accepts exactly the spellings of well-formed selectors, each as itself. */
  lemma ParseMeans(s: string, sel: Selector)
    ensures Parse(s) == Ok(sel) <==> WellFormed(sel) && Spelled(s, TokensOf(sel))
  {
    if Parse(s) == Ok(sel) {
      var ts := Lex(s, 0).toks;
      LexMeans(s, ts);
      if ts != [] {
        SelectorIs(ts);
      }
    }
    if WellFormed(sel) && Spelled(s, TokensOf(sel)) {
      LexMeans(s, TokensOf(sel));
      if sel != [] {
        SelectorAccepted(sel);
        assert TokensOf(sel) != [];
      }
    }
  }

  // ------------------------------------------------------------- a canonical text

  /** A space where two tokens would run together, and nothing anywhere else. */
  function Tight(ts: seq<Token>): (gaps: seq<string>)
    ensures |gaps| == |ts| + 1
  {
    if |ts| < 2 then seq(|ts| + 1, _ => "")
    else [""] + Tight(ts[1..])[0 := if Touching(ts[0], ts[1]) then " " else ""]
  }

  lemma {:induction false} TightIsApart(ts: seq<Token>)
    ensures Apart(ts, Tight(ts))
  {
    if |ts| == 1 {
      assert Apart(ts[1..], Tight(ts)[1..]);
    } else if |ts| > 1 {
      TightIsApart(ts[1..]);
      var gaps := Tight(ts[1..]);
      var tail := Tight(ts)[1..];
      assert tail == gaps[0 := if Touching(ts[0], ts[1]) then " " else ""];
      assert tail[1..] == gaps[1..];
      assert Apart(ts[1..], tail);
    }
  }

  lemma ValueLexical(v: string)
    requires ValidValue(Some(v))
    ensures Lexical(ValueTokens(v))
  {
    assert v != "" ==> IsIdent(v);
  }

  lemma LexicalConcat(a: seq<Token>, b: seq<Token>)
    requires Lexical(a) && Lexical(b)
    ensures Lexical(a + b)
  {
  }

  lemma {:induction false} ListLexical(vs: seq<string>)
    requires ValidValues(vs)
    ensures Lexical(ListTokens(vs))
  {
    ValueLexical(vs[0]);
    if |vs| > 1 {
      ListLexical(vs[1..]);
      LexicalConcat([TComma], ListTokens(vs[1..]));
      LexicalConcat(ValueTokens(vs[0]), [TComma] + ListTokens(vs[1..]));
    }
  }

  lemma OperatorLexical(r: Requirement)
    requires WellFormedRequirement(r)
    ensures Lexical(OperatorTokens(r))
  {
    if r.op.In? || r.op.NotIn? {
      ListLexical(r.values);
      LexicalConcat(ListTokens(r.values), [TRParen]);
      LexicalConcat([InWord(r.op), TLParen], ListTokens(r.values) + [TRParen]);
    } else if r.values != [] {
      ValueLexical(r.values[0]);
      LexicalConcat([if r.op.Eq? then TEq else TNotEq], ValueTokens(r.values[0]));
    }
  }

  lemma RequirementLexical(r: Requirement)
    requires WellFormedRequirement(r)
    ensures Lexical(RequirementTokens(r))
  {
    ValidKeyIsIdent(r.key);
    OperatorLexical(r);
    LexicalConcat((if r.op.NotHas? then [TBang] else []) + [Ident(r.key)], OperatorTokens(r));
  }

  lemma {:induction false} SelectorLexical(sel: Selector)
    requires WellFormed(sel)
    ensures Lexical(TokensOf(sel))
  {
    if sel != [] {
      RequirementLexical(sel[0]);
      SelectorLexical(sel[1..]);
      LexicalConcat([TComma], TokensOf(sel[1..]));
      LexicalConcat(RequirementTokens(sel[0]), [TComma] + TokensOf(sel[1..]));
    }
  }

  function TextOf(sel: Selector): string
    requires WellFormed(sel)
  {
    Render(TokensOf(sel), Tight(TokensOf(sel)))
  }

  /** Every well-formed selector has a text, and it parses back to the selector. */
  lemma TextParses(sel: Selector)
    requires WellFormed(sel)
    ensures Parse(TextOf(sel)) == Ok(sel)
  {
    SelectorLexical(sel);
    TightIsApart(TokensOf(sel));
    assert SpelledWith(TextOf(sel), TokensOf(sel), Tight(TokensOf(sel)));
    ParseMeans(TextOf(sel), sel);
  }

  // ------------------------------------------- texts that run past their tokens

  /** A list that stops after a comma: its last value is the empty one never written. */
  ghost predicate Unfinished(r: Requirement) {
    && (r.op.In? || r.op.NotIn?) && ValidKey(r.key, true)
    && |r.values| > 1 && ValidValues(r.values) && Last(r.values) == ""
  }

  function UnfinishedTokens(r: Requirement): seq<Token>
    requires r.values != []
  {
    [Ident(r.key)] + ([InWord(r.op)] + ([TLParen] + ListTokens(r.values)))
  }

  /** Whole requirements, each with its comma. */
  function Before(sel: Selector): seq<Token>
    requires WellFormed(sel)
  {
    if sel == [] then [] else RequirementTokens(sel[0]) + ([TComma] + Before(sel[1..]))
  }

  ghost predicate StopsInList(ts: seq<Token>, sel: Selector, r: Requirement) {
    WellFormed(sel) && Unfinished(r) && ts == Before(sel) + UnfinishedTokens(r)
  }

  lemma ListTokensNonempty(vs: seq<string>)
    requires |vs| > 1
    ensures ListTokens(vs) != []
  {
  }

  lemma RequirementRunsOut(r: Requirement)
    requires Unfinished(r)
    ensures RequirementAt(UnfinishedTokens(r)).outcome.OutOfRange?
  {
    var list := [TLParen] + ListTokens(r.values);
    var operator := [InWord(r.op)] + list;
    assert list[1..] == ListTokens(r.values) && operator[1..] == list;
    ItemsRunOut(r.values);
    ListTokensNonempty(r.values);
    assert ListAt(list).outcome.OutOfRange?;
    assert OperatorAt(r.key, operator).outcome.OutOfRange?;
    assert UnfinishedTokens(r)[1..] == operator;
  }

  lemma ListRanOut(ts: seq<Token>) returns (vs: seq<string>)
    requires Lexical(ts) && ListAt(ts).outcome.OutOfRange?
    ensures |vs| > 1 && ValidValues(vs) && Last(vs) == "" && ts == [TLParen] + ListTokens(vs)
  {
    assert ts == [TLParen] + ts[1..];
    LexicalSuffix([TLParen], ts[1..]);
    vs := ItemsRanOut(ts[1..]);
    assert ListTokens(vs) != [];
  }

  lemma OperatorRanOut(key: string, ts: seq<Token>) returns (r: Requirement)
    requires Lexical(ts) && ts != [] && ValidKey(key, true) && OperatorAt(key, ts).outcome.OutOfRange?
    ensures Unfinished(r) && r.key == key && ts == [InWord(r.op)] + ([TLParen] + ListTokens(r.values))
  {
    var list := ts[1..];
    assert ts == [ts[0]] + list;
    LexicalSuffix([ts[0]], list);
    var vs := ListRanOut(list);
    r := Requirement(if ts[0].text == "in" then In else NotIn, key, vs);
  }

  lemma RequirementRanOut(ts: seq<Token>) returns (r: Requirement)
    requires Lexical(ts) && RequirementAt(ts).outcome.OutOfRange?
    ensures Unfinished(r) && ts == UnfinishedTokens(r)
  {
    assert ts == [ts[0]] + ts[1..];
    LexicalSuffix([ts[0]], ts[1..]);
    r := OperatorRanOut(ts[0].text, ts[1..]);
  }

  lemma {:induction false} StoppingRunsOut(sel: Selector, r: Requirement)
    requires WellFormed(sel) && Unfinished(r)
    ensures RequirementsAt(Before(sel) + UnfinishedTokens(r)) == OutOfRange
  {
    if sel == [] {
      assert Before(sel) + UnfinishedTokens(r) == UnfinishedTokens(r);
      RequirementRunsOut(r);
    } else {
      StoppingRunsOut(sel[1..], r);
      FirstRequirement(sel[0], Before(sel[1..]) + UnfinishedTokens(r));
      Splice(RequirementTokens(sel[0]), [TComma], Before(sel[1..]), UnfinishedTokens(r));
    }
  }

  lemma {:induction false} RunningOutStops(ts: seq<Token>) returns (sel: Selector, r: Requirement)
    requires Lexical(ts) && RequirementsAt(ts).OutOfRange?
    ensures StopsInList(ts, sel, r)
    decreases |ts|
  {
    if RequirementAt(ts).outcome.OutOfRange? {
      r := RequirementRanOut(ts);
      sel := [];
    } else {
      var first, more := CommaAfter(ts);
      var others;
      others, r := RunningOutStops(more);
      sel := [first] + others;
      StopsLater(more, first, others, r);
    }
  }

  lemma StopsLater(more: seq<Token>, first: Requirement, others: Selector, r: Requirement)
    requires WellFormedRequirement(first) && StopsInList(more, others, r)
    ensures StopsInList(RequirementTokens(first) + ([TComma] + more), [first] + others, r)
  {
    assert ([first] + others)[1..] == others;
    Splice(RequirementTokens(first), [TComma], Before(others), UnfinishedTokens(r));
  }

  /** Exactly the texts that stop right after a comma inside a value list make the parser
      index past its tokens; every other text parses or fails with an error. */
  lemma RunsOutIff(s: string)
    ensures Parse(s) == OutOfRange <==> exists ts, sel, r :: Spelled(s, ts) && StopsInList(ts, sel, r)
  {
    if Parse(s) == OutOfRange {
      var ts := Lex(s, 0).toks;
      LexMeans(s, ts);
      var sel, r := RunningOutStops(ts);
      assert Spelled(s, ts) && StopsInList(ts, sel, r);
    }
    if exists ts, sel, r :: Spelled(s, ts) && StopsInList(ts, sel, r) {
      var ts, sel, r :| Spelled(s, ts) && StopsInList(ts, sel, r);
      LexMeans(s, ts);
      StoppingRunsOut(sel, r);
      assert ts != [];
    }
  }

  lemma ListStartSpelled()
    ensures Spelled("(a,", [TLParen, Ident("a"), TComma])
  {
    assert SpelledWith("", [], [""]);
    Extend(TComma, "", []);
    assert "," + "" == "," && [TComma] + [] == [TComma];
    Extend(Ident("a"), ",", [TComma]);
    assert "a" + "," == "a," && [Ident("a")] + [TComma] == [Ident("a"), TComma];
    Extend(TLParen, "a,", [Ident("a"), TComma]);
    assert "(" + "a," == "(a,";
    assert [TLParen] + [Ident("a"), TComma] == [TLParen, Ident("a"), TComma];
  }

  lemma CommaSpelled()
    ensures Spelled("k in (a,", [Ident("k"), Ident("in"), TLParen, Ident("a"), TComma])
  {
    var list := [TLParen, Ident("a"), TComma];
    ListStartSpelled();
    ExtendSpace(' ', "(a,", list);
    assert [' '] + "(a," == " (a,";
    Extend(Ident("in"), " (a,", list);
    assert "in" + " (a," == "in (a,";
    var operator := [Ident("in")] + list;
    ExtendSpace(' ', "in (a,", operator);
    assert [' '] + "in (a," == " in (a,";
    Extend(Ident("k"), " in (a,", operator);
    assert "k" + " in (a," == "k in (a,";
    assert [Ident("k")] + operator == [Ident("k"), Ident("in"), TLParen, Ident("a"), TComma];
  }

  /** One such text. */
  lemma CommaThenNothing()
    ensures Parse("k in (a,") == OutOfRange
  {
    var r := Requirement(In, "k", ["a", ""]);
    assert UnfinishedTokens(r) == [Ident("k"), Ident("in"), TLParen, Ident("a"), TComma] by {
      assert r.values[1..] == [""];
    }
    assert ValidKey("k", true) by {
      assert "k"[1..] == "";
    }
    assert StopsInList(UnfinishedTokens(r), [], r);
    CommaSpelled();
    RunsOutIff("k in (a,");
  }

  // --------------------------------------------------- some texts, letter by letter

  /** A run of spaces, tabs, line feeds and carriage returns. */
  predicate Blank(s: string) {
    forall i :: 0 <= i < |s| ==> s[i] as int == 32 || s[i] as int == 9 || s[i] as int == 10 || s[i] as int == 13
  }

  lemma {:induction false} BlankBefore(blank: string, s: string, ts: seq<Token>)
    requires Blank(blank) && Spelled(s, ts)
    ensures Spelled(blank + s, ts)
  {
    if blank == "" {
      assert blank + s == s;
    } else {
      BlankBefore(blank[1..], s, ts);
      ExtendSpace(blank[0], blank[1..] + s, ts);
      assert blank + s == [blank[0]] + (blank[1..] + s);
    }
  }

  lemma BlankIsSpelled(blank: string)
    requires Blank(blank)
    ensures Spelled(blank, [])
  {
    assert SpelledWith("", [], [""]);
    BlankBefore(blank, "", []);
    assert blank + "" == blank;
  }

  /** An identifier before a blank, an operator or the end. */
  lemma IdentBefore(text: string, s: string, ts: seq<Token>)
    requires Spelled(s, ts) && (KeyText(text) || SegmentText(text))
    requires s != "" ==> s[0] in " \t\n\r=!(),"
    ensures Spelled(text + s, [Ident(text)] + ts)
  {
    KeyMeans(text);
    ValueMeans(text);
    if KeyText(text) {
      ValidKeyIsIdent(text);
    }
    assert Spelling(Ident(text)) == text;
    Extend(Ident(text), s, ts);
  }

  lemma KeyAloneIsWellFormed(r: Requirement)
    requires r.op.Has? && r.values == []
    ensures WellFormed([r]) <==> KeyText(r.key)
    ensures WellFormed([r]) ==> TokensOf([r]) == [Ident(r.key)]
  {
    KeyMeans(r.key);
    assert WellFormed([r]) ==> WellFormedRequirement([r][0]);
    assert [] + [Ident(r.key)] + [] == [Ident(r.key)];
  }

  /** A key among blanks is the selector of the systems that have it, whatever the key's
      letters; and no other text between blanks is. */
  lemma KeyAlone(before: string, key: string, after: string)
    requires Blank(before) && Blank(after)
    ensures Parse(before + (key + after)) == Ok([Requirement(Has, key, [])]) <==> KeyText(key)
  {
    var r := Requirement(Has, key, []);
    KeyAloneIsWellFormed(r);
    ParseMeans(before + (key + after), [r]);
    if KeyText(key) {
      BlankIsSpelled(after);
      IdentBefore(key, after, []);
      assert [Ident(key)] + [] == [Ident(key)];
      BlankBefore(before, key + after, [Ident(key)]);
    }
  }

  lemma SignBefore(t: Token, text: string, s: string, ts: seq<Token>)
    requires !t.Ident? && Spelling(t) == text && Spelled(s, ts) && (t.TBang? && s != "" ==> s[0] != '=')
    ensures Spelled(text + s, [t] + ts)
  {
    Extend(t, s, ts);
  }

  lemma OneIsWellFormed(r: Requirement)
    requires WellFormedRequirement(r)
    ensures WellFormed([r]) && TokensOf([r]) == RequirementTokens(r)
  {
  }

  lemma IdentAlone(text: string)
    requires KeyText(text) || SegmentText(text)
    ensures Spelled(text, [Ident(text)])
  {
    BlankIsSpelled("");
    IdentBefore(text, "", []);
    assert text + "" == text && [Ident(text)] + [] == [Ident(text)];
  }

  lemma KeyStarts(key: string)
    requires KeyText(key)
    ensures key != "" && key[0] != '='
  {
    KeyMeans(key);
    ValidKeyIsIdent(key);
  }

  lemma SpelledAbsenceParses(r: Requirement, s: string)
    requires r.op.NotHas? && r.values == [] && KeyText(r.key) && Spelled(s, [TBang] + [Ident(r.key)])
    ensures Parse(s) == Ok([r])
  {
    KeyMeans(r.key);
    OneIsWellFormed(r);
    assert RequirementTokens(r) == [TBang] + [Ident(r.key)];
    ParseMeans(s, [r]);
  }

  /** !key. */
  lemma AbsenceParses(key: string)
    requires KeyText(key)
    ensures Parse("!" + key) == Ok([Requirement(NotHas, key, [])])
  {
    IdentAlone(key);
    KeyStarts(key);
    SignBefore(TBang, "!", key, [Ident(key)]);
    SpelledAbsenceParses(Requirement(NotHas, key, []), "!" + key);
  }

  /** key=value and key!=value. */
  lemma ComparisonsParse(key: string, value: string)
    requires KeyText(key) && SegmentText(value)
    ensures Parse(key + ("=" + value)) == Ok([Requirement(Eq, key, [value])])
    ensures Parse(key + ("!=" + value)) == Ok([Requirement(NotEq, key, [value])])
  {
    IdentAlone(value);
    EqualityParses(key + ("=" + value), key, value, Eq, TEq, "=");
    EqualityParses(key + ("!=" + value), key, value, NotEq, TNotEq, "!=");
  }

  lemma EqualityParses(text: string, key: string, value: string, op: Op, t: Token, sign: string)
    requires KeyText(key) && SegmentText(value) && Spelled(value, [Ident(value)]) && text == key + (sign + value)
    requires (op.Eq? && t.TEq? && sign == "=") || (op.NotEq? && t.TNotEq? && sign == "!=")
    ensures Parse(text) == Ok([Requirement(op, key, [value])])
  {
    KeyMeans(key);
    ValueMeans(value);
    SignBefore(t, sign, value, [Ident(value)]);
    IdentBefore(key, sign + value, [t] + [Ident(value)]);
    var r := Requirement(op, key, [value]);
    OneIsWellFormed(r);
    assert RequirementTokens(r) == [Ident(key)] + ([t] + [Ident(value)]);
    ParseMeans(text, [r]);
  }

  /** The text is a selector, of exactly the systems with these labels if chosen. */
  predicate Chooses(text: string, rows: LabelMap, chosen: bool) {
    Parse(text).Ok? && (SatisfiesAll(rows, Parse(text).value) <==> chosen)
  }

  lemma OneChooses(text: string, r: Requirement, rows: LabelMap)
    requires Parse(text) == Ok([r])
    ensures Chooses(text, rows, Satisfies(rows, r))
  {
    assert SatisfiesAll(rows, [r]) ==> Satisfies(rows, [r][0]);
  }

  /** From text to meaning, in three lemmas for the six operators: which systems a text chooses. */
  lemma PresenceChooses(text: string, key: string, rows: LabelMap)
    requires KeyText(key) && (text == key || text == "!" + key)
    ensures Chooses(text, rows, (text == key) == (key in rows))
  {
    if text == key {
      KeyAlone("", key, "");
      assert "" + (key + "") == key;
      OneChooses(text, Requirement(Has, key, []), rows);
    } else {
      AbsenceParses(key);
      OneChooses(text, Requirement(NotHas, key, []), rows);
    }
  }

  lemma ComparisonChooses(text: string, key: string, sign: string, value: string, rows: LabelMap)
    requires KeyText(key) && SegmentText(value) && text == key + (sign + value) && (sign == "=" || sign == "!=")
    ensures Chooses(text, rows, (sign == "=") == (key in rows && rows[key] == Some(value)))
  {
    IdentAlone(value);
    EqualityParses(text, key, value, if sign == "=" then Eq else NotEq, if sign == "=" then TEq else TNotEq, sign);
    OneChooses(text, Requirement(if sign == "=" then Eq else NotEq, key, [value]), rows);
  }

  /** key in (value, value') and key notin (value, value'). */
  lemma ListTextParses(text: string, key: string, value: string, value': string, word: string)
    requires KeyText(key) && SegmentText(value) && SegmentText(value') && (word == "in" || word == "notin")
    requires text == key + (" " + (word + ("(" + (value + ("," + (value' + ")"))))))
    ensures Parse(text) == Ok([Requirement(if word == "in" then In else NotIn, key, [value, value'])])
  {
    var close := [TRParen];
    BlankIsSpelled("");
    SignBefore(TRParen, ")", "", []);
    assert ")" + "" == ")" && [TRParen] + [] == close;
    IdentBefore(value', ")", close);
    SignBefore(TComma, ",", value' + ")", [Ident(value')] + close);
    IdentBefore(value, "," + (value' + ")"), [TComma] + ([Ident(value')] + close));
    var items := [Ident(value)] + ([TComma] + ([Ident(value')] + close));
    var list := value + ("," + (value' + ")"));
    SignBefore(TLParen, "(", list, items);
    ListTextParsesFrom(text, key, value, value', word, "(" + list, [TLParen] + items);
  }

  predicate IsAmong(rows: LabelMap, key: string, value: string, value': string) {
    key in rows && (rows[key] == Some(value) || rows[key] == Some(value'))
  }

  lemma AmongMeans(r: Requirement, value: string, value': string, rows: LabelMap)
    requires (r.op.In? || r.op.NotIn?) && r.values == [value, value']
    ensures Satisfies(rows, r) == (r.op.In? == IsAmong(rows, r.key, value, value'))
  {
  }

  lemma MembershipChooses(
    text: string, key: string, word: string, value: string, value': string, rows: LabelMap)
    requires KeyText(key) && SegmentText(value) && SegmentText(value') && (word == "in" || word == "notin")
    requires text == key + (" " + (word + ("(" + (value + ("," + (value' + ")"))))))
    ensures Chooses(text, rows, (word == "in") == IsAmong(rows, key, value, value'))
  {
    var r := Requirement(if word == "in" then In else NotIn, key, [value, value']);
    ListTextParses(text, key, value, value', word);
    AmongMeans(r, value, value', rows);
    OneChooses(text, r, rows);
  }

  lemma ListTextParsesFrom(
    text: string, key: string, value: string, value': string, word: string, s: string, ts: seq<Token>)
    requires KeyText(key) && SegmentText(value) && SegmentText(value') && (word == "in" || word == "notin")
    requires ts == [TLParen] + ([Ident(value)] + ([TComma] + ([Ident(value')] + [TRParen])))
    requires Spelled(s, ts) && s != "" && s[0] == '(' && text == key + (" " + (word + s))
    ensures Parse(text) == Ok([Requirement(if word == "in" then In else NotIn, key, [value, value'])])
  {
    assert SegmentText("in") && SegmentText("notin");
    IdentBefore(word, s, ts);
    BlankBefore(" ", word + s, [Ident(word)] + ts);
    IdentBefore(key, " " + (word + s), [Ident(word)] + ts);
    var r := Requirement(if word == "in" then In else NotIn, key, [value, value']);
    KeyMeans(key);
    ValueMeans(value);
    ValueMeans(value');
    OneIsWellFormed(r);
    MembershipTokens(r, value, value', ts);
    ParseMeans(text, [r]);
  }

  lemma MembershipTokens(r: Requirement, value: string, value': string, ts: seq<Token>)
    requires (r.op.In? || r.op.NotIn?) && r.values == [value, value'] && value != "" && value' != ""
    requires ts == [TLParen] + ([Ident(value)] + ([TComma] + ([Ident(value')] + [TRParen])))
    ensures RequirementTokens(r) == [Ident(r.key)] + ([InWord(r.op)] + ts)
  {
    assert r.values[1..] == [value'];
    assert ListTokens(r.values) == [Ident(value)] + ([TComma] + [Ident(value')]);
    assert [TLParen] + (ListTokens(r.values) + [TRParen]) == ts;
    assert [InWord(r.op), TLParen] + (ListTokens(r.values) + [TRParen]) == [InWord(r.op)] + ts;
  }
}
