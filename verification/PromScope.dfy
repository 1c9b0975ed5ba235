/** Scope enforcement on PromQL: every selector of a query gets a matcher on system_id
    (internal/metrics/enforce.go). */
module PromScope {
  import opened Common

  const SYSTEM_ID := "system_id"

  // ----------------------------------------------------- regular expressions

  /** One element of an alternative: a literal character, ".", "^" or "$". */
  datatype Item = Lit(c: char) | AnyChar | Begin | End

  const META := ['\\', '.', '+', '*', '?', '(', ')', '|', '[', ']', '{', '}', '^', '$']

  function QuoteChar(c: char): string {
    if c in META then ['\\', c] else [c]
  }

  /** regexp.QuoteMeta. */
  function QuoteMeta(s: string): string {
    if s == [] then [] else QuoteChar(s[0]) + QuoteMeta(s[1..])
  }

  /** The alternatives of a pattern without repetition, groups or classes; None when the
      pattern uses one of those. */
  function Parse(p: string): Option<seq<seq<Item>>> {
    if p == [] then Some([[]])
    else if p[0] == '|' then
      var rest := Parse(p[1..]);
      if rest.None? then None else Some([[]] + rest.value)
    else if p[0] == '\\' then
      if |p| > 1 && p[1] in META then Prepend(Lit(p[1]), Parse(p[2..])) else None
    else if p[0] == '.' then Prepend(AnyChar, Parse(p[1..]))
    else if p[0] == '^' then Prepend(Begin, Parse(p[1..]))
    else if p[0] == '$' then Prepend(End, Parse(p[1..]))
    else if p[0] in META then None
    else Prepend(Lit(p[0]), Parse(p[1..]))
  }

  function Prepend(i: Item, rest: Option<seq<seq<Item>>>): Option<seq<seq<Item>>> {
    if rest.None? || rest.value == [] then rest else Some([[i] + rest.value[0]] + rest.value[1..])
  }

  /** items match all of s from position n on, ^ and $ being tied to its ends. */
  predicate MatchItems(items: seq<Item>, s: string, n: nat)
    requires n <= |s|
    decreases |items|
  {
    if items == [] then n == |s|
    else match items[0]
      case Lit(c) => n < |s| && s[n] == c && MatchItems(items[1..], s, n + 1)
      case AnyChar => n < |s| && s[n] != '\n' && MatchItems(items[1..], s, n + 1)
      case Begin => n == 0 && MatchItems(items[1..], s, n)
      case End => n == |s| && MatchItems(items[1..], s, n)
  }

  /** Prometheus anchors the pattern at both ends: ^(?:pattern)$. */
  predicate FullMatch(pattern: string, s: string)
    requires Parse(pattern).Some?
  {
    exists i :: 0 <= i < |Parse(pattern).value| && MatchItems(Parse(pattern).value[i], s, 0)
  }

  function Literal(s: string): seq<Item> {
    seq(|s|, i requires 0 <= i < |s| => Lit(s[i]))
  }

  lemma {:induction false} LiteralMatchesItself(w: string, s: string, n: nat)
    requires n <= |s|
    ensures MatchItems(Literal(w), s, n) <==> s[n..] == w
  {
    if w != [] {
      assert Literal(w)[1..] == Literal(w[1..]);
      if n < |s| {
        LiteralMatchesItself(w[1..], s, n + 1);
        assert s[n..] == [s[n]] + s[n + 1..] && w == [w[0]] + w[1..];
      }
    }
  }

  /** strings.Join(parts, "|") of at least one part. */
  function Join(parts: seq<string>): string
    requires parts != []
  {
    if |parts| == 1 then parts[0] else parts[0] + "|" + Join(parts[1..])
  }

  function Quoted(ids: seq<string>): seq<string> {
    seq(|ids|, i requires 0 <= i < |ids| => QuoteMeta(ids[i]))
  }

  function JoinQuoted(ids: seq<string>): (p: string)
    requires ids != []
    ensures |ids| == 1 ==> p == QuoteMeta(ids[0])
    ensures |ids| > 1 ==> p == QuoteMeta(ids[0]) + ("|" + JoinQuoted(ids[1..]))
  {
    assert Quoted(ids)[1..] == Quoted(ids[1..]);
    Join(Quoted(ids))
  }

  function Literals(ids: seq<string>): seq<seq<Item>> {
    seq(|ids|, i requires 0 <= i < |ids| => Literal(ids[i]))
  }

  lemma {:induction false} QuotedCharParses(c: char, q: string)
    ensures Parse(QuoteChar(c) + q) == Prepend(Lit(c), Parse(q))
  {
    var p := QuoteChar(c) + q;
    assert p[|QuoteChar(c)|..] == q;
  }

  lemma {:induction false} BarParses(q: string)
    requires Parse(q).Some?
    ensures Parse("|" + q) == Some([[]] + Parse(q).value)
  {
    assert ("|" + q)[1..] == q;
  }

  lemma QuotedStep(c: char, q: string, head: seq<Item>, others: seq<seq<Item>>)
    requires Parse(q) == Some([head] + others)
    ensures Parse(QuoteChar(c) + q) == Some([[Lit(c)] + head] + others)
  {
    QuotedCharParses(c, q);
    assert ([head] + others)[0] == head && ([head] + others)[1..] == others;
  }

  lemma QuoteUnfolds(w: string, p: string)
    requires w != []
    ensures QuoteMeta(w) + p == QuoteChar(w[0]) + (QuoteMeta(w[1..]) + p)
  {
    Regroup(QuoteChar(w[0]), QuoteMeta(w[1..]), p);
  }

  lemma LiteralUnfolds(w: string, first: seq<Item>)
    requires w != []
    ensures Literal(w) + first == [Lit(w[0])] + (Literal(w[1..]) + first)
  {
  }

  /** Quoting puts a text, whatever its characters, literally at the head of the first alternative. */
  lemma {:induction false} QuotedHead(w: string, p: string, first: seq<Item>, others: seq<seq<Item>>)
    requires Parse(p) == Some([first] + others)
    ensures Parse(QuoteMeta(w) + p) == Some([Literal(w) + first] + others)
  {
    if w == [] {
      assert QuoteMeta(w) + p == p && Literal(w) + first == first;
    } else {
      QuotedHead(w[1..], p, first, others);
      QuoteUnfolds(w, p);
      LiteralUnfolds(w, first);
      QuotedStep(w[0], QuoteMeta(w[1..]) + p, Literal(w[1..]) + first, others);
    }
  }

  /** The pattern built for several ids parses to exactly those ids as literal alternatives. */
  lemma {:induction false} JoinParses(ids: seq<string>)
    requires ids != []
    ensures Parse(JoinQuoted(ids)) == Some(Literals(ids))
  {
    var id, rest := ids[0], Literals(ids[1..]);
    assert Literal(id) + [] == Literal(id) && Literals(ids) == [Literal(id)] + rest;
    if |ids| == 1 {
      assert QuoteMeta(id) + "" == QuoteMeta(id);
      var empty: seq<seq<Item>> := [[]];
      assert rest == [] && empty + rest == empty && Parse("") == Some(empty);
      QuotedHead(id, "", [], rest);
    } else {
      JoinParses(ids[1..]);
      BarParses(JoinQuoted(ids[1..]));
      QuotedHead(id, "|" + JoinQuoted(ids[1..]), [], rest);
      assert JoinQuoted(ids) == QuoteMeta(id) + ("|" + JoinQuoted(ids[1..]));
    }
  }

  // ------------------------------------------------------------ the matcher

  /** A label matcher of any kind. Equality and the other kind the enforcer builds are spelled
      out; Other stands for whatever else a caller may have written. */
  datatype Matcher =
    | Equal(name: string, value: string)
    | Regexp(name: string, pattern: string)
    | Other(name: string, test: string -> bool)
  {
    predicate Accepts(labels: map<string, string>) {
      var v := if name in labels then labels[name] else "";
      match this
      case Equal(_, value) => v == value
      case Regexp(_, pattern) => Parse(pattern).Some? && FullMatch(pattern, v)
      case Other(_, test) => test(v)
    }
  }

  /** The matcher pinning system_id to the allowed ids. */
  method SystemIDMatcher(allowed: seq<string>) returns (m: Matcher)
    ensures forall labels :: m.Accepts(labels) <==> SystemOf(labels) in allowed
    ensures forall labels :: m.Accepts(labels) <==>
      (if "system_id" in labels then labels["system_id"] else "") in allowed
    ensures m.Regexp? ==> Parse(m.pattern).Some?
    ensures m.name == SYSTEM_ID && (m.Equal? <==> |allowed| == 1)
  {
    if |allowed| == 0 {
      forall s
        ensures !FullMatch(".^", s)
      {
        NeverMatches(s);
      }
      return Regexp(SYSTEM_ID, ".^");
    }
    if |allowed| == 1 {
      return Equal(SYSTEM_ID, allowed[0]);
    }
    var escaped: seq<string> := [];
    for i := 0 to |allowed|
      invariant escaped == Quoted(allowed[..i])
    {
      escaped := escaped + [QuoteMeta(allowed[i])];
    }
    assert allowed[..|allowed|] == allowed;
    var joined := Join(escaped);
    JoinParses(allowed);
    forall s
      ensures FullMatch(joined, s) <==> s in allowed
    {
      AlternationMeans(allowed, s);
    }
    m := Regexp(SYSTEM_ID, joined);
  }

  function SystemOf(labels: map<string, string>): string {
    if SYSTEM_ID in labels then labels[SYSTEM_ID] else ""
  }

  lemma PrependOne(i: Item, alt: seq<Item>)
    ensures Prepend(i, Some([alt])) == Some([[i] + alt])
  {
    assert [alt][1..] == [];
    assert [[i] + alt] + [] == [[i] + alt];
  }

  /** "." needs a character before the beginning. */
  lemma {:induction false} NeverMatches(s: string)
    ensures Parse(".^") == Some([[AnyChar, Begin]]) && !FullMatch(".^", s)
  {
    assert Parse("") == Some([[]]);
    assert "^"[1..] == "" && ".^"[1..] == "^";
    assert Parse("^") == Prepend(Begin, Parse(""));
    PrependOne(Begin, []);
    assert Parse(".^") == Prepend(AnyChar, Parse("^"));
    PrependOne(AnyChar, [Begin]);
    var none: seq<Item> := [];
    assert [Begin] + none == [Begin] && [AnyChar] + [Begin] == [AnyChar, Begin];
    assert [AnyChar, Begin][1..] == [Begin];
  }

  lemma {:induction false} AlternationMeans(ids: seq<string>, s: string)
    requires ids != [] && Parse(JoinQuoted(ids)) == Some(Literals(ids))
    ensures FullMatch(JoinQuoted(ids), s) <==> s in ids
  {
    forall i | 0 <= i < |ids|
      ensures MatchItems(Literals(ids)[i], s, 0) <==> s == ids[i]
    {
      LiteralMatchesItself(ids[i], s, 0);
      assert s[0..] == s;
    }
  }

  // ------------------------------------------------------------------ queries

  /** What a query text denotes, matchers included. head is a selector's metric, offset and
      the like; op names whatever an inner node does with its operands: a range, a
      subquery, a function, an aggregation, an operator. Absent is absent() or
      absent_over_time() of a selector, the two functions that look at its matchers. */
  datatype Query =
    | Select(head: string, matchers: seq<Matcher>)
    | Absent(head: string, matchers: seq<Matcher>)
    | Apply(op: string, args: Queries)
  datatype Queries = NoMore | More(first: Query, rest: Queries)

  datatype Series = Series(labels: map<string, string>, samples: seq<(int, real)>)

  const METRIC_NAME := "__name__"

  /** Some equality matcher is on this label. */
  predicate Named(name: string, ms: seq<Matcher>) {
    exists i :: 0 <= i < |ms| && ms[i].Equal? && ms[i].name == name
  }

  /** The labels that absent() gives its result: those of equality matchers, but none on
      which there is a later matcher. */
  function Spelled(ms: seq<Matcher>): map<string, string> {
    if ms == [] then map[]
    else
      var before, m := Spelled(Front(ms)), Last(ms);
      if m.name == METRIC_NAME then before
      else if m.Equal? && !Named(m.name, Front(ms)) then before[m.name := m.value]
      else before - {m.name}
  }

  /** The engine, which is not part of this model: what a selector makes of the series it
      selects, what absent() makes of its labels and those series, and what a node makes of
      its operands. D is a denotation, say a function of time. */
  datatype Engine<!D> = Engine(
    select: (string, seq<Series>) -> D,
    absent: (string, map<string, string>, seq<Series>) -> D,
    apply: (string, seq<D>) -> D)

  predicate AllAccept(ms: seq<Matcher>, x: Series) {
    forall i :: 0 <= i < |ms| ==> ms[i].Accepts(x.labels)
  }

  function Filter(db: seq<Series>, ms: seq<Matcher>): seq<Series> {
    if db == [] then [] else Filter(Front(db), ms) + if AllAccept(ms, Last(db)) then [Last(db)] else []
  }

  function Evaluate<D>(q: Query, db: seq<Series>, e: Engine<D>): D {
    match q
    case Select(head, matchers) => e.select(head, Filter(db, matchers))
    case Absent(head, matchers) => e.absent(head, Spelled(matchers), Filter(db, matchers))
    case Apply(op, args) => e.apply(op, EvaluateAll(args, db, e))
  }

  function EvaluateAll<D>(qs: Queries, db: seq<Series>, e: Engine<D>): seq<D> {
    match qs
    case NoMore => []
    case More(first, rest) => [Evaluate(first, db, e)] + EvaluateAll(rest, db, e)
  }

  function Restrict(q: Query, m: Matcher): Query {
    match q
    case Select(head, matchers) => Select(head, matchers + [m])
    case Absent(head, matchers) => Absent(head, matchers + [m])
    case Apply(op, args) => Apply(op, RestrictAll(args, m))
  }

  function RestrictAll(qs: Queries, m: Matcher): Queries {
    match qs
    case NoMore => NoMore
    case More(first, rest) => More(Restrict(first, m), RestrictAll(rest, m))
  }

  /** Requiring one more matcher is selecting from fewer series. */
  lemma {:induction false} FilterTwice(db: seq<Series>, ms: seq<Matcher>, m: Matcher)
    ensures Filter(db, ms + [m]) == Filter(Filter(db, [m]), ms)
  {
    if db != [] {
      FilterTwice(Front(db), ms, m);
      var x := Last(db);
      assert AllAccept(ms + [m], x) <==> AllAccept(ms, x) && m.Accepts(x.labels) by {
        assert (ms + [m])[|ms|] == m;
        assert forall i :: 0 <= i < |ms| ==> (ms + [m])[i] == ms[i];
      }
      assert AllAccept([m], x) <==> m.Accepts(x.labels) by {
        assert [m][0] == m;
      }
      var kept := Filter(Front(db), [m]);
      if m.Accepts(x.labels) {
        assert Front(kept + [x]) == kept && Filter(db, [m]) == kept + [x];
      } else {
        assert Filter(db, [m]) == kept;
      }
    }
  }

  /** The labels of every absent() of a selector stay what they are. */
  predicate KeepsLabels(q: Query, m: Matcher) {
    match q
    case Select(_, _) => true
    case Absent(_, matchers) => Spelled(matchers + [m]) == Spelled(matchers)
    case Apply(_, args) => AllKeepLabels(args, m)
  }

  predicate AllKeepLabels(qs: Queries, m: Matcher) {
    match qs
    case NoMore => true
    case More(first, rest) => KeepsLabels(first, m) && AllKeepLabels(rest, m)
  }

  lemma {:induction false} SpelledMeans(ms: seq<Matcher>, name: string)
    ensures name in Spelled(ms) ==> Named(name, ms)
  {
    if ms != [] {
      SpelledMeans(Front(ms), name);
      assert forall i :: 0 <= i < |ms| - 1 ==> Front(ms)[i] == ms[i];
      assert Last(ms) == ms[|ms| - 1];
    }
  }

  /** The i-th matcher is an equality on the label, not the first but for tests of other kinds,
      and the last on it. */
  predicate Spells(ms: seq<Matcher>, i: int, name: string) {
    && 0 <= i < |ms| && ms[i].Equal? && ms[i].name == name
    && (forall j :: 0 <= j < i && ms[j].name == name ==> !ms[j].Equal?)
    && forall j :: i < j < |ms| ==> ms[j].name != name
  }

  lemma SpellsMore(ms: seq<Matcher>, i: int, name: string)
    requires ms != []
    ensures Spells(ms, i, name) <==>
      if i == |ms| - 1 then Last(ms).Equal? && Last(ms).name == name && !Named(name, Front(ms))
      else Spells(Front(ms), i, name) && Last(ms).name != name
  {
    if i == |ms| - 1 && Last(ms).name == name && Named(name, Front(ms)) {
      var j :| 0 <= j < |Front(ms)| && Front(ms)[j].Equal? && Front(ms)[j].name == name;
      assert ms[j] == Front(ms)[j];
    }
  }

  /** Which labels absent() has, and that the name of the metric is none of them. */
  lemma {:induction false} SpelledAre(ms: seq<Matcher>, name: string)
    ensures name in Spelled(ms) <==> name != "__name__" && exists i :: Spells(ms, i, name)
    ensures forall i :: name in Spelled(ms) && Spells(ms, i, name) ==> Spelled(ms)[name] == ms[i].value
  {
    if ms != [] {
      SpelledAre(Front(ms), name);
      forall i
        ensures Spells(ms, i, name) <==>
          if i == |ms| - 1 then Last(ms).Equal? && Last(ms).name == name && !Named(name, Front(ms))
          else Spells(Front(ms), i, name) && Last(ms).name != name
      {
        SpellsMore(ms, i, name);
      }
      SpellsMore(ms, |ms| - 1, name);
    }
  }

  /** Exactly when the enforcer's matcher leaves the labels alone. */
  lemma SpelledIff(ms: seq<Matcher>, m: Matcher)
    requires m.name == SYSTEM_ID
    ensures Spelled(ms + [m]) == Spelled(ms) <==>
      SYSTEM_ID !in Spelled(ms) && (m.Equal? ==> Named(SYSTEM_ID, ms))
  {
    assert Front(ms + [m]) == ms;
    SpelledMeans(ms, SYSTEM_ID);
  }

  /** Every operator, function, subquery and aggregation applied, the restricted query over
      all series is the original query over the series the matcher accepts, as long as it
      changes no labels of an absent(). */
  lemma {:induction false} RestrictMeansFilter<D>(q: Query, m: Matcher, db: seq<Series>, e: Engine<D>)
    requires KeepsLabels(q, m)
    ensures Evaluate(Restrict(q, m), db, e) == Evaluate(q, Filter(db, [m]), e)
  {
    match q
    case Select(head, matchers) => FilterTwice(db, matchers, m);
    case Absent(head, matchers) => FilterTwice(db, matchers, m);
    case Apply(op, args) => RestrictAllMeansFilter(args, m, db, e);
  }

  lemma {:induction false} RestrictAllMeansFilter<D>(qs: Queries, m: Matcher, db: seq<Series>, e: Engine<D>)
    requires AllKeepLabels(qs, m)
    ensures EvaluateAll(RestrictAll(qs, m), db, e) == EvaluateAll(qs, Filter(db, [m]), e)
  {
    match qs
    case NoMore =>
    case More(first, rest) =>
      RestrictMeansFilter(first, m, db, e);
      RestrictAllMeansFilter(rest, m, db, e);
  }

  /** Labels or no labels, a restricted query reads none but the accepted series. */
  lemma {:induction false} RestrictReadsOnly<D>(
    q: Query, m: Matcher, db: seq<Series>, db': seq<Series>, e: Engine<D>)
    requires Filter(db, [m]) == Filter(db', [m])
    ensures Evaluate(Restrict(q, m), db, e) == Evaluate(Restrict(q, m), db', e)
  {
    match q
    case Select(head, matchers) =>
      FilterTwice(db, matchers, m);
      FilterTwice(db', matchers, m);
    case Absent(head, matchers) =>
      FilterTwice(db, matchers, m);
      FilterTwice(db', matchers, m);
    case Apply(op, args) => RestrictAllReadsOnly(args, m, db, db', e);
  }

  lemma {:induction false} RestrictAllReadsOnly<D>(
    qs: Queries, m: Matcher, db: seq<Series>, db': seq<Series>, e: Engine<D>)
    requires Filter(db, [m]) == Filter(db', [m])
    ensures EvaluateAll(RestrictAll(qs, m), db, e) == EvaluateAll(RestrictAll(qs, m), db', e)
  {
    match qs
    case NoMore =>
    case More(first, rest) =>
      RestrictReadsOnly(first, m, db, db', e);
      RestrictAllReadsOnly(rest, m, db, db', e);
  }

  /** The engine that merely records what it was asked, and so tells any two queries apart
      that some engine does. */
  datatype Term =
    | Selected(head: string, series: seq<Series>)
    | Missing(head: string, labels: map<string, string>, series: seq<Series>)
    | Applied(op: string, args: seq<Term>)

  function Recorder(): Engine<Term> {
    Engine((head, xs) => Selected(head, xs), (head, labels, xs) => Missing(head, labels, xs),
           (op, args) => Applied(op, args))
  }

  /** No weaker condition will do: the recorder sees every change of labels, on any data. */
  lemma {:induction false} LabelsAreSeen(q: Query, m: Matcher, db: seq<Series>)
    ensures Evaluate(Restrict(q, m), db, Recorder()) == Evaluate(q, Filter(db, [m]), Recorder()) <==>
      KeepsLabels(q, m)
  {
    match q
    case Select(head, matchers) => FilterTwice(db, matchers, m);
    case Absent(head, matchers) => FilterTwice(db, matchers, m);
    case Apply(op, args) => AllLabelsAreSeen(args, m, db);
  }

  lemma {:induction false} AllLabelsAreSeen(qs: Queries, m: Matcher, db: seq<Series>)
    ensures EvaluateAll(RestrictAll(qs, m), db, Recorder()) == EvaluateAll(qs, Filter(db, [m]), Recorder()) <==>
      AllKeepLabels(qs, m)
  {
    match qs
    case NoMore =>
    case More(first, rest) =>
      LabelsAreSeen(first, m, db);
      AllLabelsAreSeen(rest, m, db);
      SameCons(Evaluate(Restrict(first, m), db, Recorder()), EvaluateAll(RestrictAll(rest, m), db, Recorder()),
               Evaluate(first, Filter(db, [m]), Recorder()), EvaluateAll(rest, Filter(db, [m]), Recorder()));
  }

  lemma SameCons<T>(a: T, s: seq<T>, b: T, t: seq<T>)
    ensures [a] + s == [b] + t <==> a == b && s == t
  {
    assert ([a] + s)[0] == a && ([a] + s)[1..] == s && ([b] + t)[0] == b && ([b] + t)[1..] == t;
  }

  // ------------------------------------------------------- the parsed query

  /** A parse tree; a selector node is known by its slot, where its matcher list lives. absent
      tells whether it is the operand of absent() or absent_over_time(). */
  datatype Expr = Vector(head: string, slot: nat, absent: bool) | Node(op: string, args: Exprs)
  datatype Exprs = Nil | Cons(head: Expr, tail: Exprs)

  function Slots(e: Expr): set<nat> {
    match e
    case Vector(_, slot, _) => {slot}
    case Node(_, args) => AllSlots(args)
  }

  function AllSlots(es: Exprs): set<nat> {
    match es
    case Nil => {}
    case Cons(head, tail) => Slots(head) + AllSlots(tail)
  }

  /** No selector node occurs in two places. */
  predicate IsTree(e: Expr) {
    e.Node? ==> AreTrees(e.args)
  }

  predicate AreTrees(es: Exprs) {
    match es
    case Nil => true
    case Cons(head, tail) => Slots(head) !! AllSlots(tail) && IsTree(head) && AreTrees(tail)
  }

  /** The query a tree stands for, with these matcher lists in its slots. */
  function Denoted(e: Expr, lists: map<nat, seq<Matcher>>): Query
    requires Slots(e) <= lists.Keys
  {
    match e
    case Vector(head, slot, absent) => if absent then Absent(head, lists[slot]) else Select(head, lists[slot])
    case Node(op, args) => Apply(op, AllDenoted(args, lists))
  }

  function AllDenoted(es: Exprs, lists: map<nat, seq<Matcher>>): Queries
    requires AllSlots(es) <= lists.Keys
  {
    match es
    case Nil => NoMore
    case Cons(head, tail) => More(Denoted(head, lists), AllDenoted(tail, lists))
  }

  /** Exactly the lists in these slots have grown by m. */
  ghost predicate Appended(before: map<nat, seq<Matcher>>, after: map<nat, seq<Matcher>>, slots: set<nat>, m: Matcher) {
    after.Keys == before.Keys &&
    forall i :: i in before ==> after[i] == if i in slots then before[i] + [m] else before[i]
  }

  lemma {:induction false} AppendedIsRestrict(
    e: Expr, before: map<nat, seq<Matcher>>, after: map<nat, seq<Matcher>>, slots: set<nat>, m: Matcher)
    requires Slots(e) <= before.Keys && Slots(e) <= slots && Appended(before, after, slots, m)
    ensures Denoted(e, after) == Restrict(Denoted(e, before), m)
  {
    match e
    case Vector(_, slot, _) => assert slot in Slots(e);
    case Node(_, args) => AllAppendedIsRestrict(args, before, after, slots, m);
  }

  lemma {:induction false} AllAppendedIsRestrict(
    es: Exprs, before: map<nat, seq<Matcher>>, after: map<nat, seq<Matcher>>, slots: set<nat>, m: Matcher)
    requires AllSlots(es) <= before.Keys && AllSlots(es) <= slots && Appended(before, after, slots, m)
    ensures AllDenoted(es, after) == RestrictAll(AllDenoted(es, before), m)
  {
    match es
    case Nil =>
    case Cons(head, tail) =>
      AppendedIsRestrict(head, before, after, slots, m);
      AllAppendedIsRestrict(tail, before, after, slots, m);
  }

  /** A parsed query, whose selectors' matcher lists are appended to in place. */
  class ParsedQuery {
    const tree: Expr
    var lists: map<nat, seq<Matcher>>

    ghost predicate Valid()
      reads this
    {
      IsTree(tree) && Slots(tree) <= lists.Keys
    }

    constructor (tree: Expr, lists: map<nat, seq<Matcher>>)
      requires IsTree(tree) && Slots(tree) <= lists.Keys
      ensures Valid() && this.tree == tree && this.lists == lists
    {
      this.tree, this.lists := tree, lists;
    }

    /** The traversal: appends the matcher to every selector, wherever it is nested. */
    method Inspect(e: Expr, m: Matcher)
      requires IsTree(e) && Slots(e) <= lists.Keys
      modifies this`lists
      ensures Appended(old(lists), lists, Slots(e), m)
      decreases e
    {
      match e
      case Vector(_, slot, _) =>
        assert slot in Slots(e);
        lists := lists[slot := lists[slot] + [m]];
      case Node(op, args) => InspectAll(args, m);
    }

    method InspectAll(es: Exprs, m: Matcher)
      requires AreTrees(es) && AllSlots(es) <= lists.Keys
      modifies this`lists
      ensures Appended(old(lists), lists, AllSlots(es), m)
      decreases es
    {
      match es
      case Nil =>
      case Cons(head, tail) =>
        Inspect(head, m);
        InspectAll(tail, m);
    }

    /** Enforcement. The query afterwards reads none but the allowed systems' series. And
        evaluating it, on any data, is evaluating the original on those series alone, if and
        only if no absent() of it gets other labels by that. */
    method EnforceSystemID<D>(allowed: seq<string>, ghost engine: Engine<D>)
      requires Valid()
      modifies this`lists
      ensures Valid()
      ensures ReadsOnly(Denoted(tree, lists), allowed, engine)
      ensures LabelsKept(Denoted(tree, old(lists)), allowed) ==>
        IsScoped(Denoted(tree, lists), Denoted(tree, old(lists)), allowed, engine)
      ensures IsScoped(Denoted(tree, lists), Denoted(tree, old(lists)), allowed, Recorder()) <==>
        LabelsKept(Denoted(tree, old(lists)), allowed)
    {
      ghost var q := Denoted(tree, lists);
      var m := SystemIDMatcher(allowed);
      Inspect(tree, m);
      AppendedIsRestrict(tree, old(lists), lists, Slots(tree), m);
      RestrictedIsScoped(q, m, allowed, engine);
    }
  }

  /** For each absent() of a selector: no equality matcher on system_id gives it a label, and
      with one allowed id, whose matcher is such a matcher, there are some all the same. */
  predicate LabelsKept(q: Query, allowed: seq<string>) {
    match q
    case Select(_, _) => true
    case Absent(_, matchers) =>
      SYSTEM_ID !in Spelled(matchers) && (|allowed| == 1 ==> Named(SYSTEM_ID, matchers))
    case Apply(_, args) => AllLabelsKept(args, allowed)
  }

  predicate AllLabelsKept(qs: Queries, allowed: seq<string>) {
    match qs
    case NoMore => true
    case More(first, rest) => LabelsKept(first, allowed) && AllLabelsKept(rest, allowed)
  }

  lemma {:induction false} LabelsKeptIff(q: Query, m: Matcher, allowed: seq<string>)
    requires m.name == SYSTEM_ID && (m.Equal? <==> |allowed| == 1)
    ensures KeepsLabels(q, m) <==> LabelsKept(q, allowed)
  {
    match q
    case Select(_, _) =>
    case Absent(_, matchers) => SpelledIff(matchers, m);
    case Apply(_, args) => AllLabelsKeptIff(args, m, allowed);
  }

  lemma {:induction false} AllLabelsKeptIff(qs: Queries, m: Matcher, allowed: seq<string>)
    requires m.name == SYSTEM_ID && (m.Equal? <==> |allowed| == 1)
    ensures AllKeepLabels(qs, m) <==> AllLabelsKept(qs, allowed)
  {
    match qs
    case NoMore =>
    case More(first, rest) =>
      LabelsKeptIff(first, m, allowed);
      AllLabelsKeptIff(rest, m, allowed);
  }

  /** What the query evaluates to depends on the allowed systems' series alone. */
  ghost predicate ReadsOnly<D>(q: Query, allowed: seq<string>, e: Engine<D>) {
    forall db, db' :: OfSystems(db, allowed) == OfSystems(db', allowed) ==> Evaluate(q, db, e) == Evaluate(q, db', e)
  }

  /** On any data, q' is q on the allowed systems' series. */
  ghost predicate IsScoped<D>(q': Query, q: Query, allowed: seq<string>, e: Engine<D>) {
    forall db :: Evaluate(q', db, e) == Evaluate(q, OfSystems(db, allowed), e)
  }

  lemma RestrictedIsScoped<D>(q: Query, m: Matcher, allowed: seq<string>, e: Engine<D>)
    requires forall labels :: m.Accepts(labels) <==> SystemOf(labels) in allowed
    requires m.name == SYSTEM_ID && (m.Equal? <==> |allowed| == 1)
    ensures ReadsOnly(Restrict(q, m), allowed, e)
    ensures LabelsKept(q, allowed) ==> IsScoped(Restrict(q, m), q, allowed, e)
    ensures IsScoped(Restrict(q, m), q, allowed, Recorder()) <==> LabelsKept(q, allowed)
  {
    LabelsKeptIff(q, m, allowed);
    forall db, db' | OfSystems(db, allowed) == OfSystems(db', allowed)
      ensures Evaluate(Restrict(q, m), db, e) == Evaluate(Restrict(q, m), db', e)
    {
      AllowedOnly(db, m, allowed);
      AllowedOnly(db', m, allowed);
      RestrictReadsOnly(q, m, db, db', e);
    }
    forall db
      ensures LabelsKept(q, allowed) ==> Evaluate(Restrict(q, m), db, e) == Evaluate(q, OfSystems(db, allowed), e)
    {
      AllowedOnly(db, m, allowed);
      if LabelsKept(q, allowed) {
        RestrictMeansFilter(q, m, db, e);
      }
    }
    forall db
      ensures Evaluate(Restrict(q, m), db, Recorder()) == Evaluate(q, OfSystems(db, allowed), Recorder()) <==>
        LabelsKept(q, allowed)
    {
      AllowedOnly(db, m, allowed);
      LabelsAreSeen(q, m, db);
    }
    assert IsScoped(Restrict(q, m), q, allowed, Recorder()) ==>
      Evaluate(Restrict(q, m), [], Recorder()) == Evaluate(q, OfSystems([], allowed), Recorder());
  }

  /** absent(up) for a caller with one system says which one it is. */
  lemma AbsentTells(id: string)
    ensures !LabelsKept(Absent("up", []), [id])
    ensures Spelled([Equal(SYSTEM_ID, id)]) == map["system_id" := id]
  {
    assert Front([Equal(SYSTEM_ID, id)]) == [];
  }

  /** The series of the allowed systems. */
  function OfSystems(db: seq<Series>, allowed: seq<string>): seq<Series> {
    if db == [] then []
    else OfSystems(Front(db), allowed) + if SystemOf(Last(db).labels) in allowed then [Last(db)] else []
  }

  lemma {:induction false} AllowedOnly(db: seq<Series>, m: Matcher, allowed: seq<string>)
    requires forall labels :: m.Accepts(labels) <==> SystemOf(labels) in allowed
    ensures Filter(db, [m]) == OfSystems(db, allowed)
  {
    if db != [] {
      AllowedOnly(Front(db), m, allowed);
      assert AllAccept([m], Last(db)) <==> m.Accepts(Last(db).labels) by {
        assert [m][0] == m;
      }
    }
  }
}
