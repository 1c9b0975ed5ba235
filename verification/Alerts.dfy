/** The alert evaluator: one tick reconciles every enabled rule's instances with
    the systems now in breach (internal/alerts/evaluator.go, sqlite_store.go). */
module Alerts {
  import opened Common

  datatype Rule = Rule(id: Id, name: string, severity: string, forSeconds: int)

  datatype State = Pending | Firing

  /** The live state of one (rule, system) pair; the pair is the key it is stored under. */
  datatype Instance = Instance(
    state: State, value: real, firstBreachAt: Time, firedAt: Option<Time>, lastEvalAt: Time)

  datatype Kind = Fired | Resolved

  datatype Transition = Transition(rule: Rule, system: Id, value: real, kind: Kind, at: Time)

  const SECOND: Time := 1_000_000_000

  function ForDuration(r: Rule): Time {
    r.forSeconds * SECOND
  }

  // ------------------------------------------------- what one tick should do

  /** The instance of a system that breaches with value now, after prev. */
  function Advance(prev: Option<Instance>, value: real, r: Rule, now: Time): Instance {
    var i := if prev.Some? then prev.value.(value := value, lastEvalAt := now)
             else Instance(Pending, value, now, None, now);
    if i.state.Pending? && now - i.firstBreachAt >= ForDuration(r) then i.(state := Firing, firedAt := Some(now)) else i
  }

  function After(prev: Option<Instance>, breach: Option<real>, r: Rule, now: Time): Option<Instance> {
    if breach.Some? then Some(Advance(prev, breach.value, r, now)) else None
  }

  predicate IsFiring(i: Option<Instance>) {
    i.Some? && i.value.state.Firing?
  }

  function StateOf(i: Option<Instance>): Option<State> {
    if i.Some? then Some(i.value.state) else None
  }

  /** A rule's instances after a tick that found these systems in breach. */
  function Reconcile(rows: map<Id, Instance>, breaching: map<Id, real>, r: Rule, now: Time): map<Id, Instance> {
    map s | s in breaching :: Advance(Get(rows, s), breaching[s], r, now)
  }

  /** What recipients must be told when a system's instance goes from before to after. */
  function Notices(r: Rule, s: Id, before: Option<Instance>, after: Option<Instance>, now: Time): seq<Transition> {
    if IsFiring(after) && !IsFiring(before) then [Transition(r, s, after.value.value, Fired, now)]
    else if IsFiring(before) && !IsFiring(after) then [Transition(r, s, before.value.value, Resolved, now)]
    else []
  }

  /** The transitions of one (rule, system) pair, in order. */
  function About(ts: seq<Transition>, rule: Id, s: Id): seq<Transition> {
    if ts == [] then []
    else About(Front(ts), rule, s) + if Last(ts).rule.id == rule && Last(ts).system == s then [Last(ts)] else []
  }

  lemma {:induction false} AboutConcat(a: seq<Transition>, b: seq<Transition>, rule: Id, s: Id)
    ensures About(a + b, rule, s) == About(a, rule, s) + About(b, rule, s)
  {
    if b == [] {
      assert a + b == a;
    } else {
      assert Front(a + b) == a + Front(b);
      AboutConcat(a, Front(b), rule, s);
    }
  }

  lemma {:induction false} AboutNothing(ts: seq<Transition>, rule: Id, s: Id)
    requires forall i :: 0 <= i < |ts| ==> ts[i].rule.id != rule
    ensures About(ts, rule, s) == []
  {
    if ts != [] {
      AboutNothing(Front(ts), rule, s);
    }
  }

  /** The transitions are, system by system, those the change of instances calls for. */
  ghost predicate Announces(
    ts: seq<Transition>, r: Rule, now: Time, before: map<Id, Instance>, after: map<Id, Instance>)
  {
    forall s :: About(ts, r.id, s) == Notices(r, s, Get(before, s), Get(after, s), now)
  }

  /** The set of (system, state) pairs is not the same. */
  ghost predicate StatesDiffer(before: map<Id, Instance>, after: map<Id, Instance>) {
    exists s :: StateOf(Get(before, s)) != StateOf(Get(after, s))
  }

  // --------------------------------------------------------------- the store

  /** The alert_instances table, keyed by rule then system. The write attempts
      numbered in failing are the ones the database refuses. */
  class InstanceStore {
    var rows: map<Id, map<Id, Instance>>
    var writes: nat
    const failing: set<nat>

    constructor (failing: set<nat>)
      ensures rows == map[] && writes == 0 && this.failing == failing
    {
      rows, writes, this.failing := map[], 0, failing;
    }

    /** Of the write attempts from the first number up to the second none is refused,
        except the very last if ok is false. */
    predicate Wrote(first: nat, next: nat, ok: bool) {
      if ok then forall n :: first <= n < next ==> n !in failing
      else first < next && next - 1 in failing && forall n :: first <= n < next - 1 ==> n !in failing
    }

    lemma WroteOneMore(first: nat, next: nat)
      requires first <= next && Wrote(first, next, true)
      ensures Wrote(first, next + 1, next !in failing)
    {
    }

    function Of(rule: Id): map<Id, Instance>
      reads this
    {
      RowsIn(rows, rule)
    }

    method PutInstance(rule: Id, s: Id, inst: Instance) returns (ok: bool)
      modifies this
      ensures writes == old(writes) + 1 && ok == (old(writes) !in failing)
      ensures forall q :: Of(q) == if ok && q == rule then old(Of(q))[s := inst] else old(Of(q))
    {
      ok := writes !in failing;
      writes := writes + 1;
      if ok {
        rows := rows[rule := Of(rule)[s := inst]];
      }
    }

    method DeleteInstance(rule: Id, s: Id) returns (ok: bool)
      modifies this
      ensures writes == old(writes) + 1 && ok == (old(writes) !in failing)
      ensures forall q :: Of(q) == if ok && q == rule then old(Of(q)) - {s} else old(Of(q))
    {
      ok := writes !in failing;
      writes := writes + 1;
      if ok {
        rows := rows[rule := Of(rule) - {s}];
      }
    }

    /** What Update does when it disables a rule, and what Delete does: the
        instances go in one statement, and nobody is told. */
    method ClearInstances(rule: Id)
      modifies this`rows
      ensures forall q :: Of(q) == if q == rule then map[] else old(Of(q))
    {
      rows := rows - {rule};
    }
  }

  // ----------------------------------------------------------- the evaluator

  /** What the rule's query and the load of its instances came back with. */
  datatype Observation = QueryFailed | LoadFailed | Breaching(systems: map<Id, real>)

  // The systems a rule has dealt with so far, in the order the map iteration
  // happened to give them, determine everything else.

  function RowsAfter(order: seq<Id>, before: map<Id, Instance>, breaching: map<Id, real>, r: Rule, now: Time)
    : map<Id, Instance>
  {
    if order == [] then before
    else
      var s, rows := Last(order), RowsAfter(Front(order), before, breaching, r, now);
      if s in breaching then rows[s := Advance(Get(before, s), breaching[s], r, now)] else rows - {s}
  }

  function NoticeOf(s: Id, before: map<Id, Instance>, breaching: map<Id, real>, r: Rule, now: Time): seq<Transition> {
    Notices(r, s, Get(before, s), After(Get(before, s), Get(breaching, s), r, now), now)
  }

  function NoticesOf(order: seq<Id>, before: map<Id, Instance>, breaching: map<Id, real>, r: Rule, now: Time)
    : seq<Transition>
  {
    if order == [] then []
    else NoticesOf(Front(order), before, breaching, r, now) + NoticeOf(Last(order), before, breaching, r, now)
  }

  predicate Flips(s: Id, before: map<Id, Instance>, breaching: map<Id, real>, r: Rule, now: Time) {
    StateOf(Get(before, s)) != StateOf(After(Get(before, s), Get(breaching, s), r, now))
  }

  predicate AnyFlips(order: seq<Id>, before: map<Id, Instance>, breaching: map<Id, real>, r: Rule, now: Time) {
    order != [] &&
    (AnyFlips(Front(order), before, breaching, r, now) || Flips(Last(order), before, breaching, r, now))
  }

  predicate NoRepeats<T(==)>(s: seq<T>) {
    s == [] || (Last(s) !in Front(s) && NoRepeats(Front(s)))
  }

  lemma {:induction false} RowsAfterAt(
    order: seq<Id>, before: map<Id, Instance>, breaching: map<Id, real>, r: Rule, now: Time, s: Id)
    ensures Get(RowsAfter(order, before, breaching, r, now), s) ==
      if s in order then After(Get(before, s), Get(breaching, s), r, now) else Get(before, s)
  {
    if order != [] {
      RowsAfterAt(Front(order), before, breaching, r, now, s);
      MemberIs(order, s);
    }
  }

  lemma {:induction false} NoticesOfAbout(
    order: seq<Id>, before: map<Id, Instance>, breaching: map<Id, real>, r: Rule, now: Time, s: Id)
    requires NoRepeats(order)
    ensures About(NoticesOf(order, before, breaching, r, now), r.id, s) ==
      if s in order then NoticeOf(s, before, breaching, r, now) else []
  {
    if order != [] {
      NoticesOfAbout(Front(order), before, breaching, r, now, s);
      NoticeAbout(NoticesOf(Front(order), before, breaching, r, now), Last(order), before, breaching, r, now, s);
      MemberIs(order, s);
      Regroup([], [], NoticeOf(s, before, breaching, r, now));
      Regroup(About(NoticesOf(Front(order), before, breaching, r, now), r.id, s), [], []);
    }
  }

  lemma NoticeAbout(
    ts: seq<Transition>, t: Id, before: map<Id, Instance>, breaching: map<Id, real>, r: Rule, now: Time, s: Id)
    ensures var news := NoticeOf(t, before, breaching, r, now);
      About(ts + news, r.id, s) == About(ts, r.id, s) + if s == t then news else []
  {
    NewsAbout(ts, NoticeOf(t, before, breaching, r, now), r, t, s);
  }

  lemma NewsAbout(ts: seq<Transition>, news: seq<Transition>, r: Rule, t: Id, s: Id)
    requires |news| <= 1 && forall i :: 0 <= i < |news| ==> news[i].rule == r && news[i].system == t
    ensures About(ts + news, r.id, s) == About(ts, r.id, s) + if s == t then news else []
  {
    AboutConcat(ts, news, r.id, s);
    AboutNotices(news, r, t, s);
  }

  lemma AboutNotices(news: seq<Transition>, r: Rule, t: Id, s: Id)
    requires |news| <= 1 && forall i :: 0 <= i < |news| ==> news[i].rule == r && news[i].system == t
    ensures About(news, r.id, s) == if s == t then news else []
  {
    if news != [] {
      assert Front(news) == [] && news == [Last(news)];
    }
  }

  lemma {:induction false} AnyFlipsIff(
    order: seq<Id>, before: map<Id, Instance>, breaching: map<Id, real>, r: Rule, now: Time)
    ensures AnyFlips(order, before, breaching, r, now) <==>
      exists s :: s in order && Flips(s, before, breaching, r, now)
  {
    if order != [] {
      AnyFlipsIff(Front(order), before, breaching, r, now);
      assert forall s :: s in order <==> s in Front(order) || s == Last(order);
    }
  }

  lemma {:induction false} NoticesOfRule(
    order: seq<Id>, before: map<Id, Instance>, breaching: map<Id, real>, r: Rule, now: Time)
    ensures forall i :: 0 <= i < |NoticesOf(order, before, breaching, r, now)| ==>
      NoticesOf(order, before, breaching, r, now)[i].rule == r
  {
    if order != [] {
      NoticesOfRule(Front(order), before, breaching, r, now);
    }
  }

  /** Any order that reaches every breaching system and every instance once gives
      the same instances, the same transitions per system and the same change flag. */
  lemma AnyOrderReconciles(
    order: seq<Id>, before: map<Id, Instance>, breaching: map<Id, real>, r: Rule, now: Time)
    requires NoRepeats(order)
    requires forall s :: s in order <==> s in breaching || s in before
    ensures RowsAfter(order, before, breaching, r, now) == Reconcile(before, breaching, r, now)
    ensures Announces(NoticesOf(order, before, breaching, r, now), r, now, before, Reconcile(before, breaching, r, now))
    ensures AnyFlips(order, before, breaching, r, now) <==> StatesDiffer(before, Reconcile(before, breaching, r, now))
  {
    var want := Reconcile(before, breaching, r, now);
    forall s
      ensures Get(want, s) == After(Get(before, s), Get(breaching, s), r, now)
      ensures Get(RowsAfter(order, before, breaching, r, now), s) == Get(want, s)
      ensures About(NoticesOf(order, before, breaching, r, now), r.id, s) ==
        Notices(r, s, Get(before, s), Get(want, s), now)
      ensures Flips(s, before, breaching, r, now) ==> s in order
    {
      RowsAfterAt(order, before, breaching, r, now, s);
      NoticesOfAbout(order, before, breaching, r, now, s);
    }
    SameMap(RowsAfter(order, before, breaching, r, now), want);
    AnyFlipsIff(order, before, breaching, r, now);
    forall s
      ensures Flips(s, before, breaching, r, now) <==> StateOf(Get(before, s)) != StateOf(Get(want, s))
    {
    }
  }

  lemma SameMap<K(!new), V>(a: map<K, V>, b: map<K, V>)
    requires forall k :: Get(a, k) == Get(b, k)
    ensures a == b
  {
    assert forall k :: k in a ==> Get(a, k) == Some(a[k]);
    assert forall k :: k in b ==> Get(b, k) == Some(b[k]);
    assert a.Keys == b.Keys;
  }

  // The rule may be disabled while its instances are being written. off is the number of the
  // write attempt just before which that happens, cut the number of systems dealt with by then.

  /** The rows at the write attempt number n. */
  function UnlessOff(rows: map<Id, Instance>, off: Option<nat>, n: nat): map<Id, Instance> {
    if off == Some(n) then map[] else rows
  }

  /** The disabling, if it is due. */
  method Meanwhile(store: InstanceStore, rule: Id, off: Option<nat>)
    modifies store`rows
    ensures forall q :: q != rule ==> store.Of(q) == old(store.Of(q))
    ensures store.Of(rule) == UnlessOff(old(store.Of(rule)), off, old(store.writes))
  {
    if off == Some(store.writes) {
      store.ClearInstances(rule);
    }
  }

  /** One system in breach: create, refresh or promote its instance. */
  method AdvanceOne(
      store: InstanceStore, r: Rule, now: Time, s: Id, prev: Option<Instance>, value: real, off: Option<nat>)
    returns (news: seq<Transition>, flips: bool, ok: bool)
    modifies store
    ensures store.writes == old(store.writes) + 1 && store.Wrote(old(store.writes), store.writes, ok)
    ensures news == Notices(r, s, prev, Some(Advance(prev, value, r, now)), now)
    ensures flips == (StateOf(prev) != Some(Advance(prev, value, r, now).state))
    ensures forall q :: q != r.id ==> store.Of(q) == old(store.Of(q))
    ensures var rows := UnlessOff(old(store.Of(r.id)), off, old(store.writes));
      store.Of(r.id) == if ok then rows[s := Advance(prev, value, r, now)] else rows
  {
    news, flips := [], false;
    var inst;
    if prev.None? {
      inst := Instance(Pending, value, now, None, now);
      if ForDuration(r) <= 0 {
        inst := inst.(state := Firing, firedAt := Some(now));
        news := [Transition(r, s, value, Fired, now)];
      }
      flips := true;
    } else {
      inst := prev.value.(value := value, lastEvalAt := now);
      if inst.state.Pending? && now - inst.firstBreachAt >= ForDuration(r) {
        inst := inst.(state := Firing, firedAt := Some(now));
        flips, news := true, [Transition(r, s, value, Fired, now)];
      }
    }
    Meanwhile(store, r.id, off);
    ok := store.PutInstance(r.id, s, inst);
  }

  /** One instance whose system no longer breaches: drop it, and tell of it only if it was firing. */
  method ResolveOne(store: InstanceStore, r: Rule, now: Time, s: Id, inst: Instance, off: Option<nat>)
    returns (news: seq<Transition>, ok: bool)
    modifies store
    ensures store.writes == old(store.writes) + 1 && store.Wrote(old(store.writes), store.writes, ok)
    ensures news == Notices(r, s, Some(inst), None, now)
    ensures forall q :: q != r.id ==> store.Of(q) == old(store.Of(q))
    ensures var rows := UnlessOff(old(store.Of(r.id)), off, old(store.writes));
      store.Of(r.id) == if ok then rows - {s} else rows
  {
    Meanwhile(store, r.id, off);
    ok := store.DeleteInstance(r.id, s);
    news := if inst.state.Firing? then [Transition(r, s, inst.value, Resolved, now)] else [];
  }

  function CutOf(off: Option<nat>, first: nat, next: nat): Option<nat> {
    if off.Some? && first <= off.value < next then Some(off.value - first) else None
  }

  /** What is written of these systems, all else having been cleared. */
  function Rewritten(order: seq<Id>, byID: map<Id, Instance>, breaching: map<Id, real>, r: Rule, now: Time)
    : map<Id, Instance>
  {
    map s | s in breaching && s in order :: Advance(Get(byID, s), breaching[s], r, now)
  }

  /** The rows after the systems in order, byID being the rows that were loaded. */
  function RowsLeft(
    order: seq<Id>, byID: map<Id, Instance>, breaching: map<Id, real>, r: Rule, now: Time, cut: Option<nat>)
    : map<Id, Instance>
    requires cut.Some? ==> cut.value <= |order|
  {
    if cut.None? then RowsAfter(order, byID, breaching, r, now)
    else Rewritten(order[cut.value..], byID, breaching, r, now)
  }

  lemma LeftStep(
    order: seq<Id>, byID: map<Id, Instance>, breaching: map<Id, real>, r: Rule, now: Time, cut: Option<nat>, s: Id)
    requires cut.Some? ==> cut.value <= |order|
    ensures var rows := RowsLeft(order, byID, breaching, r, now, cut);
      RowsLeft(order + [s], byID, breaching, r, now, cut) ==
        if s in breaching then rows[s := Advance(Get(byID, s), breaching[s], r, now)] else rows - {s}
  {
    assert Front(order + [s]) == order;
    if cut.Some? {
      assert (order + [s])[cut.value..] == order[cut.value..] + [s];
    }
  }

  lemma LeftCut(order: seq<Id>, byID: map<Id, Instance>, breaching: map<Id, real>, r: Rule, now: Time)
    ensures RowsLeft(order, byID, breaching, r, now, Some(|order|)) == map[]
  {
  }

  lemma NotBothSides(order: seq<Id>, cut: nat, s: Id)
    requires NoRepeats(order) && cut <= |order|
    ensures s in order[cut..] <==> s in order && s !in order[..cut]
    decreases |order|
  {
    assert order == order[..cut] + order[cut..];
    if cut < |order| {
      NotBothSides(Front(order), cut, s);
      assert Front(order)[..cut] == order[..cut];
      assert order[cut..] == Front(order)[cut..] + [Last(order)];
      assert forall x :: x in order[..cut] ==> x in Front(order);
    }
  }

  /** Disabling is said to clear the instances. It does, of a rule that is being evaluated,
      iff no system in breach is dealt with after it; each that is has its row again. */
  lemma DisablingClearsIff(
    order: seq<Id>, byID: map<Id, Instance>, breaching: map<Id, real>, r: Rule, now: Time, cut: nat)
    requires NoRepeats(order) && cut <= |order|
    ensures var rows := RowsLeft(order, byID, breaching, r, now, Some(cut));
      && (forall s :: s in rows <==> s in breaching && s in order && s !in order[..cut])
      && (forall s :: s in rows ==> Some(rows[s]) == After(Get(byID, s), Some(breaching[s]), r, now))
      && (rows == map[] <==> forall s :: s in breaching && s in order ==> s in order[..cut])
  {
    var rows := RowsLeft(order, byID, breaching, r, now, Some(cut));
    forall s
      ensures s in rows <==> s in breaching && s in order && s !in order[..cut]
    {
      NotBothSides(order, cut, s);
    }
    if forall s :: s !in rows {
      assert rows == map[];
    }
  }

  /** All that matters of a rule after the systems in order were dealt with. */
  ghost predicate Stands(
    rows: map<Id, Instance>, r: Rule, now: Time, breaching: map<Id, real>, byID: map<Id, Instance>, order: seq<Id>,
    transitions: seq<Transition>, changed: bool, cut: Option<nat>)
  {
    && (cut.Some? ==> cut.value <= |order|) && rows == RowsLeft(order, byID, breaching, r, now, cut)
    && transitions == NoticesOf(order, byID, breaching, r, now)
    && changed == AnyFlips(order, byID, breaching, r, now)
  }

  /** A write attempt: the disabling, if it is due. */
  lemma StandsOff(
    rows: map<Id, Instance>, r: Rule, now: Time, breaching: map<Id, real>, byID: map<Id, Instance>, order: seq<Id>,
    transitions: seq<Transition>, changed: bool, off: Option<nat>, first: nat)
    requires var n := first + |order|;
      Stands(rows, r, now, breaching, byID, order, transitions, changed, CutOf(off, first, n))
    ensures var n := first + |order|;
      Stands(UnlessOff(rows, off, n), r, now, breaching, byID, order, transitions, changed, CutOf(off, first, n + 1))
  {
    LeftCut(order, byID, breaching, r, now);
  }

  /** And the write. */
  lemma StandsNext(
    rows: map<Id, Instance>, rows': map<Id, Instance>, r: Rule, now: Time, breaching: map<Id, real>,
    byID: map<Id, Instance>, order: seq<Id>, transitions: seq<Transition>, changed: bool, cut: Option<nat>, s: Id)
    requires Stands(rows, r, now, breaching, byID, order, transitions, changed, cut)
    requires rows' == if s in breaching then rows[s := Advance(Get(byID, s), breaching[s], r, now)] else rows - {s}
    ensures Stands(rows', r, now, breaching, byID, order + [s], transitions + NoticeOf(s, byID, breaching, r, now),
                   changed || Flips(s, byID, breaching, r, now), cut)
  {
    LeftStep(order, byID, breaching, r, now, cut, s);
    assert Front(order + [s]) == order;
  }

  /** A write attempt that succeeds, for a system in breach. */
  lemma StandsAdvanced(
    rows: map<Id, Instance>, r: Rule, now: Time, breaching: map<Id, real>, byID: map<Id, Instance>, order: seq<Id>,
    transitions: seq<Transition>, changed: bool, off: Option<nat>, first: nat, s: Id, news: seq<Transition>,
    flips: bool)
    requires var n := first + |order|;
      Stands(rows, r, now, breaching, byID, order, transitions, changed, CutOf(off, first, n))
    requires s in breaching
    requires news == Notices(r, s, Get(byID, s), Some(Advance(Get(byID, s), breaching[s], r, now)), now)
    requires flips == (StateOf(Get(byID, s)) != Some(Advance(Get(byID, s), breaching[s], r, now).state))
    ensures var n := first + |order|;
      Stands(UnlessOff(rows, off, n)[s := Advance(Get(byID, s), breaching[s], r, now)], r, now, breaching, byID,
             order + [s], transitions + news, changed || flips, CutOf(off, first, n + 1))
  {
    StandsOff(rows, r, now, breaching, byID, order, transitions, changed, off, first);
    StandsNext(UnlessOff(rows, off, first + |order|),
               UnlessOff(rows, off, first + |order|)[s := Advance(Get(byID, s), breaching[s], r, now)], r, now,
               breaching, byID, order, transitions, changed, CutOf(off, first, first + |order| + 1), s);
  }

  /** And for one no longer in breach. */
  lemma StandsDropped(
    rows: map<Id, Instance>, r: Rule, now: Time, breaching: map<Id, real>, byID: map<Id, Instance>, order: seq<Id>,
    transitions: seq<Transition>, changed: bool, off: Option<nat>, first: nat, s: Id, news: seq<Transition>)
    requires var n := first + |order|;
      Stands(rows, r, now, breaching, byID, order, transitions, changed, CutOf(off, first, n))
    requires s !in breaching && s in byID && news == Notices(r, s, Some(byID[s]), None, now)
    ensures var n := first + |order|;
      Stands(UnlessOff(rows, off, n) - {s}, r, now, breaching, byID, order + [s], transitions + news, true,
             CutOf(off, first, n + 1))
  {
    StandsOff(rows, r, now, breaching, byID, order, transitions, changed, off, first);
    StandsNext(UnlessOff(rows, off, first + |order|), UnlessOff(rows, off, first + |order|) - {s}, r, now,
               breaching, byID, order, transitions, changed, CutOf(off, first, first + |order| + 1), s);
  }

  /** The systems dealt with by the first loop while todo is left. */
  ghost predicate Advanced(order: seq<Id>, todo: set<Id>, breaching: map<Id, real>) {
    NoRepeats(order) && todo <= breaching.Keys && forall s :: s in order <==> s in breaching && s !in todo
  }

  lemma AdvancedStep(order: seq<Id>, todo: set<Id>, breaching: map<Id, real>, s: Id)
    requires Advanced(order, todo, breaching) && s in todo
    ensures Advanced(order + [s], todo - {s}, breaching) && Front(order + [s]) == order
  {
    assert Front(order + [s]) == order;
  }

  /** The systems dealt with by both loops while todo is left to the second. */
  ghost predicate Cleared(order: seq<Id>, todo: set<Id>, breaching: map<Id, real>, byID: map<Id, Instance>) {
    NoRepeats(order) && todo <= byID.Keys &&
    forall s :: s in order <==> s in breaching || (s in byID && s !in todo)
  }

  lemma ClearedSkip(order: seq<Id>, todo: set<Id>, breaching: map<Id, real>, byID: map<Id, Instance>, s: Id)
    requires Cleared(order, todo, breaching, byID) && s in todo && s in breaching
    ensures Cleared(order, todo - {s}, breaching, byID)
  {
  }

  lemma ClearedStep(order: seq<Id>, todo: set<Id>, breaching: map<Id, real>, byID: map<Id, Instance>, s: Id)
    requires Cleared(order, todo, breaching, byID) && s in todo && s !in breaching
    ensures Cleared(order + [s], todo - {s}, breaching, byID) && Front(order + [s]) == order
  {
    assert Front(order + [s]) == order;
  }

  lemma ClearedIsReached(order: seq<Id>, todo: set<Id>, breaching: map<Id, real>, byID: map<Id, Instance>)
    requires Cleared(order, todo, breaching, byID)
    ensures Reached(order, byID, breaching)
  {
  }

  /** One round of the first loop, at write attempt first + |order|. */
  method AdvanceNext(
      store: InstanceStore, r: Rule, now: Time, breaching: map<Id, real>, byID: map<Id, Instance>, ghost order: seq<Id>,
      sofar: seq<Transition>, already: bool, off: Option<nat>, ghost first: nat, s: Id)
    returns (transitions: seq<Transition>, changed: bool, ok: bool)
    requires s in breaching && store.writes == first + |order|
    requires Stands(store.Of(r.id), r, now, breaching, byID, order, sofar, already, CutOf(off, first, store.writes))
    modifies store
    ensures forall q :: q != r.id ==> store.Of(q) == old(store.Of(q))
    ensures store.writes == old(store.writes) + 1 && ok == (old(store.writes) !in store.failing)
    ensures Stands(store.Of(r.id), r, now, breaching, byID, if ok then order + [s] else order, transitions, changed,
                   CutOf(off, first, store.writes))
  {
    ghost var rows := store.Of(r.id);
    var news, flips;
    news, flips, ok := AdvanceOne(store, r, now, s, Get(byID, s), breaching[s], off);
    if ok {
      StandsAdvanced(rows, r, now, breaching, byID, order, sofar, already, off, first, s, news, flips);
      return sofar + news, already || flips, ok;
    }
    StandsOff(rows, r, now, breaching, byID, order, sofar, already, off, first);
    return sofar, already, ok;
  }

  /** One round of the second loop, for a system no longer in breach. */
  method ResolveNext(
      store: InstanceStore, r: Rule, now: Time, breaching: map<Id, real>, byID: map<Id, Instance>, ghost order: seq<Id>,
      sofar: seq<Transition>, already: bool, off: Option<nat>, ghost first: nat, s: Id)
    returns (transitions: seq<Transition>, changed: bool, ok: bool)
    requires s !in breaching && s in byID && store.writes == first + |order|
    requires Stands(store.Of(r.id), r, now, breaching, byID, order, sofar, already, CutOf(off, first, store.writes))
    modifies store
    ensures forall q :: q != r.id ==> store.Of(q) == old(store.Of(q))
    ensures store.writes == old(store.writes) + 1 && ok == (old(store.writes) !in store.failing)
    ensures Stands(store.Of(r.id), r, now, breaching, byID, if ok then order + [s] else order, transitions, changed,
                   CutOf(off, first, store.writes))
  {
    ghost var rows := store.Of(r.id);
    var news;
    news, ok := ResolveOne(store, r, now, s, byID[s], off);
    if ok {
      StandsDropped(rows, r, now, breaching, byID, order, sofar, already, off, first, s, news);
      return sofar + news, true, ok;
    }
    StandsOff(rows, r, now, breaching, byID, order, sofar, already, off, first);
    return sofar, already, ok;
  }

  /** The loop over the systems in breach. */
  method AdvanceBreaching(store: InstanceStore, r: Rule, now: Time, breaching: map<Id, real>, off: Option<nat>)
    returns (transitions: seq<Transition>, changed: bool, ok: bool, ghost order: seq<Id>)
    modifies store
    ensures forall q :: q != r.id ==> store.Of(q) == old(store.Of(q))
    ensures Stands(store.Of(r.id), r, now, breaching, old(store.Of(r.id)), order, transitions, changed,
                   CutOf(off, old(store.writes), store.writes))
    ensures NoRepeats(order) && (forall s :: s in order ==> s in breaching)
    ensures ok ==> forall s :: s in breaching ==> s in order
    ensures store.writes == old(store.writes) + |order| + if ok then 0 else 1
    ensures store.Wrote(old(store.writes), store.writes, ok)
  {
    transitions, changed, order := [], false, [];
    ghost var first := store.writes;
    var byID := store.Of(r.id);
    var todo := breaching.Keys;
    while todo != {}
      invariant Advanced(order, todo, breaching)
      invariant store.writes == old(store.writes) + |order| && store.Wrote(old(store.writes), store.writes, true)
      invariant forall q :: q != r.id ==> store.Of(q) == old(store.Of(q))
      invariant Stands(store.Of(r.id), r, now, breaching, byID, order, transitions, changed,
                       CutOf(off, first, store.writes))
    {
      var s :| s in todo;
      store.WroteOneMore(first, store.writes);
      transitions, changed, ok :=
        AdvanceNext(store, r, now, breaching, byID, order, transitions, changed, off, first, s);
      if !ok {
        return;
      }
      AdvancedStep(order, todo, breaching, s);
      todo, order := todo - {s}, order + [s];
    }
    ok := true;
  }

  /** The loop over the instances: drop those whose system no longer breaches. */
  method ResolveCleared(
      store: InstanceStore, r: Rule, now: Time, breaching: map<Id, real>, byID: map<Id, Instance>,
      ghost advanced: seq<Id>, sofar: seq<Transition>, already: bool, off: Option<nat>, ghost first: nat)
    returns (transitions: seq<Transition>, changed: bool, ok: bool, ghost order: seq<Id>)
    requires Cleared(advanced, byID.Keys, breaching, byID) && store.writes == first + |advanced|
    requires Stands(store.Of(r.id), r, now, breaching, byID, advanced, sofar, already, CutOf(off, first, store.writes))
    modifies store
    ensures forall q :: q != r.id ==> store.Of(q) == old(store.Of(q))
    ensures Stands(store.Of(r.id), r, now, breaching, byID, order, transitions, changed,
                   CutOf(off, first, store.writes))
    ensures Reached(order, byID, breaching) && (ok ==> Cleared(order, {}, breaching, byID))
    ensures |advanced| <= |order|
    ensures store.writes == first + |order| + if ok then 0 else 1
    ensures store.Wrote(old(store.writes), store.writes, ok)
  {
    transitions, changed, order := sofar, already, advanced;
    var todo := byID.Keys;
    while todo != {}
      invariant Cleared(order, todo, breaching, byID)
      invariant |advanced| <= |order| && store.writes == first + |order|
      invariant store.Wrote(old(store.writes), store.writes, true)
      invariant forall q :: q != r.id ==> store.Of(q) == old(store.Of(q))
      invariant Stands(store.Of(r.id), r, now, breaching, byID, order, transitions, changed,
                       CutOf(off, first, store.writes))
    {
      var s :| s in todo;
      if s in breaching {
        ClearedSkip(order, todo, breaching, byID, s);
        todo := todo - {s};
        continue;
      }
      ClearedIsReached(order, todo, breaching, byID);
      store.WroteOneMore(old(store.writes), store.writes);
      transitions, changed, ok :=
        ResolveNext(store, r, now, breaching, byID, order, transitions, changed, off, first, s);
      if !ok {
        return;
      }
      ClearedStep(order, todo, breaching, byID, s);
      todo, order := todo - {s}, order + [s];
    }
    ClearedIsReached(order, todo, breaching, byID);
    ok := true;
  }

  /** The systems in order were dealt with, once each, before a tick was cut short. */
  predicate Reached(order: seq<Id>, before: map<Id, Instance>, breaching: map<Id, real>) {
    NoRepeats(order) && forall s :: s in order ==> s in breaching || s in before
  }

  // What a tick means, in terms of the loaded rows and the breaching systems alone.

  /** With this tick the breach will have lasted as long as the rule asks, in nanoseconds. */
  predicate LongEnough(r: Rule, now: Time, rows: map<Id, Instance>, s: Id) {
    now - (if s in rows then rows[s].firstBreachAt else now) >= r.forSeconds * 1_000_000_000
  }

  /** What a tick says of a system: the rule, the system and the instant of the tick, with
      the value just seen, or the last one seen of a system that has cleared. */
  function Said(r: Rule, now: Time, rows: map<Id, Instance>, breaching: map<Id, real>, s: Id): seq<Transition> {
    var firing := s in rows && rows[s].state == Firing;
    if s in breaching && !firing && LongEnough(r, now, rows, s) then [Transition(r, s, breaching[s], Fired, now)]
    else if s !in breaching && firing then [Transition(r, s, rows[s].value, Resolved, now)]
    else []
  }

  /** And what it leaves of it. */
  predicate LeftAs(
    r: Rule, now: Time, rows: map<Id, Instance>, breaching: map<Id, real>, s: Id, after: Option<Instance>)
  {
    && (after.Some? <==> s in breaching)
    && (after.Some? ==>
          var firing := s in rows && rows[s].state == Firing;
          && after.value.value == breaching[s] && after.value.lastEvalAt == now
          && after.value.firstBreachAt == (if s in rows then rows[s].firstBreachAt else now)
          && (after.value.state == Firing <==> firing || LongEnough(r, now, rows, s))
          && after.value.firedAt ==
             if after.value.state == Firing && !firing then Some(now) else if s in rows then rows[s].firedAt else None)
  }

  lemma TickMeans(
    ts: seq<Transition>, rows: map<Id, Instance>, breaching: map<Id, real>, r: Rule, now: Time)
    requires Announces(ts, r, now, rows, Reconcile(rows, breaching, r, now))
    ensures forall s :: About(ts, r.id, s) == Said(r, now, rows, breaching, s)
    ensures forall s :: LeftAs(r, now, rows, breaching, s, Get(Reconcile(rows, breaching, r, now), s))
  {
    forall s
      ensures About(ts, r.id, s) == Said(r, now, rows, breaching, s)
      ensures LeftAs(r, now, rows, breaching, s, Get(Reconcile(rows, breaching, r, now), s))
    {
      assert Get(Reconcile(rows, breaching, r, now), s) == After(Get(rows, s), Get(breaching, s), r, now);
      SystemMeans(rows, breaching, r, now, s);
    }
  }

  lemma SystemMeans(rows: map<Id, Instance>, breaching: map<Id, real>, r: Rule, now: Time, s: Id)
    ensures var after := After(Get(rows, s), Get(breaching, s), r, now);
      LeftAs(r, now, rows, breaching, s, after) &&
      Notices(r, s, Get(rows, s), after, now) == Said(r, now, rows, breaching, s)
  {
  }

  /** One rule. ok is false when the source returns an error; order lists the systems whose
      row was written before that. The rule may be disabled between the load of its rows and
      the last write, just before attempt number off: what is told of it is the same, but the
      rows of the systems dealt with later are left behind. */
  method EvaluateRule(store: InstanceStore, r: Rule, now: Time, seen: Observation, off: Option<nat>)
    returns (transitions: seq<Transition>, changed: bool, ok: bool, ghost order: seq<Id>)
    modifies store
    ensures forall q :: q != r.id ==> store.Of(q) == old(store.Of(q))
    ensures !seen.Breaching? ==> store.Of(r.id) == old(store.Of(r.id)) && store.writes == old(store.writes)
    ensures seen.Breaching? ==>
      var cut := CutOf(off, old(store.writes), store.writes);
      && Reached(order, old(store.Of(r.id)), seen.systems)
      && (cut.Some? ==> cut.value <= |order|)
      && store.Of(r.id) == RowsLeft(order, old(store.Of(r.id)), seen.systems, r, now, cut)
      && store.writes == old(store.writes) + |order| + (if ok then 0 else 1)
      && store.Wrote(old(store.writes), store.writes, ok)
    ensures ok ==> seen.Breaching?
    ensures ok ==> forall s :: s in seen.systems || s in old(store.Of(r.id)) ==> s in order
    ensures ok ==>
      var rows, wanted := old(store.Of(r.id)), Reconcile(old(store.Of(r.id)), seen.systems, r, now);
      && (CutOf(off, old(store.writes), store.writes).None? ==> store.Of(r.id) == wanted)
      && Announces(transitions, r, now, rows, wanted) && (changed <==> StatesDiffer(rows, wanted))
    ensures ok ==> forall i :: 0 <= i < |transitions| ==> transitions[i].rule == r
    ensures ok ==> forall s :: About(transitions, r.id, s) == Said(r, now, old(store.Of(r.id)), seen.systems, s)
    ensures ok && CutOf(off, old(store.writes), store.writes).None? ==>
      forall s :: LeftAs(r, now, old(store.Of(r.id)), seen.systems, s, Get(store.Of(r.id), s))
  {
    if !seen.Breaching? {
      return [], false, false, [];
    }
    var byID := store.Of(r.id);
    ghost var first := store.writes;
    transitions, changed, ok, order := AdvanceBreaching(store, r, now, seen.systems, off);
    if ok {
      transitions, changed, ok, order :=
        ResolveCleared(store, r, now, seen.systems, byID, order, transitions, changed, off, first);
    }
    if ok {
      AnyOrderReconciles(order, byID, seen.systems, r, now);
      NoticesOfRule(order, byID, seen.systems, r, now);
      TickMeans(transitions, byID, seen.systems, r, now);
    }
  }

  /** Nothing to say of any system is nothing said. */
  lemma NothingSaid(
    ts: seq<Transition>, r: Rule, now: Time, rows: map<Id, Instance>, breaching: map<Id, real>)
    requires forall i :: 0 <= i < |ts| ==> ts[i].rule == r
    requires forall s :: About(ts, r.id, s) == Said(r, now, rows, breaching, s)
    requires forall s :: Said(r, now, rows, breaching, s) == []
    ensures ts == []
  {
    assert About(ts, r.id, if ts == [] then "" else Last(ts).system) == [];
  }

  const MINUTELY := Rule("r", "disk", "warning", 60)

  /** A tick of that rule which finds the one system in breach, not yet for a minute. */
  method TooEarly(store: InstanceStore, now: Time, value: real) returns (emitted: seq<Transition>)
    requires store.failing == {} && store.Of("r").Keys <= {"a"} && 0 <= now < 60_000_000_000
    requires "a" !in store.Of("r") ==> now == 0
    requires "a" in store.Of("r") ==>
      store.Of("r")["a"].state == Pending && store.Of("r")["a"].firstBreachAt == 0 && store.Of("r")["a"].firedAt == None
    modifies store
    ensures emitted == [] && store.Of("r").Keys == {"a"}
    ensures store.Of("r")["a"] == Instance(Pending, value, 0, None, now)
  {
    ghost var rows := store.Of("r");
    var changed, ok;
    ghost var order;
    emitted, changed, ok, order := EvaluateRule(store, MINUTELY, now, Breaching(map["a" := value]), None);
    NothingSaid(emitted, MINUTELY, now, rows, map["a" := value]);
    assert LeftAs(MINUTELY, now, rows, map["a" := value], "a", Get(store.Of("r"), "a"));
    assert forall s :: LeftAs(MINUTELY, now, rows, map["a" := value], s, Get(store.Of("r"), s));
  }

  /** A rule of sixty seconds: in breach from instant 0 on, a system is pending and nothing is
      said until the first tick a minute in, which says "fired". */
  method HeldForAMinute(later: Time) returns (store: InstanceStore, early: seq<Transition>, due: seq<Transition>)
    requires 0 <= later < 60_000_000_000
    ensures early == [] && About(due, "r", "a") == [Transition(MINUTELY, "a", 3.0, Fired, 60_000_000_000)]
    ensures Get(store.Of("r"), "a") == Some(Instance(Firing, 3.0, 0, Some(60_000_000_000), 60_000_000_000))
  {
    store := new InstanceStore({});
    early := TooEarly(store, 0, 1.0);
    var second := TooEarly(store, later, 2.0);
    early := early + second;
    ghost var rows := store.Of("r");
    var changed, ok;
    ghost var order;
    due, changed, ok, order := EvaluateRule(store, MINUTELY, 60_000_000_000, Breaching(map["a" := 3.0]), None);
    assert LeftAs(MINUTELY, 60_000_000_000, rows, map["a" := 3.0], "a", Get(store.Of("r"), "a"));
  }

  const DISK := Rule("r", "disk", "warning", 0)

  /** A rule disabled just before the first write of its tick: its instance is created and
      fires all the same. */
  method DisabledYetFiring() returns (store: InstanceStore, transitions: seq<Transition>)
    ensures fresh(store) && store.Of("r").Keys == {"a"} && IsFiring(Get(store.Of("r"), "a"))
    ensures About(transitions, "r", "a") == [Transition(DISK, "a", 1.0, Fired, 0)]
  {
    store := new InstanceStore({});
    var breach: map<Id, real> := map["a" := 1.0];
    var changed, ok;
    ghost var order;
    transitions, changed, ok, order := EvaluateRule(store, DISK, 0, Breaching(breach), Some(0));
    OnlyMember(order, "a");
    assert order[0..] == order;
  }

  lemma OnlyMember(order: seq<Id>, s: Id)
    requires NoRepeats(order) && s in order && forall x :: x in order ==> x == s
    ensures order == [s]
  {
    assert order[0] in order && Last(order) in order;
  }

  // ---------------------------------------------------------- the whole tick

  /** What became of one rule in a tick: its query or load failed; the write after those
      for the systems in order was refused; or all the writes went in. */
  datatype Outcome = NotSeen | CutShort(order: seq<Id>) | Completed(order: seq<Id>)

  /** After a tick a rule that failed is silent, with the rows it had written by then;
      any other is reconciled and announced in full. */
  ghost predicate Settled(
    r: Rule, now: Time, seen: Observation, o: Outcome, before: map<Id, Instance>, after: map<Id, Instance>,
    emitted: seq<Transition>)
  {
    match o
    case NotSeen => !seen.Breaching? && after == before && Silent(emitted, r.id)
    case CutShort(order) =>
      && seen.Breaching? && Reached(order, before, seen.systems)
      && after == RowsAfter(order, before, seen.systems, r, now) && Silent(emitted, r.id)
    case Completed(order) =>
      && seen.Breaching? && Reached(order, before, seen.systems)
      && (forall s :: s in seen.systems || s in before ==> s in order)
      && after == Reconcile(before, seen.systems, r, now) && Announces(emitted, r, now, before, after)
  }

  ghost predicate Silent(emitted: seq<Transition>, rule: Id) {
    forall s :: About(emitted, rule, s) == []
  }

  lemma OthersSilent(ts: seq<Transition>, rule: Id)
    requires forall i :: 0 <= i < |ts| ==> ts[i].rule.id != rule
    ensures Silent(ts, rule)
  {
    forall s
      ensures About(ts, rule, s) == []
    {
      AboutNothing(ts, rule, s);
    }
  }

  /** Other rules' transitions, before or after, do not disturb a settled rule. */
  lemma SettledAmong(
    r: Rule, now: Time, seen: Observation, o: Outcome, before: map<Id, Instance>, after: map<Id, Instance>,
    ts: seq<Transition>, first: seq<Transition>, more: seq<Transition>)
    requires Settled(r, now, seen, o, before, after, ts)
    requires Silent(first, r.id) && Silent(more, r.id)
    ensures Settled(r, now, seen, o, before, after, first + ts + more)
  {
    forall s
      ensures About(first + ts + more, r.id, s) == About(ts, r.id, s)
    {
      AboutConcat(first + ts, more, r.id, s);
      AboutConcat(first, ts, r.id, s);
    }
  }

  predicate DistinctIds(rules: seq<Rule>) {
    forall i, j :: 0 <= i < j < |rules| ==> rules[i].id != rules[j].id
  }

  /** How many rows an outcome tried to write. */
  function Attempts(o: Outcome): nat {
    match o
    case NotSeen => 0
    case CutShort(order) => |order| + 1
    case Completed(order) => |order|
  }

  function AllAttempts(os: seq<Outcome>): nat {
    if os == [] then 0 else AllAttempts(Front(os)) + Attempts(Last(os))
  }

  /** One rule of a tick: its outcome, and what of its transitions survives. */
  method EvaluateOne(store: InstanceStore, r: Rule, now: Time, seen: Observation)
    returns (news: seq<Transition>, changed: bool, ghost o: Outcome)
    modifies store
    ensures forall q :: q != r.id ==> RowsIn(store.rows, q) == RowsIn(old(store.rows), q)
    ensures Settled(r, now, seen, o, old(store.Of(r.id)), store.Of(r.id), news)
    ensures forall i :: 0 <= i < |news| ==> news[i].rule == r
    ensures changed <==> o.Completed? && StatesDiffer(old(store.Of(r.id)), store.Of(r.id))
    ensures store.writes == old(store.writes) + Attempts(o)
    ensures store.Wrote(old(store.writes), store.writes, !o.CutShort?)
  {
    ghost var order;
    var ok;
    news, changed, ok, order := EvaluateRule(store, r, now, seen, None);
    o := if !seen.Breaching? then NotSeen else if ok then Completed(order) else CutShort(order);
    if !ok {
      news, changed := [], false;
    }
    forall q | q != r.id
      ensures RowsIn(store.rows, q) == RowsIn(old(store.rows), q)
    {
      assert store.Of(q) == old(store.Of(q));
    }
  }

  type Rows = map<Id, map<Id, Instance>>

  function RowsIn(rows: Rows, rule: Id): map<Id, Instance> {
    if rule in rows then rows[rule] else map[]
  }

  /** The first rules of a tick have been dealt with, one outcome each. */
  ghost predicate Progress(
    rules: seq<Rule>, now: Time, seen: Id -> Observation, os: seq<Outcome>, before: Rows, after: Rows,
    emitted: seq<Transition>)
  {
    && |os| <= |rules|
    && (forall j :: 0 <= j < |os| ==> SettledAt(rules[j], now, seen, os[j], before, after, emitted))
    && (forall i :: 0 <= i < |emitted| ==> emitted[i].rule in rules[..|os|])
    && (forall q :: (forall j :: 0 <= j < |os| ==> rules[j].id != q) ==> RowsIn(after, q) == RowsIn(before, q))
  }

  ghost predicate SettledAt(
    r: Rule, now: Time, seen: Id -> Observation, o: Outcome, before: Rows, after: Rows, emitted: seq<Transition>)
  {
    Settled(r, now, seen(r.id), o, RowsIn(before, r.id), RowsIn(after, r.id), emitted)
  }

  /** A completed rule some system of which is not in the state it was in. */
  ghost predicate Flipped(r: Rule, o: Outcome, before: Rows, after: Rows) {
    o.Completed? && StatesDiffer(RowsIn(before, r.id), RowsIn(after, r.id))
  }

  ghost predicate AnyFlipped(rules: seq<Rule>, os: seq<Outcome>, before: Rows, after: Rows)
    requires |os| <= |rules|
  {
    exists j :: 0 <= j < |os| && Flipped(rules[j], os[j], before, after)
  }

  lemma UntouchedSoFar(
    rules: seq<Rule>, now: Time, seen: Id -> Observation, os: seq<Outcome>, before: Rows, middle: Rows,
    emitted: seq<Transition>)
    requires DistinctIds(rules) && |os| < |rules| && Progress(rules, now, seen, os, before, middle, emitted)
    ensures RowsIn(middle, rules[|os|].id) == RowsIn(before, rules[|os|].id)
  {
  }

  lemma ProgressStep(
    rules: seq<Rule>, now: Time, seen: Id -> Observation, os: seq<Outcome>, before: Rows, middle: Rows, after: Rows,
    emitted: seq<Transition>, news: seq<Transition>, o: Outcome)
    requires DistinctIds(rules) && |os| < |rules| && Progress(rules, now, seen, os, before, middle, emitted)
    requires forall q :: q != rules[|os|].id ==> RowsIn(after, q) == RowsIn(middle, q)
    requires SettledAt(rules[|os|], now, seen, o, middle, after, news)
    requires forall i :: 0 <= i < |news| ==> news[i].rule == rules[|os|]
    ensures Progress(rules, now, seen, os + [o], before, after, emitted + news)
  {
    var n, r, all := |os|, rules[|os|], os + [o];
    PrefixGrows(rules, n);
    assert rules[..n] + [r] == rules[..|all|];
    assert RowsIn(middle, r.id) == RowsIn(before, r.id);
    forall i | 0 <= i < |emitted|
      ensures emitted[i].rule.id != r.id
    {
      assert emitted[i].rule in rules[..n];
    }
    OthersSilent(emitted, r.id);
    SettledAmong(r, now, seen(r.id), o, RowsIn(before, r.id), RowsIn(after, r.id), news, emitted, []);
    Regroup(emitted + news, [], []);
    assert all[n] == o && SettledAt(r, now, seen, o, before, after, emitted + news);
    assert forall j :: 0 <= j < n ==> all[j] == os[j] && rules[j].id != r.id;
    forall j | 0 <= j < |all|
      ensures SettledAt(rules[j], now, seen, all[j], before, after, emitted + news)
    {
      if j < n {
        SettledStill(rules[j], now, seen, os[j], before, middle, after, emitted, news);
      }
    }
  }

  lemma SettledStill(
    q: Rule, now: Time, seen: Id -> Observation, o: Outcome, before: Rows, middle: Rows, after: Rows,
    emitted: seq<Transition>, news: seq<Transition>)
    requires SettledAt(q, now, seen, o, before, middle, emitted)
    requires RowsIn(after, q.id) == RowsIn(middle, q.id)
    requires forall i :: 0 <= i < |news| ==> news[i].rule.id != q.id
    ensures SettledAt(q, now, seen, o, before, after, emitted + news)
  {
    OthersSilent(news, q.id);
    SettledAmong(q, now, seen(q.id), o, RowsIn(before, q.id), RowsIn(middle, q.id), emitted, [], news);
    Regroup([], [], emitted);
  }

  lemma FlippedStep(
    rules: seq<Rule>, os: seq<Outcome>, before: Rows, middle: Rows, after: Rows, o: Outcome)
    requires DistinctIds(rules) && |os| < |rules|
    requires forall q :: q != rules[|os|].id ==> RowsIn(after, q) == RowsIn(middle, q)
    requires RowsIn(middle, rules[|os|].id) == RowsIn(before, rules[|os|].id)
    ensures AnyFlipped(rules, os + [o], before, after) <==>
      AnyFlipped(rules, os, before, middle) || Flipped(rules[|os|], o, middle, after)
  {
    var n, all := |os|, os + [o];
    assert all[n] == o;
    forall j | 0 <= j < n
      ensures Flipped(rules[j], all[j], before, after) <==> Flipped(rules[j], os[j], before, middle)
    {
      assert all[j] == os[j] && rules[j].id != rules[n].id;
    }
    if AnyFlipped(rules, os, before, middle) {
      var j :| 0 <= j < n && Flipped(rules[j], os[j], before, middle);
      assert Flipped(rules[j], all[j], before, after);
    }
    if Flipped(rules[n], o, middle, after) {
      assert Flipped(rules[n], all[n], before, after);
    }
  }

  /** The numbers of the refused attempts fit the outcomes, the first attempt being number n. */
  ghost predicate WritesFit(store: InstanceStore, n: nat, os: seq<Outcome>) {
    os == [] ||
    var first := n + AllAttempts(Front(os));
    WritesFit(store, n, Front(os)) && store.Wrote(first, first + Attempts(Last(os)), !Last(os).CutShort?)
  }

  lemma WritesStep(store: InstanceStore, n: nat, os: seq<Outcome>, o: Outcome)
    requires WritesFit(store, n, os)
    requires var first := n + AllAttempts(os); store.Wrote(first, first + Attempts(o), !o.CutShort?)
    ensures WritesFit(store, n, os + [o]) && AllAttempts(os + [o]) == AllAttempts(os) + Attempts(o)
  {
    assert Front(os + [o]) == os;
  }

  /** One tick over every enabled rule, each with its outcome. A rule's failure loses that
      rule's transitions, but not the rows it had written, and leaves the others alone. */
  method EvaluateOnce(store: InstanceStore, enabled: Option<seq<Rule>>, now: Time, seen: Id -> Observation)
    returns (emitted: seq<Transition>, changed: bool, ghost os: seq<Outcome>)
    requires enabled.Some? ==> DistinctIds(enabled.value)
    modifies store
    ensures enabled.None? ==> emitted == [] && !changed && store.rows == old(store.rows) && os == []
    ensures enabled.Some? ==>
      && |os| == |enabled.value| && Progress(enabled.value, now, seen, os, old(store.rows), store.rows, emitted)
      && (changed <==> AnyFlipped(enabled.value, os, old(store.rows), store.rows))
    ensures store.writes == old(store.writes) + AllAttempts(os) && WritesFit(store, old(store.writes), os)
  {
    emitted, changed, os := [], false, [];
    if enabled.None? {
      return;
    }
    var rules := enabled.value;
    for i := 0 to |rules|
      invariant |os| == i && Progress(rules, now, seen, os, old(store.rows), store.rows, emitted)
      invariant changed <==> AnyFlipped(rules, os, old(store.rows), store.rows)
      invariant store.writes == old(store.writes) + AllAttempts(os) && WritesFit(store, old(store.writes), os)
    {
      ghost var middle := store.rows;
      var ts, c, o := EvaluateOne(store, rules[i], now, seen(rules[i].id));
      UntouchedSoFar(rules, now, seen, os, old(store.rows), middle, emitted);
      FlippedStep(rules, os, old(store.rows), middle, store.rows, o);
      ProgressStep(rules, now, seen, os, old(store.rows), middle, store.rows, emitted, ts, o);
      WritesStep(store, old(store.writes), os, o);
      emitted, changed, os := emitted + ts, changed || c, os + [o];
    }
  }
}
