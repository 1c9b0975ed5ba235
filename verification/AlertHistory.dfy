/** What whole runs of the evaluator amount to, for one rule: the stored instances
    as a function of the breach history, and the shape of the emitted transitions
    (internal/alerts/evaluator.go, sqlite_store.go). */
module AlertHistory {
  import opened Common
  import opened Alerts

  /** One thing that happens to a rule: a tick that reconciled it; a tick whose query or
      load failed; a tick cut short by a refused write, after the systems in order had
      been dealt with; or the rule being disabled or deleted. */
  datatype Event =
    | Evaluated(now: Time, breaching: map<Id, real>)
    | TickFailed
    | Interrupted(now: Time, breaching: map<Id, real>, order: seq<Id>)
    | Cleared

  type History = seq<Event>

  /** The rule's instances after a history. */
  function Rows(r: Rule, h: History): map<Id, Instance> {
    if h == [] then map[] else Change(r, Last(h), Rows(r, Front(h)))
  }

  function Change(r: Rule, e: Event, rows: map<Id, Instance>): map<Id, Instance> {
    match e
    case Evaluated(now, breaching) => Reconcile(rows, breaching, r, now)
    case TickFailed => rows
    case Interrupted(now, breaching, order) => RowsAfter(order, rows, breaching, r, now)
    case Cleared => map[]
  }

  // ------------------------------------------------- one system's share of it

  /** The tick got to the system. */
  predicate Reaches(e: Event, s: Id) {
    e.Evaluated? || (e.Interrupted? && s in e.order)
  }

  /** A system's instance after an event. */
  function Next(r: Rule, e: Event, s: Id, prev: Option<Instance>): Option<Instance> {
    if Reaches(e, s) then After(prev, Get(e.breaching, s), r, e.now) else if e.Cleared? then None else prev
  }

  /** However a tick was cut short, each system's instance depends on its own share only. */
  lemma ChangeAt(r: Rule, e: Event, rows: map<Id, Instance>, s: Id)
    ensures Get(Change(r, e, rows), s) == Next(r, e, s, Get(rows, s))
  {
    if e.Interrupted? {
      RowsAfterAt(e.order, rows, e.breaching, r, e.now, s);
    }
  }

  /** The history as it concerns s: without the ticks that failed before getting to it. */
  function Effective(h: History, s: Id): History {
    if h == [] then []
    else Effective(Front(h), s) + if Reaches(Last(h), s) || Last(h).Cleared? then [Last(h)] else []
  }

  /** A tick that failed before it got to a system changes nothing about it, ever. */
  lemma {:induction false} FailedTicksChangeNothing(r: Rule, h: History, s: Id)
    ensures Get(Rows(r, h), s) == Get(Rows(r, Effective(h, s)), s)
    ensures forall i :: 0 <= i < |Effective(h, s)| ==> Reaches(Effective(h, s)[i], s) || Effective(h, s)[i].Cleared?
  {
    if h != [] {
      var e, g := Last(h), Effective(Front(h), s);
      FailedTicksChangeNothing(r, Front(h), s);
      ChangeAt(r, e, Rows(r, Front(h)), s);
      ChangeAt(r, e, Rows(r, g), s);
      if Reaches(e, s) || e.Cleared? {
        assert Front(g + [e]) == g && Effective(h, s) == g + [e];
      } else {
        assert Effective(h, s) == g;
      }
    }
  }

  // ----------------------------------------- the breach history of one system

  predicate Breach(e: Event, s: Id) {
    Reaches(e, s) && s in e.breaching
  }

  /** s has been in breach from the tick at i to the end, and was not just before:
      i begins the maximal breaching suffix. */
  ghost predicate Streak(h: History, s: Id, i: int) {
    0 <= i < |h| && (forall j :: i <= j < |h| ==> Breach(h[j], s)) && (i == 0 || !Breach(h[i - 1], s))
  }

  predicate HasClock(e: Event) {
    e.Evaluated? || e.Interrupted?
  }

  /** At the tick at j the streak that began at i has lasted the rule's "for" duration; instants
      are in nanoseconds. */
  predicate Due(r: Rule, h: History, i: int, j: int) {
    0 <= i <= j < |h| && HasClock(h[i]) && HasClock(h[j]) && h[j].now - h[i].now >= r.forSeconds * 1_000_000_000
  }

  ghost predicate FirstDue(r: Rule, h: History, i: int, j: int) {
    Due(r, h, i, j) && forall k :: i <= k < j ==> !Due(r, h, i, k)
  }

  /** inst is what a streak from i to the end of h should have left behind: firing
      exactly when some tick of the streak found it due, since the first such tick. */
  ghost predicate Describes(r: Rule, h: History, s: Id, i: int, inst: Instance)
    requires Streak(h, s, i)
  {
    && inst.firstBreachAt == h[i].now
    && inst.lastEvalAt == Last(h).now && inst.value == Last(h).breaching[s]
    && (inst.state.Firing? <==> exists j :: Due(r, h, i, j))
    && (inst.state.Pending? ==> inst.firedAt == None)
    && (inst.state.Firing? ==> exists j :: FirstDue(r, h, i, j) && inst.firedAt == Some(h[j].now))
  }

  // ------------------------------------------------------------ "for" semantics

  /** A row exists exactly while the system is in breach, and every field of it is
      a fact about the breach history. Nothing is assumed about the clock. */
  lemma {:induction false} InstanceIsHistory(r: Rule, h: History, s: Id)
    requires forall i :: 0 <= i < |h| ==> Reaches(h[i], s) || h[i].Cleared?
    ensures s in Rows(r, h) <==> h != [] && Breach(Last(h), s)
    ensures forall i :: Streak(h, s, i) ==> s in Rows(r, h) && Describes(r, h, s, i, Rows(r, h)[s])
  {
    if h != [] {
      InstanceIsHistory(r, Front(h), s);
      ChangeAt(r, Last(h), Rows(r, Front(h)), s);
      forall i | Streak(h, s, i)
        ensures s in Rows(r, h) && Describes(r, h, s, i, Rows(r, h)[s])
      {
        assert Breach(Last(h), s);
        if i == |h| - 1 {
          StreakBegins(r, h, s);
        } else {
          assert Streak(Front(h), s, i);
          StreakContinues(r, h, s, i, Rows(r, Front(h))[s]);
        }
      }
    }
  }

  lemma StreakBegins(r: Rule, h: History, s: Id)
    requires Streak(h, s, |h| - 1)
    ensures Describes(r, h, s, |h| - 1, Advance(None, Last(h).breaching[s], r, Last(h).now))
  {
    var i := |h| - 1;
    assert Due(r, h, i, i) <==> 0 >= r.forSeconds * 1_000_000_000;
    assert Due(r, h, i, i) ==> FirstDue(r, h, i, i);
  }

  lemma StreakContinues(r: Rule, h: History, s: Id, i: int, inst: Instance)
    requires h != [] && Streak(h, s, i) && Streak(Front(h), s, i)
    requires Describes(r, Front(h), s, i, inst)
    ensures Describes(r, h, s, i, Advance(Some(inst), Last(h).breaching[s], r, Last(h).now))
  {
    var g, n := Front(h), |h| - 1;
    assert forall j :: i <= j < n ==> (Due(r, h, i, j) <==> Due(r, g, i, j));
    if inst.state.Firing? {
      var j :| FirstDue(r, g, i, j) && inst.firedAt == Some(g[j].now);
      assert FirstDue(r, h, i, j);
    } else {
      assert Due(r, h, i, n) ==> FirstDue(r, h, i, n);
    }
  }

  /** In breach at the end means some streak runs to the end. */
  lemma {:induction false} StreakExists(h: History, s: Id)
    requires h != [] && Breach(Last(h), s)
    ensures exists i :: Streak(h, s, i)
  {
    if |h| > 1 && Breach(Last(Front(h)), s) {
      StreakExists(Front(h), s);
      var i :| Streak(Front(h), s, i);
      assert Streak(h, s, i);
    } else {
      assert Streak(h, s, |h| - 1);
    }
  }

  /** The clock of the ticks never runs backwards. */
  ghost predicate ClockRises(h: History) {
    forall i, j :: 0 <= i <= j < |h| && HasClock(h[i]) && HasClock(h[j]) ==> h[i].now <= h[j].now
  }

  /** Under a rising clock, with failed and interrupted ticks anywhere: firing is exactly "in
      breach without a break for the rule's duration", judged at the last tick to get to s. */
  lemma FiringMeansHeldLongEnough(r: Rule, h: History, s: Id)
    requires ClockRises(Effective(h, s))
    ensures IsFiring(Get(Rows(r, h), s)) <==>
      exists i :: Streak(Effective(h, s), s, i) &&
                  Last(Effective(h, s)).now - Effective(h, s)[i].now >= r.forSeconds * 1_000_000_000
  {
    var e := Effective(h, s);
    FailedTicksChangeNothing(r, h, s);
    InstanceIsHistory(r, e, s);
    if s in Rows(r, e) {
      StreakExists(e, s);
      var i :| Streak(e, s, i);
      if IsFiring(Get(Rows(r, e), s)) {
        var j :| Due(r, e, i, j);
        assert e[j].now <= Last(e).now;
      }
      forall k | Streak(e, s, k)
        ensures k == i
      {
      }
      assert Last(e).now - e[i].now >= r.forSeconds * 1_000_000_000 ==> Due(r, e, i, |e| - 1);
    }
  }

  // ----------------------------------------------------------- what is emitted

  /** The kinds of the transitions emitted for s over a history, oldest first. Only a
      completed tick emits any. */
  function Kinds(r: Rule, h: History, s: Id): seq<Kind> {
    if h == [] then []
    else
      Kinds(r, Front(h), s) +
      if !Last(h).Evaluated? then []
      else KindsOf(NoticeOf(s, Rows(r, Front(h)), Last(h).breaching, r, Last(h).now))
  }

  function KindsOf(ts: seq<Transition>): seq<Kind> {
    if ts == [] then [] else KindsOf(Front(ts)) + [Last(ts).kind]
  }

  lemma KindsOfAppend(ts: seq<Transition>, t: Transition)
    ensures KindsOf(ts + [t]) == KindsOf(ts) + [t.kind]
  {
    assert Front(ts + [t]) == ts;
  }

  predicate Alternates(kinds: seq<Kind>) {
    forall i :: 0 <= i < |kinds| ==> kinds[i] == if i % 2 == 0 then Fired else Resolved
  }

  /** What one who heard these kinds believes. */
  predicate LastSaysFiring(kinds: seq<Kind>) {
    kinds != [] && Last(kinds).Fired?
  }

  /** The true state of s after a history. */
  predicate FiringAfter(r: Rule, h: History, s: Id) {
    IsFiring(Get(Rows(r, h), s))
  }

  /** The i-th event changes the true state of s. */
  predicate Turns(r: Rule, h: History, s: Id, i: nat)
    requires i < |h|
  {
    FiringAfter(r, h[..i], s) != FiringAfter(r, h[..i + 1], s)
  }

  /** How many changes of the true state nobody was told of since the last one that was
      emitted: those made by interrupted ticks and by disabling the rule. */
  function Unannounced(r: Rule, h: History, s: Id): nat {
    if h == [] then 0
    else if FiringAfter(r, Front(h), s) == FiringAfter(r, h, s) then Unannounced(r, Front(h), s)
    else if Last(h).Evaluated? then 0
    else Unannounced(r, Front(h), s) + 1
  }

  /** What one event adds, in terms of the true state before and after. */
  lemma KindsStep(r: Rule, h: History, s: Id)
    requires h != []
    ensures Kinds(r, h, s) == Kinds(r, Front(h), s) +
      if !Last(h).Evaluated? || FiringAfter(r, Front(h), s) == FiringAfter(r, h, s) then []
      else if FiringAfter(r, h, s) then [Fired] else [Resolved]
  {
    if Last(h).Evaluated? {
      var rows, e := Rows(r, Front(h)), Last(h);
      assert Get(Rows(r, h), s) == After(Get(rows, s), Get(e.breaching, s), r, e.now);
      var ts := NoticeOf(s, rows, e.breaching, r, e.now);
      if ts != [] {
        assert Front(ts) == [] && KindsOf(ts) == [Last(ts).kind];
      }
    }
  }

  /** In every history, whatever failed in it: the last thing emitted about a system is its
      true state if and only if an even number of changes has gone unannounced since. */
  lemma {:induction false} LastWordIff(r: Rule, h: History, s: Id)
    ensures LastSaysFiring(Kinds(r, h, s)) == FiringAfter(r, h, s) <==> Unannounced(r, h, s) % 2 == 0
  {
    if h != [] {
      LastWordIff(r, Front(h), s);
      KindsStep(r, h, s);
      Regroup(Kinds(r, Front(h), s), [], []);
    }
  }

  // ------------------------------------------------------------- alternation

  /** The j-th event emits a change while an odd number of others is owed. */
  predicate Skips(r: Rule, h: History, s: Id, j: nat)
    requires j < |h|
  {
    h[j].Evaluated? && Turns(r, h, s, j) && Unannounced(r, h[..j], s) % 2 == 1
  }

  ghost predicate NothingOwed(r: Rule, h: History, s: Id) {
    forall j :: 0 <= j < |h| ==> !Skips(r, h, s, j)
  }

  /** What happened earlier does not depend on what came last. */
  lemma Earlier(r: Rule, h: History, s: Id, j: nat)
    requires j + 1 < |h|
    ensures Skips(r, h, s, j) == Skips(r, Front(h), s, j)
    ensures Wipes(r, h, s, j) == Wipes(r, Front(h), s, j) && Fires(r, h, s, j) == Fires(r, Front(h), s, j)
  {
    assert h[..j] == Front(h)[..j] && h[..j + 1] == Front(h)[..j + 1];
  }

  lemma Latest(r: Rule, h: History, s: Id)
    requires h != []
    ensures Skips(r, h, s, |h| - 1) <==>
      Last(h).Evaluated? && FiringAfter(r, Front(h), s) != FiringAfter(r, h, s) &&
      Unannounced(r, Front(h), s) % 2 == 1
    ensures Wipes(r, h, s, |h| - 1) <==> Last(h).Cleared? && FiringAfter(r, Front(h), s)
    ensures Fires(r, h, s, |h| - 1) <==> !FiringAfter(r, Front(h), s) && FiringAfter(r, h, s)
  {
    assert h[..|h| - 1] == Front(h) && h[..|h| - 1 + 1] == h;
  }

  lemma NothingOwedStep(r: Rule, h: History, s: Id)
    requires h != []
    ensures NothingOwed(r, h, s) <==> NothingOwed(r, Front(h), s) && !Skips(r, h, s, |h| - 1)
  {
    var n := |h| - 1;
    forall j: nat | j < n
      ensures Skips(r, h, s, j) == Skips(r, Front(h), s, j)
    {
      Earlier(r, h, s, j);
    }
  }

  lemma AlternatesStep(kinds: seq<Kind>, k: Kind)
    ensures Alternates(kinds + [k]) <==> Alternates(kinds) && k == if |kinds| % 2 == 0 then Fired else Resolved
  {
    var all := kinds + [k];
    assert forall i :: 0 <= i < |kinds| ==> all[i] == kinds[i];
    assert all[|kinds|] == k;
  }

  lemma AlternatesLast(kinds: seq<Kind>)
    requires Alternates(kinds)
    ensures LastSaysFiring(kinds) <==> |kinds| % 2 == 1
  {
  }

  /** Emitted transitions strictly alternate, fired first, if and only if no change was ever
      emitted while an odd number of others had gone unannounced. */
  lemma {:induction false} AlternationIff(r: Rule, h: History, s: Id)
    ensures Alternates(Kinds(r, h, s)) <==> NothingOwed(r, h, s)
  {
    if h != [] {
      var g, kinds := Front(h), Kinds(r, Front(h), s);
      AlternationIff(r, g, s);
      KindsStep(r, h, s);
      NothingOwedStep(r, h, s);
      Latest(r, h, s);
      LastWordIff(r, g, s);
      if Last(h).Evaluated? && FiringAfter(r, g, s) != FiringAfter(r, h, s) {
        AlternatesStep(kinds, if FiringAfter(r, h, s) then Fired else Resolved);
        if Alternates(kinds) {
          AlternatesLast(kinds);
        }
      } else {
        Regroup(kinds, [], []);
      }
    }
  }

  /** The events of a run without refused writes. */
  predicate Uninterrupted(h: History) {
    forall i :: 0 <= i < |h| ==> !h[i].Interrupted?
  }

  /** Between two clears: strict alternation, and its parity is the true state. */
  lemma {:induction false} AlternatesBetweenClears(r: Rule, h: History, s: Id)
    requires forall i :: 0 <= i < |h| ==> h[i].Evaluated? || h[i].TickFailed?
    ensures Alternates(Kinds(r, h, s)) && Unannounced(r, h, s) == 0
    ensures FiringAfter(r, h, s) <==> |Kinds(r, h, s)| % 2 == 1
  {
    NeverUnannounced(r, h, s);
    forall j | 0 <= j < |h|
      ensures Unannounced(r, h[..j], s) == 0
    {
      NeverUnannounced(r, h[..j], s);
    }
    AlternationIff(r, h, s);
    LastWordIff(r, h, s);
    AlternatesLast(Kinds(r, h, s));
  }

  lemma {:induction false} NeverUnannounced(r: Rule, h: History, s: Id)
    requires forall i :: 0 <= i < |h| ==> h[i].Evaluated? || h[i].TickFailed?
    ensures Unannounced(r, h, s) == 0
  {
    if h != [] {
      NeverUnannounced(r, Front(h), s);
      assert Last(h).TickFailed? ==> Rows(r, h) == Rows(r, Front(h));
    }
  }

  /** Disabling the rule at i wipes a firing instance. */
  predicate Wipes(r: Rule, h: History, s: Id, i: nat)
    requires i < |h|
  {
    h[i].Cleared? && FiringAfter(r, h[..i], s)
  }

  /** The system goes from not firing to firing at j. */
  predicate Fires(r: Rule, h: History, s: Id, j: nat)
    requires j < |h|
  {
    !FiringAfter(r, h[..j], s) && FiringAfter(r, h[..j + 1], s)
  }

  ghost predicate Wiped(r: Rule, h: History, s: Id) {
    exists i :: 0 <= i < |h| && Wipes(r, h, s, i)
  }

  ghost predicate FiresAgain(r: Rule, h: History, s: Id) {
    exists i, j :: 0 <= i < j < |h| && Wipes(r, h, s, i) && Fires(r, h, s, j)
  }

  lemma WipedStep(r: Rule, h: History, s: Id)
    requires h != []
    ensures Wiped(r, h, s) <==> Wiped(r, Front(h), s) || Wipes(r, h, s, |h| - 1)
  {
    var n := |h| - 1;
    forall j: nat | j < n
      ensures Wipes(r, h, s, j) == Wipes(r, Front(h), s, j)
    {
      Earlier(r, h, s, j);
    }
    if Wiped(r, Front(h), s) {
      var i :| 0 <= i < n && Wipes(r, Front(h), s, i);
      assert Wipes(r, h, s, i);
    }
  }

  lemma FiresAgainStep(r: Rule, h: History, s: Id)
    requires h != []
    ensures FiresAgain(r, h, s) <==>
      FiresAgain(r, Front(h), s) || (Wiped(r, Front(h), s) && Fires(r, h, s, |h| - 1))
  {
    var g, n := Front(h), |h| - 1;
    if FiresAgain(r, h, s) {
      var i, j :| 0 <= i < j < |h| && Wipes(r, h, s, i) && Fires(r, h, s, j);
      Earlier(r, h, s, i);
      assert Wipes(r, g, s, i);
      if j < n {
        Earlier(r, h, s, j);
      }
    } else if FiresAgain(r, g, s) {
      var i, j :| 0 <= i < j < n && Wipes(r, g, s, i) && Fires(r, g, s, j);
      Earlier(r, h, s, i);
      Earlier(r, h, s, j);
      assert false;
    } else if Wiped(r, g, s) {
      var i :| 0 <= i < n && Wipes(r, g, s, i);
      Earlier(r, h, s, i);
    }
  }

  /** When no write is refused, transitions strictly alternate if and only if the rule was
      never disabled under a firing system that fired again later. */
  lemma {:induction false} ClearsBreakAlternation(r: Rule, h: History, s: Id)
    requires Uninterrupted(h)
    ensures Alternates(Kinds(r, h, s)) <==> !FiresAgain(r, h, s)
    ensures !FiresAgain(r, h, s) ==> (Unannounced(r, h, s) == if Wiped(r, h, s) then 1 else 0)
    ensures !FiresAgain(r, h, s) && Wiped(r, h, s) ==> !FiringAfter(r, h, s)
  {
    AlternationIff(r, h, s);
    if h != [] {
      var g := Front(h);
      ClearsBreakAlternation(r, g, s);
      AlternationIff(r, g, s);
      NothingOwedStep(r, h, s);
      WipedStep(r, h, s);
      FiresAgainStep(r, h, s);
      Latest(r, h, s);
      assert Last(h).TickFailed? ==> Rows(r, h) == Rows(r, g);
    }
  }

  /** The concrete wipe: fire, disable, fire again gives "fired" twice running. */
  lemma DisablingBreaksAlternation()
    ensures var r := Rule("r", "disk", "warning", 0);
      var h := [Evaluated(0, map["a" := 1.0]), Cleared, Evaluated(1, map["a" := 1.0])];
      Kinds(r, h, "a") == [Fired, Fired]
  {
    var r := Rule("r", "disk", "warning", 0);
    var e0, e2 := Evaluated(0, map["a" := 1.0]), Evaluated(1, map["a" := 1.0]);
    assert Front([e0, Cleared, e2]) == [e0, Cleared] && Front([e0, Cleared]) == [e0] && Front([e0]) == [];
    KindsStep(r, [e0, Cleared, e2], "a");
    KindsStep(r, [e0, Cleared], "a");
    KindsStep(r, [e0], "a");
  }

  // ------------------------------------------------ the evaluator and the history

  /** What the world does to the store: a tick with what it sees, or the clearing of a rule. */
  datatype Step = Tick(enabled: Option<seq<Rule>>, now: Time, seen: Id -> Observation) | Clear(rule: Id)

  /** Rule ids are unique, and the rule r is never edited. */
  ghost predicate Undisturbed(step: Step, r: Rule) {
    step.Tick? && step.enabled.Some? ==>
      DistinctIds(step.enabled.value) && forall q :: q in step.enabled.value && q.id == r.id ==> q == r
  }

  /** The rules a step evaluates. */
  function RulesOf(step: Step): seq<Rule> {
    if step.Tick? && step.enabled.Some? then step.enabled.value else []
  }

  /** The step as it concerns r when no write is refused. */
  function EventOf(step: Step, r: Rule): Event {
    match step
    case Tick(enabled, now, seen) =>
      if enabled.Some? && r in enabled.value && seen(r.id).Breaching? then Evaluated(now, seen(r.id).systems)
      else TickFailed
    case Clear(rule) => if rule == r.id then Cleared else TickFailed
  }

  /** The event records the step: a tick may have been cut short. */
  predicate Records(e: Event, step: Step, r: Rule) {
    var whole := EventOf(step, r);
    e == whole ||
    (e.Interrupted? && whole.Evaluated? && e.now == whole.now && e.breaching == whole.breaching)
  }

  /** What the event should make of r's instances, and what should be emitted about them. */
  ghost predicate Follows(
    e: Event, r: Rule, before: map<Id, Instance>, after: map<Id, Instance>, emitted: seq<Transition>)
  {
    after == Change(r, e, before) &&
    if e.Evaluated? then Announces(emitted, r, e.now, before, after) else Silent(emitted, r.id)
  }

  /** One step on the store, every rule evaluated; some writes may be refused. */
  method Take(store: InstanceStore, step: Step, ghost r: Rule) returns (emitted: seq<Transition>, ghost e: Event)
    requires Undisturbed(step, r)
    modifies store
    ensures Records(e, step, r) && Follows(e, r, old(store.Of(r.id)), store.Of(r.id), emitted)
    ensures e.Interrupted? ==> Reached(e.order, old(store.Of(r.id)), e.breaching) && store.failing != {}
    ensures forall t :: t in emitted ==> t.rule in RulesOf(step)
  {
    e := EventOf(step, r);
    match step
    case Clear(rule) =>
      store.ClearInstances(rule);
      emitted := [];
    case Tick(enabled, now, seen) =>
      ghost var os;
      var changed;
      emitted, changed, os := EvaluateOnce(store, enabled, now, seen);
      if enabled.Some? && r in enabled.value {
        ghost var j :| 0 <= j < |enabled.value| && enabled.value[j] == r;
        assert SettledAt(enabled.value[j], now, seen, os[j], old(store.rows), store.rows, emitted);
        if os[j].CutShort? {
          e := Interrupted(now, seen(r.id).systems, os[j].order);
          SomeRefused(store, old(store.writes), os, j);
        }
      } else if enabled.Some? {
        OthersSilent(emitted, r.id);
      }
  }

  /** A rule is cut short only by a refused write. */
  lemma {:induction false} SomeRefused(store: InstanceStore, n: nat, os: seq<Outcome>, j: nat)
    requires WritesFit(store, n, os) && j < |os| && os[j].CutShort?
    ensures store.failing != {}
  {
    if j < |os| - 1 {
      SomeRefused(store, n, Front(os), j);
    }
  }

  lemma {:induction false} KindsOfConcat(a: seq<Transition>, b: seq<Transition>)
    ensures KindsOf(a + b) == KindsOf(a) + KindsOf(b)
  {
    if b == [] {
      assert a + b == a;
    } else {
      assert Front(a + b) == a + Front(b);
      KindsOfConcat(a, Front(b));
    }
  }

  /** What a step adds to the history is what it emits. */
  lemma FollowsKinds(h: History, e: Event, r: Rule, after: map<Id, Instance>, emitted: seq<Transition>, s: Id)
    requires Follows(e, r, Rows(r, h), after, emitted)
    ensures after == Rows(r, h + [e])
    ensures Kinds(r, h + [e], s) == Kinds(r, h, s) + KindsOf(About(emitted, r.id, s))
  {
    assert Front(h + [e]) == h;
    var rows := Rows(r, h);
    if e.Evaluated? {
      assert Get(after, s) == After(Get(rows, s), Get(e.breaching, s), r, e.now);
    }
  }

  lemma ReplayStep(
    h: History, e: Event, r: Rule, after: map<Id, Instance>, emitted: seq<Transition>, more: seq<Transition>)
    requires Follows(e, r, Rows(r, h), after, more)
    requires forall s :: KindsOf(About(emitted, r.id, s)) == Kinds(r, h, s)
    ensures after == Rows(r, h + [e])
    ensures forall s :: KindsOf(About(emitted + more, r.id, s)) == Kinds(r, h + [e], s)
  {
    forall s
      ensures KindsOf(About(emitted + more, r.id, s)) == Kinds(r, h + [e], s)
    {
      FollowsKinds(h, e, r, after, more, s);
      AboutConcat(emitted, more, r.id, s);
      KindsOfConcat(About(emitted, r.id, s), About(more, r.id, s));
    }
    FollowsKinds(h, e, r, after, more, "");
  }

  function HistoryOf(steps: seq<Step>, r: Rule): History {
    seq(|steps|, i requires 0 <= i < |steps| => EventOf(steps[i], r))
  }

  /** Every run on the store, with every other rule's ticks in between and writes refused
      anywhere: it is recorded by a history, of which the rule's instances and what is
      emitted about each system are functions, so that all the theorems above apply. When
      no write is refused that history is known beforehand. */
  method Replay(store: InstanceStore, steps: seq<Step>, ghost r: Rule)
    returns (emitted: seq<Transition>, ghost h: History)
    requires store.Of(r.id) == map[]
    requires forall i :: 0 <= i < |steps| ==> Undisturbed(steps[i], r)
    modifies store
    ensures |h| == |steps| && forall i :: 0 <= i < |h| ==> Records(h[i], steps[i], r)
    ensures store.failing == {} ==> h == HistoryOf(steps, r)
    ensures store.Of(r.id) == Rows(r, h)
    ensures forall s :: KindsOf(About(emitted, r.id, s)) == Kinds(r, h, s)
  {
    emitted, h := [], [];
    for i := 0 to |steps|
      invariant |h| == i && forall j :: 0 <= j < i ==> Records(h[j], steps[j], r)
      invariant store.failing == {} ==> Uninterrupted(h)
      invariant store.Of(r.id) == Rows(r, h)
      invariant forall s :: KindsOf(About(emitted, r.id, s)) == Kinds(r, h, s)
    {
      var more, e := Take(store, steps[i], r);
      ReplayStep(h, e, r, store.Of(r.id), emitted, more);
      emitted, h := emitted + more, h + [e];
    }
  }

  /** What the first of two ticks leaves when its second write is refused. */
  lemma OneOfTwo(store: InstanceStore, breach: map<Id, real>, os: seq<Outcome>, rows: Rows, emitted: seq<Transition>)
    returns (s: Id)
    requires store.failing == {1} && breach.Keys == {"a", "b"} && |os| == 1
    requires SettledAt(DISK, 0, _ => Breaching(breach), os[0], map[], rows, emitted) && WritesFit(store, 0, os)
    ensures Silent(emitted, "r") && IsFiring(Get(RowsIn(rows, "r"), s)) && (s == "a" || s == "b")
    ensures AllAttempts(os) == 2
  {
    assert Front(os) == [];
    assert store.Wrote(0, Attempts(os[0]), !os[0].CutShort?);
    assert os[0].CutShort?;
    var order := os[0].order;
    assert |order| == 1;
    s := order[0];
    assert s in order;
    RowsAfterAt(order, map[], breach, DISK, 0, s);
  }

  /** What a later tick says when everything has cleared and no write is refused any more. */
  lemma AllClear(
    store: InstanceStore, now: Time, os: seq<Outcome>, before: Rows, after: Rows, emitted: seq<Transition>, s: Id)
    requires store.failing == {1} && |os| == 1 && IsFiring(Get(RowsIn(before, "r"), s))
    requires SettledAt(DISK, now, _ => Breaching(map[]), os[0], before, after, emitted) && WritesFit(store, 2, os)
    ensures KindsOf(About(emitted, "r", s)) == [Resolved] && RowsIn(after, "r") == map[]
  {
    assert Front(os) == [];
    assert store.Wrote(2, 2 + Attempts(os[0]), !os[0].CutShort?);
    var resolved := Transition(DISK, s, RowsIn(before, "r")[s].value, Resolved, now);
    assert About(emitted, "r", s) == [resolved];
    KindsOfAppend([], resolved);
    Regroup([], [], [resolved]);
  }

  /** A refused write, run through the evaluator. Two systems start to breach and the second
      write of the tick is refused: one of them is firing in the store, and nobody is told. */
  method FailureLosesFiring() returns (store: InstanceStore, s: Id, emitted: seq<Transition>)
    ensures fresh(store) && store.failing == {1} && store.writes == 2
    ensures IsFiring(Get(store.Of("r"), s)) && Silent(emitted, "r")
  {
    store := new InstanceStore({1});
    var breach: map<Id, real> := map["a" := 1.0, "b" := 1.0];
    var changed;
    ghost var os;
    emitted, changed, os := EvaluateOnce(store, Some([DISK]), 0, _ => Breaching(breach));
    assert SettledAt([DISK][0], 0, _ => Breaching(breach), os[0], map[], store.rows, emitted);
    ghost var chosen := OneOfTwo(store, breach, os, store.rows, emitted);
    s := if IsFiring(Get(store.Of("r"), "a")) then "a" else "b";
  }

  /** And the next tick, both systems having cleared: "resolved" is the first and only thing
      said of the one that was firing. */
  method ThenOnlyResolved(store: InstanceStore, s: Id, first: seq<Transition>, now: Time)
    returns (emitted: seq<Transition>)
    requires store.failing == {1} && store.writes == 2
    requires IsFiring(Get(store.Of("r"), s)) && Silent(first, "r")
    modifies store
    ensures store.Of("r") == map[]
    ensures KindsOf(About(first + emitted, "r", s)) == [Resolved]
  {
    ghost var before := store.rows;
    var changed;
    ghost var os;
    emitted, changed, os := EvaluateOnce(store, Some([DISK]), now, _ => Breaching(map[]));
    assert SettledAt([DISK][0], now, _ => Breaching(map[]), os[0], before, store.rows, emitted);
    AllClear(store, now, os, before, store.rows, emitted, s);
    AboutConcat(first, emitted, "r", s);
    Regroup([], [], About(emitted, "r", s));
  }
}
