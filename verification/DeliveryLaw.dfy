/** What dispatcher and flusher promise, in terms of what is stored and what is recorded:
    policies, windows, routings and channels on one side, the delivery log and the table of
    deferred rows on the other (internal/notifications/policy.go, dispatcher.go, flusher.go). */
module DeliveryLaw {
  import opened Common
  import opened Alerts
  import opened Delivery
  import opened Flush
  import Ordering
  import QuietHours

  // ------------------------------------------------------- what a policy says

  /** The owner's policy, or the one of a new installation if it cannot be read. The shared
      owner is the empty user id. */
  function PolicyOf(env: Env, owner: Id): Policy {
    var installed := Policy("UTC", [], map["info" := "dashboard", "warning" := "quiet", "critical" := "always"]);
    if owner == "" then (if env.policy.Some? then env.policy.value else installed)
    else if owner in env.userPolicies then env.userPolicies[owner]
    else installed
  }

  /** A severity's mode: the one set, if there is such a mode; otherwise info is for the
      dashboard, critical always goes out and anything else respects quiet hours. */
  function ModeOf(p: Policy, severity: string): string {
    if severity in p.severities && p.severities[severity] in ["dashboard", "quiet", "always"]
    then p.severities[severity]
    else if severity == "info" then "dashboard"
    else if severity == "critical" then "always"
    else "quiet"
  }

  /** Some window of the owner's policy silences now. */
  ghost predicate Resting(env: Env, owner: Id, now: Time) {
    QuietHours.SomeSilences(PolicyOf(env, owner).windows, env.local(PolicyOf(env, owner).zone, now))
  }

  /** The selected ids that enabled channels have. */
  ghost function Chosen(selected: seq<Id>, enabled: seq<Channel>): seq<Id> {
    if selected == [] then []
    else
      Chosen(Front(selected), enabled) +
      if exists c :: c in enabled && c.id == Last(selected) then [Last(selected)] else []
  }

  /** One enabled channel for each of these ids, in their order. */
  ghost predicate AreChannels(to: seq<Channel>, ids: seq<Id>, enabled: seq<Channel>) {
    |to| == |ids| && forall i :: 0 <= i < |to| ==> to[i] in enabled && to[i].id == ids[i]
  }

  /** to is where an owner's notifications about a rule go: a user's own channels, as far as
      they can be read; or the enabled channels, of which a rule may select some. */
  ghost predicate Receives(env: Env, owner: Id, rule: Id, to: seq<Channel>) {
    if owner != "" then to == if owner in env.userChannels then env.userChannels[owner] else []
    else if env.enabled.None? then to == []
    else
      var enabled := env.enabled.value;
      if rule in env.routings && env.routings[rule].Selected? then
        && AreChannels(to, Chosen(env.routings[rule].channels, enabled), enabled)
        && (DistinctChannels(enabled) ==>
              forall c :: c in to <==> c in enabled && c.id in env.routings[rule].channels)
      else to == enabled
  }

  ghost predicate DistinctChannels(channels: seq<Channel>) {
    forall i, j :: 0 <= i < j < |channels| ==> channels[i].id != channels[j].id
  }

  lemma {:induction false} ByIdFinds(channels: seq<Channel>, id: Id)
    ensures id in ById(channels) <==> exists c :: c in channels && c.id == id
    ensures id in ById(channels) ==> ById(channels)[id] in channels && ById(channels)[id].id == id
  {
    if channels != [] {
      ByIdFinds(Front(channels), id);
      FrontAndLast(channels);
    }
  }

  lemma {:induction false} PickedAreChosen(selected: seq<Id>, enabled: seq<Channel>)
    ensures AreChannels(Pick(selected, ById(enabled)), Chosen(selected, enabled), enabled)
  {
    if selected != [] {
      PickedAreChosen(Front(selected), enabled);
      ByIdFinds(enabled, Last(selected));
    }
  }

  lemma SelectedReceive(selected: seq<Id>, enabled: seq<Channel>)
    requires DistinctChannels(enabled)
    ensures forall c :: c in Routed(Selected(selected), enabled) <==> c in enabled && c.id in selected
  {
    forall c
      ensures c in Routed(Selected(selected), enabled) <==> c in enabled && c.id in selected
    {
      RoutedMeans(Selected(selected), enabled, c);
    }
  }

  lemma TargetsReceive(env: Env, owner: Id, rule: Id)
    ensures Receives(env, owner, rule, env.Targets(owner, rule))
  {
    if owner == "" && env.enabled.Some? && env.RoutingOf(rule).Selected? {
      PickedAreChosen(env.RoutingOf(rule).channels, env.enabled.value);
      if DistinctChannels(env.enabled.value) {
        SelectedReceive(env.RoutingOf(rule).channels, env.enabled.value);
      }
    } else if owner == "" && env.enabled.None? {
      NoneRouted(env.RoutingOf(rule));
    }
  }

  lemma {:induction false} NoneRouted(routing: Routing)
    ensures Routed(routing, []) == []
  {
    if routing.Selected? {
      NonePicked(routing.channels);
    }
  }

  lemma {:induction false} NonePicked(ids: seq<Id>)
    ensures Pick(ids, map[]) == []
  {
    if ids != [] {
      NonePicked(Front(ids));
    }
  }

  lemma RestingMeans(env: Env, owner: Id, now: Time)
    ensures env.Governing(owner) == PolicyOf(env, owner)
    ensures env.QuietFor(owner, now) <==> Resting(env, owner, now)
  {
    QuietHours.QuietMeans(PolicyOf(env, owner).windows, env.local(PolicyOf(env, owner).zone, now));
  }

  // --------------------------------------------------------- what a batch does

  /** The message tells of the transition: its kind, the rule's name and severity, the system,
      the value and the instant. */
  predicate Tells(m: Message, t: Transition) {
    && m.kind == t.kind && m.ruleName == t.rule.name && m.severity == t.rule.severity
    && m.system == t.system && m.value == t.value && m.at == t.at
  }

  /** What an owner's policy makes of a transition: only noted for the dashboard; deferred if the
      mode is quiet and a window is open; sent otherwise, and to whom. */
  ghost predicate Treats(env: Env, owner: Id, t: Transition, now: Time, a: Action) {
    var mode := ModeOf(PolicyOf(env, owner), t.rule.severity);
    && a.user == owner && a.rule == t.rule.id && Tells(a.msg, t)
    && (a.Suppress? <==> mode == "dashboard")
    && (a.Defer? <==> mode == "quiet" && Resting(env, owner, now))
    && (a.Send? <==> mode == "always" || (mode == "quiet" && !Resting(env, owner, now)))
    && (a.Send? ==> Receives(env, owner, t.rule.id, a.to))
  }

  lemma ModeMeans(p: Policy, severity: string)
    ensures ModeFor(p, severity).Dashboard? <==> ModeOf(p, severity) == "dashboard"
    ensures ModeFor(p, severity).Quiet? <==> ModeOf(p, severity) == "quiet"
    ensures ModeFor(p, severity).Always? <==> ModeOf(p, severity) == "always"
  {
  }

  lemma VerdictTreats(env: Env, owner: Id, t: Transition, now: Time)
    ensures Treats(env, owner, t, now, Verdict(env, owner, t, now))
  {
    RestingMeans(env, owner, now);
    ModeMeans(PolicyOf(env, owner), t.rule.severity);
    TargetsReceive(env, owner, t.rule.id);
  }

  datatype Share = Share(t: Transition, owner: Id)

  function Subscribers(env: Env, t: Transition): seq<Id> {
    if (t.system, t.rule.severity) in env.subscribers then env.subscribers[(t.system, t.rule.severity)] else []
  }

  function SharesOf(t: Transition, owners: seq<Id>): seq<Share> {
    seq(|owners|, i requires 0 <= i < |owners| => Share(t, owners[i]))
  }

  /** Each transition in turn, for the shared owner and then for each user subscribed. */
  function Shares(env: Env, ts: seq<Transition>): seq<Share> {
    if ts == [] then []
    else Shares(env, Front(ts)) + ([Share(Last(ts), "")] + SharesOf(Last(ts), Subscribers(env, Last(ts))))
  }

  /** One action for each share. */
  ghost predicate AllTreated(env: Env, shares: seq<Share>, now: Time, done: seq<Action>) {
    |done| == |shares| &&
    forall i :: 0 <= i < |shares| ==> Treats(env, shares[i].owner, shares[i].t, now, done[i])
  }

  lemma TreatedConcat(env: Env, a: seq<Share>, b: seq<Share>, now: Time, x: seq<Action>, y: seq<Action>)
    requires AllTreated(env, a, now, x) && AllTreated(env, b, now, y)
    ensures AllTreated(env, a + b, now, x + y)
  {
    forall i | 0 <= i < |a + b|
      ensures Treats(env, (a + b)[i].owner, (a + b)[i].t, now, (x + y)[i])
    {
      if i < |a| {
        assert (a + b)[i] == a[i] && (x + y)[i] == x[i];
      } else {
        assert (a + b)[i] == b[i - |a|] && (x + y)[i] == y[i - |x|];
      }
    }
  }

  lemma {:induction false} VerdictsTreat(env: Env, owners: seq<Id>, t: Transition, now: Time)
    ensures AllTreated(env, SharesOf(t, owners), now, Verdicts(env, owners, t, now))
  {
    if owners != [] {
      VerdictsTreat(env, Front(owners), t, now);
      VerdictTreats(env, Last(owners), t, now);
      assert SharesOf(t, owners) == SharesOf(t, Front(owners)) + [Share(t, Last(owners))];
      TreatedConcat(env, SharesOf(t, Front(owners)), [Share(t, Last(owners))], now,
                    Verdicts(env, Front(owners), t, now), [Verdict(env, Last(owners), t, now)]);
    }
  }

  lemma {:induction false} DecisionsTreat(env: Env, ts: seq<Transition>, now: Time)
    ensures AllTreated(env, Shares(env, ts), now, Decisions(env, ts, now))
  {
    if ts != [] {
      var t := Last(ts);
      DecisionsTreat(env, Front(ts), now);
      VerdictsTreat(env, Audience(env, t), t, now);
      assert SharesOf(t, Audience(env, t)) == [Share(t, "")] + SharesOf(t, Subscribers(env, t));
      TreatedConcat(env, Shares(env, Front(ts)), SharesOf(t, Audience(env, t)), now,
                    Decisions(env, Front(ts), now), Verdicts(env, Audience(env, t), t, now));
    }
  }

  /** The i-th of these actions is a deferral, and its insert is the attempt number n. */
  ghost predicate Attempts(done: seq<Action>, first: nat, i: int, n: nat) {
    0 <= i < |done| && done[i].Defer? && n == first + Delivery.Defers(done[..i])
  }

  /** The row of a deferral, stamped with the clock of its attempt. */
  predicate RowOf(p: PendingRow, a: Action, at: Time) {
    p.user == a.user && p.rule == a.rule && p.system == a.msg.system && p.kind == a.msg.kind && p.msg == a.msg &&
    p.at == at
  }

  /** The table has gained exactly the rows of these deferrals, but for the refused ones. */
  ghost predicate Gained(
    d: Dispatcher, before: map<Id, PendingRow>, after: map<Id, PendingRow>, first: nat, done: seq<Action>)
  {
    && (forall id :: id in before ==> id in after && after[id] == before[id])
    && (forall i, n :: Attempts(done, first, i, n) && n !in d.refused ==>
          d.newId(n) in after && RowOf(after[d.newId(n)], done[i], d.clock(n)))
    && (forall id :: id in after && id !in before ==>
          exists i, n :: Attempts(done, first, i, n) && n !in d.refused && id == d.newId(n))
  }

  lemma AttemptsMore(done: seq<Action>, first: nat, i: int, n: nat)
    requires done != []
    ensures Attempts(done, first, i, n) <==>
      if i == |done| - 1 then Last(done).Defer? && n == first + Delivery.Defers(Front(done))
      else Attempts(Front(done), first, i, n)
  {
    if 0 <= i < |done| {
      assert i < |done| - 1 ==> Front(done)[..i] == done[..i];
    }
  }

  lemma {:induction false} DefersGrow(done: seq<Action>, i: int)
    requires 0 <= i < |done| && done[i].Defer?
    ensures Delivery.Defers(done[..i]) < Delivery.Defers(done)
  {
    if i == |done| - 1 {
      assert done[..i] == Front(done);
    } else {
      assert done[..i] == Front(done)[..i];
      DefersGrow(Front(done), i);
    }
  }

  /** No id handed out from the first attempt on is in the table yet. */
  ghost predicate Fresh(d: Dispatcher, rows: map<Id, PendingRow>, first: nat) {
    && (forall m: nat, n: nat :: d.newId(m) == d.newId(n) ==> m == n)
    && forall n: nat :: n >= first ==> d.newId(n) !in rows
  }

  lemma {:induction false} StoredGains(d: Dispatcher, rows: map<Id, PendingRow>, first: nat, done: seq<Action>)
    requires Fresh(d, rows, first)
    ensures Gained(d, rows, d.Stored(rows, first, done), first, done)
  {
    if done != [] {
      StoredGains(d, rows, first, Front(done));
      GainsOneMore(d, rows, d.Stored(rows, first, Front(done)), first, done, first + Delivery.Defers(Front(done)));
    }
  }

  /** The table after one more action. */
  function Next(d: Dispatcher, stored: map<Id, PendingRow>, a: Action, n: nat): map<Id, PendingRow> {
    if a.Defer? && n !in d.refused then stored[d.newId(n) := RowFor(a, d.clock(n))] else stored
  }

  lemma GainedBefore(
    d: Dispatcher, rows: map<Id, PendingRow>, stored: map<Id, PendingRow>, first: nat, done: seq<Action>,
    k: nat, i: int, n: nat)
    requires Fresh(d, rows, first) && done != [] && Gained(d, rows, stored, first, Front(done))
    requires k == first + Delivery.Defers(Front(done)) && Attempts(done, first, i, n) && n !in d.refused
    ensures var after := Next(d, stored, Last(done), k);
      d.newId(n) in after && RowOf(after[d.newId(n)], done[i], d.clock(n))
  {
    AttemptsMore(done, first, i, n);
    if i < |done| - 1 {
      DefersGrow(Front(done), i);
      assert Front(done)[i] == done[i] && n != k;
    }
  }

  lemma GainsOneMore(
    d: Dispatcher, rows: map<Id, PendingRow>, stored: map<Id, PendingRow>, first: nat, done: seq<Action>, k: nat)
    requires Fresh(d, rows, first) && done != [] && Gained(d, rows, stored, first, Front(done))
    requires k == first + Delivery.Defers(Front(done))
    ensures Gained(d, rows, Next(d, stored, Last(done), k), first, done)
  {
    var after := Next(d, stored, Last(done), k);
    forall i, n | Attempts(done, first, i, n) && n !in d.refused
      ensures d.newId(n) in after && RowOf(after[d.newId(n)], done[i], d.clock(n))
    {
      GainedBefore(d, rows, stored, first, done, k, i, n);
    }
    forall id | id in after && id !in rows
      ensures exists i, n :: Attempts(done, first, i, n) && n !in d.refused && id == d.newId(n)
    {
      if id in stored {
        var i, n :| Attempts(Front(done), first, i, n) && n !in d.refused && id == d.newId(n);
        AttemptsMore(done, first, i, n);
        assert Attempts(done, first, i, n);
      } else {
        AttemptsMore(done, first, |done| - 1, k);
        assert Attempts(done, first, |done| - 1, k);
      }
    }
  }

  lemma IssuedAreFresh(d: Dispatcher)
    requires d.Valid()
    ensures Fresh(d, d.pending, d.attempts)
  {
    forall n: nat | n >= d.attempts
      ensures d.newId(n) !in d.pending
    {
      assert d.newId(n) in d.pending ==> Issued(d.newId, d.attempts, d.newId(n));
    }
  }

  /** The i-th of these actions is a, and not a deferral whose insert was refused. */
  predicate CarriedOut(refused: set<nat>, first: nat, done: seq<Action>, i: int, a: Action) {
    0 <= i < |done| && done[i] == a && !(a.Defer? && first + Delivery.Defers(done[..i]) in refused)
  }

  ghost predicate IsCarriedOut(refused: set<nat>, first: nat, done: seq<Action>, a: Action) {
    exists i :: CarriedOut(refused, first, done, i, a)
  }

  lemma CarriedOutMore(refused: set<nat>, first: nat, done: seq<Action>, i: int, a: Action)
    requires done != []
    ensures CarriedOut(refused, first, done, i, a) <==>
      if i == |done| - 1 then a == Last(done) && !Lost(refused, first + Delivery.Defers(Front(done)), a)
      else CarriedOut(refused, first, Front(done), i, a)
  {
    if 0 <= i < |done| {
      assert i < |done| - 1 ==> Front(done)[..i] == done[..i] && Front(done)[i] == done[i];
    }
  }

  lemma IsCarriedOutMore(refused: set<nat>, first: nat, done: seq<Action>, a: Action)
    requires done != []
    ensures IsCarriedOut(refused, first, done, a) <==>
      IsCarriedOut(refused, first, Front(done), a) ||
      (a == Last(done) && !Lost(refused, first + Delivery.Defers(Front(done)), a))
  {
    CarriedOutMore(refused, first, done, |done| - 1, a);
    if IsCarriedOut(refused, first, done, a) {
      var i :| CarriedOut(refused, first, done, i, a);
      CarriedOutMore(refused, first, done, i, a);
    }
    if IsCarriedOut(refused, first, Front(done), a) {
      var i :| CarriedOut(refused, first, Front(done), i, a);
      CarriedOutMore(refused, first, done, i, a);
    }
  }

  /** What is recorded of these actions: all but the deferrals whose inserts were refused. */
  lemma {:induction false} LoggedAre(refused: set<nat>, first: nat, done: seq<Action>, a: Action)
    ensures a in LoggedUnless(refused, first, done) <==> IsCarriedOut(refused, first, done, a)
  {
    if done != [] {
      LoggedAre(refused, first, Front(done), a);
      IsCarriedOutMore(refused, first, done, a);
    }
  }

  lemma AllLoggedAre(refused: set<nat>, first: nat, done: seq<Action>)
    ensures forall a :: a in LoggedUnless(refused, first, done) <==> IsCarriedOut(refused, first, done, a)
  {
    forall a
      ensures a in LoggedUnless(refused, first, done) <==> IsCarriedOut(refused, first, done, a)
    {
      LoggedAre(refused, first, done, a);
    }
  }

  lemma LogEnds(log: seq<Action>, more: seq<Action>, sent: seq<Action>)
    ensures var all := log + more + sent;
      log <= all && all[|all| - |sent|..] == sent && all[|log|..|all| - |sent|] == more
  {
  }

  /** A batch of transitions. Every owner's share of each is treated as that owner's policy
      says, in order; all of it is recorded and every deferral has its row, but for the
      inserts that are refused. Without a list of channels nothing happens. */
  method Batch(d: Dispatcher, env: Env, ts: seq<Transition>, now: Time) returns (ghost done: seq<Action>)
    requires d.Valid() && env.Sane()
    modifies d
    ensures d.Valid()
    ensures env.enabled.None? ==> done == []
    ensures env.enabled.Some? ==> AllTreated(env, Shares(env, ts), now, done)
    ensures old(d.log) <= d.log && (d.refused == {} ==> d.log == old(d.log) + done)
    ensures forall a :: a in d.log[|old(d.log)|..] <==> IsCarriedOut(d.refused, old(d.attempts), done, a)
    ensures Gained(d, old(d.pending), d.pending, old(d.attempts), done)
  {
    done := if env.enabled.Some? then Decisions(env, ts, now) else [];
    IssuedAreFresh(d);
    StoredGains(d, d.pending, d.attempts, done);
    DecisionsTreat(env, ts, now);
    AllLoggedAre(d.refused, d.attempts, done);
    AllLogged(d.attempts, done);
    LogEnds(d.log, d.Logged(d.attempts, done), []);
    Regroup(d.log + d.Logged(d.attempts, done), [], []);
    d.Emit(env, ts, now);
  }

  // ---------------------------------------------------------- what a flush does

  predicate SameKey(p: PendingRow, q: PendingRow) {
    p.user == q.user && p.rule == q.rule && p.system == q.system
  }

  /** No row of its user, rule and system was enqueued later, ties going by id. */
  ghost predicate IsNewest(rows: map<Id, PendingRow>, id: Id)
    requires id in rows
  {
    forall q :: q in rows && q != id && SameKey(rows[q], rows[id]) ==>
      rows[q].at < rows[id].at || (rows[q].at == rows[id].at && Ordering.Before(q, id))
  }

  /** All of them are of one kind. */
  ghost predicate OneKind(rows: map<Id, PendingRow>, id: Id)
    requires id in rows
  {
    forall q :: q in rows && SameKey(rows[q], rows[id]) ==> rows[q].kind == rows[id].kind
  }

  /** The row's time has come: its owner is out of quiet hours, and of its kind it is the newest. */
  ghost predicate IsDue(env: Env, now: Time, rows: map<Id, PendingRow>, id: Id)
    requires id in rows
  {
    !Resting(env, rows[id].user, now) && IsNewest(rows, id) && OneKind(rows, id)
  }

  /** It goes to its owner's channels with the message it was enqueued with. */
  ghost predicate GoesOut(env: Env, rows: map<Id, PendingRow>, id: Id, a: Action)
    requires id in rows
  {
    && a.Release? && a.row == id && a.user == rows[id].user && a.rule == rows[id].rule && a.msg == rows[id].msg
    && Receives(env, rows[id].user, rows[id].rule, a.to)
  }

  lemma LaterIffLess(items: seq<Item>, rows: map<Id, PendingRow>, i: int, j: int)
    requires Listing(items, rows) && 0 <= i < |items| && 0 <= j < |items| && i != j
    ensures i < j <==> items[i].row.at < items[j].row.at ||
                       (items[i].row.at == items[j].row.at && Ordering.Before(items[i].id, items[j].id))
  {
    Ordering.LessIsTotalOrder(RankOf(items[i]), RankOf(items[j]), RankOf(items[i]));
  }

  /** The last of its group is the newest of its key. */
  lemma LastIsNewest(items: seq<Item>, rows: map<Id, PendingRow>, i: int)
    requires Listing(items, rows) && 0 <= i < |items|
    ensures (forall j :: i < j < |items| ==> KeyOf(items[j]) != KeyOf(items[i])) <==> IsNewest(rows, items[i].id)
  {
    DistinctItems(items, rows);
    if forall j :: i < j < |items| ==> KeyOf(items[j]) != KeyOf(items[i]) {
      forall q | q in rows && q != items[i].id && SameKey(rows[q], rows[items[i].id])
        ensures rows[q].at < rows[items[i].id].at ||
                (rows[q].at == rows[items[i].id].at && Ordering.Before(q, items[i].id))
      {
        var j :| 0 <= j < |items| && items[j] == Item(q, rows[q]);
        assert KeyOf(items[j]) == KeyOf(items[i]);
        LaterIffLess(items, rows, j, i);
      }
    } else {
      var j :| i < j < |items| && KeyOf(items[j]) == KeyOf(items[i]);
      LaterIffLess(items, rows, i, j);
      LaterIffLess(items, rows, j, i);
      assert SameKey(rows[items[j].id], rows[items[i].id]);
    }
  }

  lemma CollapsesIff(items: seq<Item>, rows: map<Id, PendingRow>, i: int)
    requires Listing(items, rows) && 0 <= i < |items|
    ensures Collapses(Members(items, KeyOf(items[i]))) <==> !OneKind(rows, items[i].id)
  {
    var k, group := KeyOf(items[i]), Members(items, KeyOf(items[i]));
    MembersAre(items, k);
    assert items[i] in items && items[i] in group;
    if Collapses(group) {
      var a :| 0 <= a < |group| && group[a].row.kind.Fired?;
      var b :| 0 <= b < |group| && group[b].row.kind.Resolved?;
      assert group[a] in group && group[b] in group;
      MemberIsRow(items, rows, group[a]);
      MemberIsRow(items, rows, group[b]);
    }
    if !OneKind(rows, items[i].id) {
      var q :| q in rows && SameKey(rows[q], rows[items[i].id]) && rows[q].kind != rows[items[i].id].kind;
      var x := Item(q, rows[q]);
      assert x in items && KeyOf(x) == k && x in group;
      var a :| 0 <= a < |group| && group[a] == x;
      var b :| 0 <= b < |group| && group[b] == items[i];
      assert group[a].row.kind != group[b].row.kind;
    }
  }

  lemma MemberIsRow(items: seq<Item>, rows: map<Id, PendingRow>, x: Item)
    requires Listing(items, rows) && x in items
    ensures x.id in rows && rows[x.id] == x.row
  {
  }

  lemma SentIffDue(env: Env, now: Time, items: seq<Item>, rows: map<Id, PendingRow>, i: int)
    requires Listing(items, rows) && 0 <= i < |items|
    ensures FateOf(env, now, items, i) == Sent <==> IsDue(env, now, rows, items[i].id)
    ensures GoesOut(env, rows, items[i].id, ReleaseOf(env, items[i]))
  {
    RestingMeans(env, items[i].row.user, now);
    LastIsNewest(items, rows, i);
    CollapsesIff(items, rows, i);
    TargetsReceive(env, items[i].row.user, items[i].row.rule);
  }

  /** What is released, and what is deleted. */
  ghost predicate Flushed(env: Env, now: Time, rows: map<Id, PendingRow>, sent: seq<Action>) {
    && (forall a :: a in sent ==> exists id :: id in rows && IsDue(env, now, rows, id) && GoesOut(env, rows, id, a))
    && (forall id :: id in rows && IsDue(env, now, rows, id) ==> exists a :: a in sent && GoesOut(env, rows, id, a))
    && (forall i, j :: 0 <= i < j < |sent| ==> sent[i].Release? && sent[j].Release? && sent[i].row != sent[j].row)
  }

  lemma ReleasesFlush(env: Env, now: Time, items: seq<Item>, rows: map<Id, PendingRow>)
    requires Listing(items, rows)
    ensures Flushed(env, now, rows, Releases(env, now, items, GroupKeys(items)))
  {
    var sent := Releases(env, now, items, GroupKeys(items));
    EveryRowHasOneFate(env, now, items, rows);
    forall a | a in sent
      ensures exists id :: id in rows && IsDue(env, now, rows, id) && GoesOut(env, rows, id, a)
    {
      var i :| 0 <= i < |items| && FateOf(env, now, items, i) == Sent && a == ReleaseOf(env, items[i]);
      SentIffDue(env, now, items, rows, i);
    }
    forall id | id in rows && IsDue(env, now, rows, id)
      ensures exists a :: a in sent && GoesOut(env, rows, id, a)
    {
      var i :| 0 <= i < |items| && items[i] == Item(id, rows[id]);
      SentIffDue(env, now, items, rows, i);
      assert ReleaseOf(env, items[i]) in sent;
    }
    MembersAre(items, GroupKey("", "", ""));
    ReleasesOnce(env, now, items, rows, GroupKeys(items));
  }

  lemma ProcessedIff(env: Env, now: Time, items: seq<Item>, rows: map<Id, PendingRow>, id: Id)
    requires Listing(items, rows) && id in rows
    ensures id in Processed(env, now, items, GroupKeys(items)) <==> !Resting(env, rows[id].user, now)
  {
    var i :| 0 <= i < |items| && items[i] == Item(id, rows[id]);
    ProcessedUnlessKept(env, now, items, rows, i);
    RestingMeans(env, rows[id].user, now);
  }

  /** A flush, with another goroutine's batch between its list and its delete. Exactly the rows
      that are due are released, once each, to the channels of their owners; the rows of
      owners in quiet hours stay, and the others go unless a statement fails. */
  method FlushOnce(
      d: Dispatcher, env: Env, now: Time, listOk: bool, deleteOk: bool, other: Env, batch: seq<Transition>, at: Time)
    returns (ghost sent: seq<Action>)
    requires d.Valid() && other.Sane()
    modifies d
    ensures d.Valid()
    ensures listOk ==> Flushed(env, now, old(d.pending), sent)
    ensures !listOk ==> sent == []
    ensures |old(d.log)| + |sent| <= |d.log| && old(d.log) <= d.log && d.log[|d.log| - |sent|..] == sent
    ensures forall a :: a in d.log[|old(d.log)|..|d.log| - |sent|] ==> !a.Release?
    ensures forall id :: id in old(d.pending) ==>
      (id in d.pending <==> !listOk || !deleteOk || Resting(env, old(d.pending)[id].user, now))
  {
    ghost var rows, log, first := d.pending, d.log, d.attempts;
    ghost var others := if other.enabled.Some? then Decisions(other, batch, at) else [];
    ghost var items := FlushPending(d, env, now, listOk, deleteOk, other, batch, at);
    sent := if listOk then Releases(env, now, items, GroupKeys(items)) else [];
    ReleasesFlush(env, now, items, rows);
    LogEnds(log, d.Logged(first, others), sent);
    NoReleases(d.refused, first, other, batch, at);
    forall id | id in rows
      ensures id in Processed(env, now, items, GroupKeys(items)) <==> !Resting(env, rows[id].user, now)
    {
      ProcessedIff(env, now, items, rows, id);
    }
    d.StoredKeeps(rows, first, others);
  }

  lemma {:induction false} NoReleases(
    refused: set<nat>, first: nat, other: Env, batch: seq<Transition>, at: Time)
    ensures forall a ::
      a in LoggedUnless(refused, first, if other.enabled.Some? then Decisions(other, batch, at) else []) ==> !a.Release?
  {
    var done := if other.enabled.Some? then Decisions(other, batch, at) else [];
    NoneReleased(other, batch, at);
    AllLoggedAre(refused, first, done);
    forall a | IsCarriedOut(refused, first, done, a)
      ensures a in done
    {
      var i :| CarriedOut(refused, first, done, i, a);
    }
  }

  lemma NoneReleased(other: Env, batch: seq<Transition>, at: Time)
    ensures forall a :: a in Decisions(other, batch, at) ==> !a.Release?
  {
    DecisionsTreat(other, batch, at);
    forall a | a in Decisions(other, batch, at)
      ensures !a.Release?
    {
      var done, shares := Decisions(other, batch, at), Shares(other, batch);
      var i :| 0 <= i < |done| && done[i] == a;
      assert Treats(other, shares[i].owner, shares[i].t, at, done[i]);
      OneMode(PolicyOf(other, shares[i].owner), shares[i].t.rule.severity);
    }
  }

  lemma OneMode(p: Policy, severity: string)
    ensures ModeOf(p, severity) in ["dashboard", "quiet", "always"]
  {
  }
}
