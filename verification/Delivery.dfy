/** Delivery of alert transitions: the dispatcher that sends, suppresses or defers
    them (internal/notifications/dispatcher.go) over the table of deferred rows
    (sqlite_store.go). The flusher is in Flush.dfy. */
module Delivery {
  import opened Common
  import opened Alerts
  import QuietHours

  // ------------------------------------------------------------------ policy

  datatype Mode = Dashboard | Quiet | Always

  datatype Policy = Policy(zone: string, windows: seq<QuietHours.Window>, severities: map<string, string>)

  const DEFAULT_POLICY := Policy("UTC", [], map["info" := "dashboard", "warning" := "quiet", "critical" := "always"])

  function ModeNamed(name: string): Option<Mode> {
    match name
    case "dashboard" => Some(Dashboard)
    case "quiet" => Some(Quiet)
    case "always" => Some(Always)
    case _ => None
  }

  function DefaultMode(severity: string): Mode {
    match severity
    case "info" => Dashboard
    case "critical" => Always
    case _ => Quiet
  }

  function ModeFor(p: Policy, severity: string): Mode {
    if severity in p.severities && ModeNamed(p.severities[severity]).Some? then ModeNamed(p.severities[severity]).value
    else DefaultMode(severity)
  }

  // ----------------------------------------------------- channels and routing

  datatype Channel = Channel(id: Id, name: string)

  datatype Routing = All | Selected(channels: seq<Id>)

  /** What the store and the subscriber resolver answer while one batch or flush is
      under way; an absent entry is a read that fails. local is the zone database. */
  datatype Env = Env(
    enabled: Option<seq<Channel>>,
    policy: Option<Policy>,
    userPolicies: map<Id, Policy>,
    userChannels: map<Id, seq<Channel>>,
    routings: map<Id, Routing>,
    subscribers: map<(Id, string), seq<Id>>,
    local: (string, Time) -> QuietHours.Clock)
  {
    /** The policy that governs an owner; the shared owner is the empty user id. */
    function Governing(user: Id): Policy {
      if user == "" then (if policy.Some? then policy.value else DEFAULT_POLICY)
      else if user in userPolicies then userPolicies[user] else DEFAULT_POLICY
    }

    predicate QuietFor(user: Id, now: Time) {
      QuietHours.Quiet(Governing(user).windows, local(Governing(user).zone, now))
    }

    function SharedChannels(): seq<Channel> {
      if enabled.Some? then enabled.value else []
    }

    function RoutingOf(rule: Id): Routing {
      if rule in routings then routings[rule] else All
    }

    function PersonalChannels(user: Id): seq<Channel> {
      if user in userChannels then userChannels[user] else []
    }

    /** Where an owner's notifications about a rule go. */
    function Targets(user: Id, rule: Id): seq<Channel> {
      if user == "" then Routed(RoutingOf(rule), SharedChannels()) else PersonalChannels(user)
    }

    /** User ids are never empty. */
    ghost predicate Sane() {
      forall k :: k in subscribers ==> "" !in subscribers[k]
    }

    /** Users with a personal interest in an alert; none when the resolver is absent or fails. */
    function Interested(system: Id, severity: string): seq<Id> {
      if (system, severity) in subscribers then subscribers[(system, severity)] else []
    }
  }

  function ById(channels: seq<Channel>): map<Id, Channel> {
    if channels == [] then map[] else ById(Front(channels))[Last(channels).id := Last(channels)]
  }

  function Pick(ids: seq<Id>, byID: map<Id, Channel>): seq<Channel> {
    if ids == [] then [] else Pick(Front(ids), byID) + if Last(ids) in byID then [byID[Last(ids)]] else []
  }

  function Routed(routing: Routing, enabled: seq<Channel>): seq<Channel> {
    if routing.Selected? then Pick(routing.channels, ById(enabled)) else enabled
  }

  lemma {:induction false} PickFinds(ids: seq<Id>, byID: map<Id, Channel>, c: Channel)
    ensures c in Pick(ids, byID) <==> exists i :: 0 <= i < |ids| && ids[i] in byID && byID[ids[i]] == c
  {
    if ids != [] {
      PickFinds(Front(ids), byID, c);
      assert forall i :: 0 <= i < |ids| - 1 ==> Front(ids)[i] == ids[i];
    }
  }

  lemma {:induction false} ByIdFinds(channels: seq<Channel>, c: Channel)
    requires forall i, j :: 0 <= i < j < |channels| ==> channels[i].id != channels[j].id
    ensures c in channels <==> c.id in ById(channels) && ById(channels)[c.id] == c
    ensures forall id :: id in ById(channels) ==> ById(channels)[id].id == id
  {
    if channels != [] {
      ByIdFinds(Front(channels), c);
      assert channels == Front(channels) + [Last(channels)];
      var front := ById(Front(channels));
      assert Last(channels).id in front ==> front[Last(channels).id] in Front(channels) by {
        if Last(channels).id in front {
          ByIdFinds(Front(channels), front[Last(channels).id]);
        }
      }
    }
  }

  /** Routing delivers to a channel exactly when it is enabled and either the rule
      goes everywhere or it was selected by id. */
  lemma RoutedMeans(routing: Routing, enabled: seq<Channel>, c: Channel)
    requires forall i, j :: 0 <= i < j < |enabled| ==> enabled[i].id != enabled[j].id
    ensures c in Routed(routing, enabled) <==> c in enabled && (routing.All? || c.id in routing.channels)
  {
    ByIdFinds(enabled, c);
    if routing.Selected? {
      PickFinds(routing.channels, ById(enabled), c);
    }
  }

  method IndexById(channels: seq<Channel>) returns (byID: map<Id, Channel>)
    ensures byID == ById(channels)
  {
    byID := map[];
    for i := 0 to |channels|
      invariant byID == ById(channels[..i])
    {
      byID := byID[channels[i].id := channels[i]];
      assert Front(channels[..i + 1]) == channels[..i];
    }
    assert channels[..|channels|] == channels;
  }

  method TargetsFor(routing: Routing, enabled: seq<Channel>, byID: map<Id, Channel>) returns (out: seq<Channel>)
    requires byID == ById(enabled)
    ensures out == Routed(routing, enabled)
  {
    if !routing.Selected? {
      return enabled;
    }
    out := [];
    var ids := routing.channels;
    for i := 0 to |ids|
      invariant out == Pick(ids[..i], byID)
    {
      assert Front(ids[..i + 1]) == ids[..i];
      if ids[i] in byID {
        out := out + [byID[ids[i]]];
      }
    }
    assert ids[..|ids|] == ids;
  }

  // --------------------------------------------------------------- decisions

  datatype Message = Message(kind: Kind, ruleName: string, severity: string, system: Id, value: real, at: Time)

  function MessageOf(t: Transition): Message {
    Message(t.kind, t.rule.name, t.rule.severity, t.system, t.value, t.at)
  }

  /** What is done about one transition for one owner. Release is the flusher's. */
  datatype Action =
    | Suppress(user: Id, rule: Id, msg: Message)
    | Defer(user: Id, rule: Id, msg: Message)
    | Send(user: Id, rule: Id, msg: Message, to: seq<Channel>)
    | Release(row: Id, user: Id, rule: Id, msg: Message, to: seq<Channel>)

  /** The policy's verdict for one owner. */
  function Verdict(env: Env, user: Id, t: Transition, now: Time): Action {
    match ModeFor(env.Governing(user), t.rule.severity)
    case Dashboard => Suppress(user, t.rule.id, MessageOf(t))
    case Quiet =>
      if env.QuietFor(user, now) then Defer(user, t.rule.id, MessageOf(t))
      else Send(user, t.rule.id, MessageOf(t), env.Targets(user, t.rule.id))
    case Always => Send(user, t.rule.id, MessageOf(t), env.Targets(user, t.rule.id))
  }

  function Verdicts(env: Env, users: seq<Id>, t: Transition, now: Time): seq<Action> {
    if users == [] then [] else Verdicts(env, Front(users), t, now) + [Verdict(env, Last(users), t, now)]
  }

  /** Everyone's verdicts on one transition: the shared owner, then each interested user. */
  function Audience(env: Env, t: Transition): seq<Id> {
    [""] + env.Interested(t.system, t.rule.severity)
  }

  function Decisions(env: Env, ts: seq<Transition>, now: Time): seq<Action> {
    if ts == [] then [] else Decisions(env, Front(ts), now) + Verdicts(env, Audience(env, Last(ts)), Last(ts), now)
  }

  // ------------------------------------------------------------ deferred rows

  datatype PendingRow = PendingRow(user: Id, rule: Id, system: Id, kind: Kind, msg: Message, at: Time)

  function RowFor(a: Action, at: Time): PendingRow
    requires a.Defer?
  {
    PendingRow(a.user, a.rule, a.msg.system, a.msg.kind, a.msg, at)
  }

  /** A row's columns agree with the message it carries. */
  predicate Coherent(p: PendingRow) {
    p.system == p.msg.system && p.kind == p.msg.kind
  }

  function Defers(actions: seq<Action>): nat {
    if actions == [] then 0 else Defers(Front(actions)) + if Last(actions).Defer? then 1 else 0
  }

  lemma {:induction false} DefersConcat(a: seq<Action>, b: seq<Action>)
    ensures Defers(a + b) == Defers(a) + Defers(b)
  {
    if b == [] {
      assert a + b == a;
    } else {
      assert Front(a + b) == a + Front(b);
      DefersConcat(a, Front(b));
    }
  }

  /** A deferral whose insert, the n-th, is refused. */
  predicate Lost(refused: set<nat>, n: nat, a: Action) {
    a.Defer? && n in refused
  }

  /** What is recorded of these decisions, n inserts having been attempted before. */
  function LoggedUnless(refused: set<nat>, n: nat, actions: seq<Action>): seq<Action> {
    if actions == [] then []
    else if Lost(refused, n + Defers(Front(actions)), Last(actions)) then LoggedUnless(refused, n, Front(actions))
    else LoggedUnless(refused, n, Front(actions)) + [Last(actions)]
  }

  lemma {:induction false} AllLogged(n: nat, actions: seq<Action>)
    ensures LoggedUnless({}, n, actions) == actions
  {
    if actions != [] {
      AllLogged(n, Front(actions));
      FrontAndLast(actions);
    }
  }

  lemma {:induction false} LoggedConcat(refused: set<nat>, n: nat, a: seq<Action>, b: seq<Action>)
    ensures LoggedUnless(refused, n, a + b) == LoggedUnless(refused, n, a) + LoggedUnless(refused, n + Defers(a), b)
  {
    if b == [] {
      Regroup(a, [], []);
      Regroup(LoggedUnless(refused, n, a), [], []);
    } else {
      FrontOfConcat(a, b);
      LoggedConcat(refused, n, a, Front(b));
      DefersConcat(a, Front(b));
      Regroup(LoggedUnless(refused, n, a), LoggedUnless(refused, n + Defers(a), Front(b)), [Last(b)]);
    }
  }

  /** A batch's caches hold what the store would answer. */
  ghost predicate Cached(env: Env, routing: map<Id, Routing>, policies: map<Id, Policy>, chans: map<Id, seq<Channel>>) {
    && (forall k :: k in routing ==> routing[k] == env.RoutingOf(k))
    && (forall k :: k in policies ==> k != "" && policies[k] == env.Governing(k))
    && (forall k :: k in chans ==> chans[k] == env.PersonalChannels(k))
  }

  /** The id was handed out at one of the first attempts. */
  predicate Issued(newId: nat -> Id, attempts: nat, id: Id) {
    exists n :: 0 <= n < attempts && newId(n) == id
  }

  /** As long as every delete has succeeded (intact) a released row is gone from the
      table and was released once. */
  ghost predicate Sound(
    newId: nat -> Id, pending: map<Id, PendingRow>, log: seq<Action>, attempts: nat, intact: bool)
  {
    && (forall id :: id in pending ==> Issued(newId, attempts, id) && Coherent(pending[id]))
    && (intact ==> ReleasedOnce(log) && forall i :: 0 <= i < |log| && log[i].Release? ==>
                     log[i].row !in pending && Issued(newId, attempts, log[i].row))
  }

  /** Another attempt, whether or not its row goes in, leaves the state sound. */
  lemma SoundAfterAttempt(
    newId: nat -> Id, pending: map<Id, PendingRow>, log: seq<Action>, attempts: nat, intact: bool,
    a: Action, row: PendingRow)
    requires forall m: nat, n: nat :: newId(m) == newId(n) ==> m == n
    requires Sound(newId, pending, log, attempts, intact) && a.Defer? && Coherent(row)
    ensures Sound(newId, pending, log, attempts + 1, intact)
    ensures Sound(newId, pending[newId(attempts) := row], log + [a], attempts + 1, intact)
  {
    forall id | Issued(newId, attempts, id)
      ensures Issued(newId, attempts + 1, id) && id != newId(attempts)
    {
      var n :| 0 <= n < attempts && newId(n) == id;
    }
    assert 0 <= attempts < attempts + 1 && newId(attempts) == newId(attempts);
  }

  /** The dispatcher and the notification_pending table. Row ids and the time stamps
      of rows are whatever the id generator and the clock give (newId, clock); the
      inserts numbered in refused fail. log is everything recorded so far, oldest first. */
  class Dispatcher {
    var pending: map<Id, PendingRow>
    var log: seq<Action>
    var attempts: nat
    var intact: bool
    const newId: nat -> Id
    const clock: nat -> Time
    const refused: set<nat>

    /** Ids are fresh, and the state is sound. */
    ghost predicate Valid()
      reads this
    {
      (forall m: nat, n: nat :: newId(m) == newId(n) ==> m == n) && Sound(newId, pending, log, attempts, intact)
    }

    constructor (newId: nat -> Id, clock: nat -> Time, refused: set<nat>)
      requires forall m: nat, n: nat :: newId(m) == newId(n) ==> m == n
      ensures Valid() && pending == map[] && log == [] && attempts == 0 && intact
      ensures this.newId == newId && this.clock == clock && this.refused == refused
    {
      this.newId, this.clock, this.refused := newId, clock, refused;
      pending, log, attempts, intact := map[], [], 0, true;
    }

    /** The table after the rows of these decisions were inserted, the first attempt being number n. */
    function Stored(rows: map<Id, PendingRow>, n: nat, actions: seq<Action>): map<Id, PendingRow> {
      if actions == [] then rows
      else
        var rows', k := Stored(rows, n, Front(actions)), n + Defers(Front(actions));
        if Last(actions).Defer? && k !in refused then rows'[newId(k) := RowFor(Last(actions), clock(k))] else rows'
    }

    /** What is recorded of these decisions. */
    function Logged(n: nat, actions: seq<Action>): seq<Action> {
      LoggedUnless(refused, n, actions)
    }

    /** Since the given state exactly these decisions were carried out. */
    ghost predicate Performed(log0: seq<Action>, rows0: map<Id, PendingRow>, n0: nat, done: seq<Action>)
      reads this
    {
      && log == log0 + Logged(n0, done) && pending == Stored(rows0, n0, done)
      && attempts == n0 + Defers(done)
    }

    lemma StoredOne(rows: map<Id, PendingRow>, n: nat, a: Action)
      ensures Stored(rows, n, [a]) ==
        if a.Defer? && n !in refused then rows[newId(n) := RowFor(a, clock(n))] else rows
      ensures Logged(n, [a]) == if a.Defer? && n in refused then [] else [a]
      ensures Defers([a]) == if a.Defer? then 1 else 0
    {
      assert Front([a]) == [] && Last([a]) == a;
      assert LoggedUnless(refused, n, []) == [];
      Regroup([], [], [a]);
    }

    method Enqueue(t: Transition, user: Id)
      requires Valid()
      modifies this
      ensures Valid() && intact == old(intact)
      ensures Performed(old(log), old(pending), old(attempts), [Defer(user, t.rule.id, MessageOf(t))])
    {
      ghost var a := Defer(user, t.rule.id, MessageOf(t));
      StoredOne(pending, attempts, a);
      SoundAfterAttempt(newId, pending, log, attempts, intact, a, RowFor(a, clock(attempts)));
      var n := attempts;
      attempts := attempts + 1;
      if n in refused {
        Regroup(log, [], []);
        return;
      }
      pending := pending[newId(n) := PendingRow(user, t.rule.id, t.system, t.kind, MessageOf(t), clock(n))];
      log := log + [Defer(user, t.rule.id, MessageOf(t))];
    }

    /** Records a decision that leaves the table alone. */
    method Note(a: Action)
      requires Valid() && (a.Suppress? || a.Send?)
      modifies this`log
      ensures Valid() && Performed(old(log), old(pending), old(attempts), [a])
    {
      StoredOne(pending, attempts, a);
      log := log + [a];
    }

    /** Loads a rule's routing once per batch. */
    method RoutedTargets(env: Env, rule: Id, enabled: seq<Channel>, byID: map<Id, Channel>, cache: map<Id, Routing>)
      returns (to: seq<Channel>, cache': map<Id, Routing>)
      requires env.enabled == Some(enabled) && byID == ById(enabled)
      requires Cached(env, cache, map[], map[])
      ensures to == env.Targets("", rule)
      ensures Cached(env, cache', map[], map[])
    {
      cache' := cache;
      if rule !in cache {
        cache' := cache[rule := if rule in env.routings then env.routings[rule] else All];
      }
      to := TargetsFor(cache'[rule], enabled, byID);
    }

    /** One owner's verdict, carried out. */
    method DispatchShared(
        env: Env, t: Transition, now: Time, policy: Policy, quiet: bool,
        enabled: seq<Channel>, byID: map<Id, Channel>, cache: map<Id, Routing>)
      returns (cache': map<Id, Routing>)
      requires Valid() && env.enabled == Some(enabled) && byID == ById(enabled)
      requires policy == env.Governing("") && quiet == env.QuietFor("", now)
      requires Cached(env, cache, map[], map[])
      modifies this
      ensures Valid() && intact == old(intact) && Cached(env, cache', map[], map[])
      ensures Performed(old(log), old(pending), old(attempts), [Verdict(env, "", t, now)])
    {
      cache' := cache;
      var mode := ModeFor(policy, t.rule.severity);
      if mode.Dashboard? {
        Note(Suppress("", t.rule.id, MessageOf(t)));
      } else if mode.Quiet? && quiet {
        Enqueue(t, "");
      } else {
        var to;
        to, cache' := RoutedTargets(env, t.rule.id, enabled, byID, cache);
        Note(Send("", t.rule.id, MessageOf(t), to));
      }
    }

    /** userDispatch.policy. */
    static method UserPolicy(env: Env, uid: Id, policies: map<Id, Policy>)
      returns (p: Policy, policies': map<Id, Policy>)
      requires uid != "" && Cached(env, map[], policies, map[])
      ensures p == env.Governing(uid) && Cached(env, map[], policies', map[])
    {
      policies' := policies;
      if uid !in policies {
        policies' := policies[uid := if uid in env.userPolicies then env.userPolicies[uid] else DEFAULT_POLICY];
      }
      p := policies'[uid];
    }

    /** userDispatch.channels. */
    static method UserChannels(env: Env, uid: Id, chans: map<Id, seq<Channel>>)
      returns (c: seq<Channel>, chans': map<Id, seq<Channel>>)
      requires Cached(env, map[], map[], chans)
      ensures c == env.PersonalChannels(uid) && Cached(env, map[], map[], chans')
    {
      chans' := chans;
      if uid !in chans {
        chans' := chans[uid := if uid in env.userChannels then env.userChannels[uid] else []];
      }
      c := chans'[uid];
    }

    /** One interested user, under that user's own policy. */
    method DispatchUser(
        env: Env, t: Transition, now: Time, uid: Id, policies: map<Id, Policy>, chans: map<Id, seq<Channel>>)
      returns (policies': map<Id, Policy>, chans': map<Id, seq<Channel>>)
      requires Valid() && uid != "" && Cached(env, map[], policies, chans)
      modifies this
      ensures Valid() && intact == old(intact) && Cached(env, map[], policies', chans')
      ensures Performed(old(log), old(pending), old(attempts), [Verdict(env, uid, t, now)])
    {
      chans' := chans;
      var pol;
      pol, policies' := UserPolicy(env, uid, policies);
      var mode := ModeFor(pol, t.rule.severity);
      if mode.Dashboard? {
        Note(Suppress(uid, t.rule.id, MessageOf(t)));
        return;
      }
      if mode.Quiet? {
        var quiet := QuietHours.InQuietHours(pol.windows, env.local(pol.zone, now));
        if quiet {
          Enqueue(t, uid);
          return;
        }
      }
      var to;
      to, chans' := UserChannels(env, uid, chans);
      Note(Send(uid, t.rule.id, MessageOf(t), to));
    }

    /** The personal path. */
    method DispatchPersonal(
        env: Env, t: Transition, now: Time, policies: map<Id, Policy>, chans: map<Id, seq<Channel>>)
      returns (policies': map<Id, Policy>, chans': map<Id, seq<Channel>>)
      requires Valid() && env.Sane() && Cached(env, map[], policies, chans)
      modifies this
      ensures Valid() && intact == old(intact) && Cached(env, map[], policies', chans')
      ensures Performed(old(log), old(pending), old(attempts),
                        Verdicts(env, env.Interested(t.system, t.rule.severity), t, now))
    {
      policies', chans' := policies, chans;
      var users := env.Interested(t.system, t.rule.severity);
      for i := 0 to |users|
        invariant Valid() && intact == old(intact) && Cached(env, map[], policies', chans')
        invariant Performed(old(log), old(pending), old(attempts), Verdicts(env, users[..i], t, now))
      {
        ghost var log1, rows1, n1 := log, pending, attempts;
        policies', chans' := DispatchUser(env, t, now, users[i], policies', chans');
        PerformedThen(old(log), old(pending), old(attempts), Verdicts(env, users[..i], t, now),
                      log1, rows1, n1, [Verdict(env, users[i], t, now)]);
        VerdictsMore(env, users, i, t, now);
      }
      assert users[..|users|] == users;
    }

    /** One transition, for its whole audience. */
    method Dispatch(
        env: Env, t: Transition, now: Time, policy: Policy, quiet: bool, enabled: seq<Channel>, byID: map<Id, Channel>,
        routing: map<Id, Routing>, policies: map<Id, Policy>, chans: map<Id, seq<Channel>>)
      returns (routing': map<Id, Routing>, policies': map<Id, Policy>, chans': map<Id, seq<Channel>>)
      requires Valid() && env.Sane() && env.enabled == Some(enabled) && byID == ById(enabled)
      requires policy == env.Governing("") && quiet == env.QuietFor("", now)
      requires Cached(env, routing, policies, chans)
      modifies this
      ensures Valid() && intact == old(intact) && Cached(env, routing', policies', chans')
      ensures Performed(old(log), old(pending), old(attempts), Verdicts(env, Audience(env, t), t, now))
    {
      ghost var users := env.Interested(t.system, t.rule.severity);
      routing' := DispatchShared(env, t, now, policy, quiet, enabled, byID, routing);
      ghost var log1, rows1, n1 := log, pending, attempts;
      policies', chans' := DispatchPersonal(env, t, now, policies, chans);
      PerformedThen(old(log), old(pending), old(attempts), [Verdict(env, "", t, now)],
                    log1, rows1, n1, Verdicts(env, users, t, now));
      AudienceVerdicts(env, t, now);
    }

    /** One batch. With its caches it does exactly what reading every policy, routing
        and channel list afresh for every transition would do. */
    method Emit(env: Env, ts: seq<Transition>, now: Time)
      requires Valid() && env.Sane()
      modifies this
      ensures Valid() && intact == old(intact)
      ensures Performed(old(log), old(pending), old(attempts),
                        if env.enabled.Some? then Decisions(env, ts, now) else [])
    {
      if env.enabled.None? {
        return;
      }
      var enabled := env.enabled.value;
      var byID := IndexById(enabled);
      var policy := if env.policy.Some? then env.policy.value else DEFAULT_POLICY;
      var quiet := QuietHours.InQuietHours(policy.windows, env.local(policy.zone, now));
      var routing: map<Id, Routing> := map[];
      var policies: map<Id, Policy> := map[];
      var chans: map<Id, seq<Channel>> := map[];
      for i := 0 to |ts|
        invariant Valid() && intact == old(intact) && Cached(env, routing, policies, chans)
        invariant Performed(old(log), old(pending), old(attempts), Decisions(env, ts[..i], now))
      {
        ghost var log1, rows1, n1 := log, pending, attempts;
        routing, policies, chans :=
          Dispatch(env, ts[i], now, policy, quiet, enabled, byID, routing, policies, chans);
        PerformedThen(old(log), old(pending), old(attempts), Decisions(env, ts[..i], now),
                      log1, rows1, n1, Verdicts(env, Audience(env, ts[i]), ts[i], now));
        assert Front(ts[..i + 1]) == ts[..i];
      }
      assert ts[..|ts|] == ts;
    }

    /** The flusher's fan-outs and its final delete of the rows it has dealt with. */
    method ReleaseAndDelete(sends: seq<Action>, ids: set<Id>, deleteOk: bool)
      requires Valid() && ids <= pending.Keys
      requires ReleasedOnce(sends) && forall i :: 0 <= i < |sends| ==> sends[i].Release? && sends[i].row in ids
      modifies this`log, this`pending, this`intact
      ensures Valid() && log == old(log) + sends
      ensures pending == (if deleteOk then old(pending) - ids else old(pending))
      ensures intact == (old(intact) && (deleteOk || ids == {}))
    {
      log := log + sends;
      if deleteOk {
        pending := pending - ids;
      } else if ids != {} {
        intact := false;
      }
    }

    lemma {:induction false} StoredKeeps(rows: map<Id, PendingRow>, n: nat, a: seq<Action>)
      ensures rows.Keys <= Stored(rows, n, a).Keys
    {
      if a != [] {
        StoredKeeps(rows, n, Front(a));
      }
    }

    lemma {:induction false} StoredConcat(rows: map<Id, PendingRow>, n: nat, a: seq<Action>, b: seq<Action>)
      ensures Stored(rows, n, a + b) == Stored(Stored(rows, n, a), n + Defers(a), b)
    {
      if b == [] {
        assert a + b == a;
      } else {
        assert Front(a + b) == a + Front(b);
        StoredConcat(rows, n, a, Front(b));
        DefersConcat(a, Front(b));
      }
    }

    /** Decisions carried out one batch after another. */
    lemma PerformedThen(
      log0: seq<Action>, rows0: map<Id, PendingRow>, n0: nat, a: seq<Action>,
      log1: seq<Action>, rows1: map<Id, PendingRow>, n1: nat, b: seq<Action>)
      requires log1 == log0 + Logged(n0, a) && rows1 == Stored(rows0, n0, a) && n1 == n0 + Defers(a)
      requires Performed(log1, rows1, n1, b)
      ensures Performed(log0, rows0, n0, a + b)
    {
      StoredConcat(rows0, n0, a, b);
      LoggedConcat(refused, n0, a, b);
      DefersConcat(a, b);
      Regroup(log0, Logged(n0, a), Logged(n1, b));
    }
  }

  lemma VerdictsMore(env: Env, users: seq<Id>, i: nat, t: Transition, now: Time)
    requires i < |users|
    ensures Verdicts(env, users[..i + 1], t, now) ==
      Verdicts(env, users[..i], t, now) + [Verdict(env, users[i], t, now)]
  {
    PrefixGrows(users, i);
  }

  lemma {:induction false} VerdictsConcat(env: Env, a: seq<Id>, b: seq<Id>, t: Transition, now: Time)
    ensures Verdicts(env, a + b, t, now) == Verdicts(env, a, t, now) + Verdicts(env, b, t, now)
  {
    if b == [] {
      assert a + b == a;
    } else {
      assert Front(a + b) == a + Front(b);
      VerdictsConcat(env, a, Front(b), t, now);
    }
  }

  lemma AudienceVerdicts(env: Env, t: Transition, now: Time)
    ensures Verdicts(env, Audience(env, t), t, now) ==
      [Verdict(env, "", t, now)] + Verdicts(env, env.Interested(t.system, t.rule.severity), t, now)
  {
    assert Front([""]) == [] && Verdicts(env, [""], t, now) == [Verdict(env, "", t, now)];
    VerdictsConcat(env, [""], env.Interested(t.system, t.rule.severity), t, now);
  }

  predicate ReleasedOnce(log: seq<Action>) {
    forall i, j :: 0 <= i < j < |log| && log[i].Release? && log[j].Release? ==> log[i].row != log[j].row
  }
}
