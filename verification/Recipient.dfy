/** One recipient and one (rule, system) pair: what a channel was last told against the true
    state, over every run of evaluator, dispatcher and flusher together
    (internal/alerts/evaluator.go, internal/notifications/dispatcher.go, flusher.go). */
module Recipient {
  import opened Common
  import opened Alerts
  import opened Delivery
  import opened Flush
  import H = AlertHistory

  // ------------------------------------------------------ what a recipient knows

  predicate Concerns(a: Action, k: GroupKey) {
    a.user == k.user && a.rule == k.rule && a.msg.system == k.system
  }

  predicate Reaches(a: Action, k: GroupKey, c: Channel) {
    Concerns(a, k) && (a.Send? || a.Release?) && c in a.to
  }

  /** Whether the channel was last told "firing" for k, starting from the given belief. */
  function Told(log: seq<Action>, k: GroupKey, c: Channel, start: bool): bool {
    if log == [] then start
    else if Reaches(Last(log), k, c) then Last(log).msg.kind.Fired?
    else Told(Front(log), k, c, start)
  }

  /** The kinds deferred for k, oldest first. */
  function Deferred(log: seq<Action>, k: GroupKey): seq<Kind> {
    if log == [] then [] else Deferred(Front(log), k) + DeferredOf(Last(log), k)
  }

  function DeferredOf(a: Action, k: GroupKey): seq<Kind> {
    if a.Defer? && Concerns(a, k) then [a.msg.kind] else []
  }

  lemma OneMore(log: seq<Action>, a: Action, k: GroupKey, c: Channel, start: bool)
    ensures Told(log + [a], k, c, start) == if Reaches(a, k, c) then a.msg.kind.Fired? else Told(log, k, c, start)
    ensures Deferred(log + [a], k) == Deferred(log, k) + DeferredOf(a, k)
  {
    assert Front(log + [a]) == log;
  }

  lemma {:induction false} ToldConcat(a: seq<Action>, b: seq<Action>, k: GroupKey, c: Channel, start: bool)
    ensures Told(a + b, k, c, start) == Told(b, k, c, Told(a, k, c, start))
    ensures Deferred(a + b, k) == Deferred(a, k) + Deferred(b, k)
  {
    if b == [] {
      assert a + b == a;
    } else {
      FrontOfConcat(a, b);
      ToldConcat(a, Front(b), k, c, start);
      Regroup(Deferred(a, k), Deferred(Front(b), k), DeferredOf(Last(b), k));
    }
  }

  // -------------------------------------------------- one share of one batch

  function Count(ids: seq<Id>, id: Id): nat {
    if ids == [] then 0 else Count(Front(ids), id) + if Last(ids) == id then 1 else 0
  }

  function Repeat(kind: Kind, n: nat): seq<Kind> {
    if n == 0 then [] else Repeat(kind, n - 1) + [kind]
  }

  lemma RepeatOnce(kind: Kind)
    ensures Repeat(kind, 1) == [kind]
  {
    assert Repeat(kind, 0) == [];
  }

  lemma RepeatCount(kind: Kind, users: seq<Id>, id: Id)
    requires users != []
    ensures Repeat(kind, Count(users, id)) ==
      Repeat(kind, Count(Front(users), id)) + if Last(users) == id then [kind] else []
  {
    assert Repeat(kind, Count(Front(users), id)) + [] == Repeat(kind, Count(Front(users), id));
  }

  /** What becomes of a change of the pair: the channel is told at once, a row waits for
      the flusher, or neither. */
  datatype Heard = AtOnce | Waits | Never

  predicate Listens(env: Env, r: Rule, k: GroupKey) {
    k.user == "" || k.user in env.Interested(k.system, r.severity)
  }

  function HowHeard(env: Env, r: Rule, k: GroupKey, c: Channel, at: Time): Heard {
    var mode := ModeFor(env.Governing(k.user), r.severity);
    if env.enabled.None? || !Listens(env, r, k) || mode.Dashboard? then Never
    else if mode.Quiet? && env.QuietFor(k.user, at) then Waits
    else if c in env.Targets(k.user, k.rule) then AtOnce
    else Never
  }

  /** Nobody is named twice in the audience. */
  predicate NamedOnce(env: Env, r: Rule, k: GroupKey) {
    Count([""] + env.Interested(k.system, r.severity), k.user) <= 1
  }

  predicate Matches(t: Transition, k: GroupKey) {
    t.rule.id == k.rule && t.system == k.system
  }

  predicate TellsNow(a: Action, c: Channel) {
    a.Send? && c in a.to
  }

  lemma {:induction false} CountedMembers(users: seq<Id>, user: Id)
    ensures user in users <==> Count(users, user) > 0
  {
    if users != [] {
      CountedMembers(Front(users), user);
      assert users == Front(users) + [Last(users)];
    }
  }

  /** Only the owner's own verdict, and only on a transition of the pair, concerns it. */
  lemma VerdictFor(env: Env, user: Id, t: Transition, at: Time, k: GroupKey, c: Channel)
    ensures var a := Verdict(env, user, t, at);
      && a.msg.kind == t.kind && !a.Release?
      && (Concerns(a, k) <==> Matches(t, k) && user == k.user)
      && (Reaches(a, k, c) <==> Matches(t, k) && user == k.user && TellsNow(a, c))
  {
  }

  lemma {:induction false} VerdictsFor(
    env: Env, users: seq<Id>, t: Transition, at: Time, k: GroupKey, c: Channel, belief: bool)
    ensures Told(Verdicts(env, users, t, at), k, c, belief) ==
      if Matches(t, k) && Count(users, k.user) > 0 && TellsNow(Verdict(env, k.user, t, at), c) then t.kind.Fired?
      else belief
    ensures Deferred(Verdicts(env, users, t, at), k) ==
      if Matches(t, k) && Verdict(env, k.user, t, at).Defer? then Repeat(t.kind, Count(users, k.user)) else []
  {
    if users != [] {
      VerdictsFor(env, Front(users), t, at, k, c, belief);
      VerdictFor(env, Last(users), t, at, k, c);
      RepeatCount(t.kind, users, k.user);
      Regroup(Deferred(Verdicts(env, Front(users), t, at), k), [], []);
      OneMore(Verdicts(env, Front(users), t, at), Verdict(env, Last(users), t, at), k, c, belief);
    }
  }

  lemma ListensIff(env: Env, t: Transition, k: GroupKey)
    requires Matches(t, k)
    ensures Count(Audience(env, t), k.user) > 0 <==> Listens(env, t.rule, k)
  {
    CountedMembers(Audience(env, t), k.user);
  }

  /** The owner's verdict, in the channel's terms. */
  lemma VerdictIs(env: Env, t: Transition, at: Time, k: GroupKey, c: Channel)
    requires env.enabled.Some? && Matches(t, k) && Listens(env, t.rule, k)
    ensures var a, how := Verdict(env, k.user, t, at), HowHeard(env, t.rule, k, c, at);
      (a.Defer? <==> how.Waits?) && (TellsNow(a, c) <==> how.AtOnce?)
  {
  }

  /** All that one transition does. */
  lemma BatchFor(env: Env, t: Transition, at: Time, r: Rule, k: GroupKey, c: Channel, belief: bool)
    requires env.enabled.Some? && (Matches(t, k) ==> t.rule == r) && NamedOnce(env, r, k)
    ensures Told(Verdicts(env, Audience(env, t), t, at), k, c, belief) ==
      if Matches(t, k) && HowHeard(env, r, k, c, at).AtOnce? then t.kind.Fired? else belief
    ensures Deferred(Verdicts(env, Audience(env, t), t, at), k) ==
      if Matches(t, k) && HowHeard(env, r, k, c, at).Waits? then [t.kind] else []
  {
    VerdictsFor(env, Audience(env, t), t, at, k, c, belief);
    if Matches(t, k) {
      ListensIff(env, t, k);
      if Listens(env, r, k) {
        VerdictIs(env, t, at, k, c);
        RepeatOnce(t.kind);
      }
    }
  }

  /** A batch with at most one transition of the pair. */
  lemma {:induction false} DecisionsFor(
    env: Env, ts: seq<Transition>, at: Time, r: Rule, k: GroupKey, c: Channel, belief: bool)
    requires env.enabled.Some? && NamedOnce(env, r, k)
    requires forall t :: t in ts && Matches(t, k) ==> t.rule == r
    requires |About(ts, k.rule, k.system)| <= 1
    ensures var about := About(ts, k.rule, k.system);
      && Told(Decisions(env, ts, at), k, c, belief) ==
         (if about != [] && HowHeard(env, r, k, c, at).AtOnce? then about[0].kind.Fired? else belief)
      && Deferred(Decisions(env, ts, at), k) ==
         (if about != [] && HowHeard(env, r, k, c, at).Waits? then [about[0].kind] else [])
  {
    if ts != [] {
      var t, rest := Last(ts), Decisions(env, Front(ts), at);
      assert ts == Front(ts) + [t];
      DecisionsFor(env, Front(ts), at, r, k, c, belief);
      BatchFor(env, t, at, r, k, c, Told(rest, k, c, belief));
      ToldConcat(rest, Verdicts(env, Audience(env, t), t, at), k, c, belief);
      Regroup(Deferred(rest, k), [], []);
      Regroup([], [], Deferred(Verdicts(env, Audience(env, t), t, at), k));
    }
  }

  // ------------------------------------------------------- the rows for one key

  /** ids are the deferred rows for k, one per kind, in the order they were deferred. */
  ghost predicate Tracks(rows: map<Id, PendingRow>, k: GroupKey, kinds: seq<Kind>, ids: seq<Id>) {
    && |ids| == |kinds| && NoRepeats(ids)
    && (forall j :: 0 <= j < |ids| ==>
          ids[j] in rows && KeyOf(Item(ids[j], rows[ids[j]])) == k && rows[ids[j]].kind == kinds[j])
    && (forall id :: id in rows && KeyOf(Item(id, rows[id])) == k ==> id in ids)
  }

  /** Every row has an id handed out before the n-th attempt to insert one. */
  ghost predicate IssuedBefore(d: Dispatcher, rows: map<Id, PendingRow>, n: nat) {
    forall id :: id in rows ==> exists i: nat :: i < n && d.newId(i) == id
  }

  lemma IssuedOneMore(d: Dispatcher, rows: map<Id, PendingRow>, n: nat, row: PendingRow)
    requires forall i: nat, j: nat :: d.newId(i) == d.newId(j) ==> i == j
    requires IssuedBefore(d, rows, n)
    ensures d.newId(n) !in rows && IssuedBefore(d, rows[d.newId(n) := row], n + 1)
  {
    assert n < n + 1 && d.newId(n) == d.newId(n);
  }

  /** Carrying out one decision. */
  lemma TrackOne(
    d: Dispatcher, rows: map<Id, PendingRow>, m: nat, a: Action, k: GroupKey, kinds: seq<Kind>, ids: seq<Id>)
    returns (rows': map<Id, PendingRow>, ids': seq<Id>)
    requires forall i: nat, j: nat :: d.newId(i) == d.newId(j) ==> i == j
    requires IssuedBefore(d, rows, m) && Tracks(rows, k, kinds, ids)
    ensures rows' == if a.Defer? && m !in d.refused then rows[d.newId(m) := RowFor(a, d.clock(m))] else rows
    ensures Tracks(rows', k, kinds + (if Lost(d.refused, m, a) then [] else DeferredOf(a, k)), ids')
    ensures IssuedBefore(d, rows', m + if a.Defer? then 1 else 0)
  {
    Regroup(kinds, [], []);
    rows', ids' := rows, ids;
    if a.Defer? && m !in d.refused {
      var id, row := d.newId(m), RowFor(a, d.clock(m));
      IssuedOneMore(d, rows, m, row);
      ids' := AddTracked(rows, id, row, k, kinds, ids);
      rows' := rows[id := row];
      assert Concerns(a, k) <==> KeyOf(Item(id, row)) == k;
    }
  }

  /** Storing decisions adds one fresh row for each deferral recorded, and nothing else. */
  lemma {:induction false} StoredTracks(
    d: Dispatcher, rows: map<Id, PendingRow>, n: nat, actions: seq<Action>, k: GroupKey, kinds: seq<Kind>, ids: seq<Id>)
    returns (ids': seq<Id>)
    requires forall i: nat, j: nat :: d.newId(i) == d.newId(j) ==> i == j
    requires IssuedBefore(d, rows, n) && Tracks(rows, k, kinds, ids)
    ensures Tracks(d.Stored(rows, n, actions), k, kinds + Deferred(d.Logged(n, actions), k), ids')
    ensures IssuedBefore(d, d.Stored(rows, n, actions), n + Delivery.Defers(actions))
  {
    if actions == [] {
      ids' := ids;
      Regroup(kinds, [], []);
    } else {
      ids' := StoredTracks(d, rows, n, Front(actions), k, kinds, ids);
      ids' := TrackNext(d, d.Stored(rows, n, Front(actions)), rows, n, actions, k, kinds, ids');
    }
  }

  lemma TrackNext(
    d: Dispatcher, stored: map<Id, PendingRow>, rows: map<Id, PendingRow>, n: nat, actions: seq<Action>, k: GroupKey,
    kinds: seq<Kind>, ids: seq<Id>)
    returns (ids': seq<Id>)
    requires forall i: nat, j: nat :: d.newId(i) == d.newId(j) ==> i == j
    requires actions != [] && stored == d.Stored(rows, n, Front(actions))
    requires IssuedBefore(d, stored, n + Delivery.Defers(Front(actions)))
    requires Tracks(stored, k, kinds + Deferred(d.Logged(n, Front(actions)), k), ids)
    ensures Tracks(d.Stored(rows, n, actions), k, kinds + Deferred(d.Logged(n, actions), k), ids')
    ensures IssuedBefore(d, d.Stored(rows, n, actions), n + Delivery.Defers(actions))
  {
    var a, m := Last(actions), n + Delivery.Defers(Front(actions));
    var before := Deferred(d.Logged(n, Front(actions)), k);
    var rows';
    rows', ids' := TrackOne(d, stored, m, a, k, kinds + before, ids);
    assert rows' == d.Stored(rows, n, actions);
    LoggedOneMore(d.refused, n, actions, k);
    Regroup(kinds, before, if Lost(d.refused, m, a) then [] else DeferredOf(a, k));
  }

  lemma LoggedOneMore(refused: set<nat>, n: nat, actions: seq<Action>, k: GroupKey)
    requires actions != []
    ensures var a, m := Last(actions), n + Delivery.Defers(Front(actions));
      Deferred(LoggedUnless(refused, n, actions), k) ==
        Deferred(LoggedUnless(refused, n, Front(actions)), k) +
        if Lost(refused, m, a) then [] else DeferredOf(a, k)
  {
    var before := LoggedUnless(refused, n, Front(actions));
    OneMore(before, Last(actions), k, Channel("", ""), false);
    Regroup(Deferred(before, k), [], []);
  }

  /** What is not recorded was not told either, and if it was to wait it does not. */
  lemma {:induction false} LoggedTells(
    refused: set<nat>, n: nat, actions: seq<Action>, k: GroupKey, c: Channel, start: bool)
    ensures var logged := LoggedUnless(refused, n, actions);
      && Told(logged, k, c, start) == Told(actions, k, c, start)
      && |Deferred(logged, k)| <= |Deferred(actions, k)|
      && (|Deferred(logged, k)| == |Deferred(actions, k)| ==> Deferred(logged, k) == Deferred(actions, k))
  {
    if actions != [] {
      var before := LoggedUnless(refused, n, Front(actions));
      LoggedTells(refused, n, Front(actions), k, c, start);
      LoggedOneMore(refused, n, actions, k);
      OneMore(before, Last(actions), k, c, start);
    }
  }

  lemma AddTracked(rows: map<Id, PendingRow>, id: Id, row: PendingRow, k: GroupKey, kinds: seq<Kind>, ids: seq<Id>)
    returns (ids': seq<Id>)
    requires id !in rows && Tracks(rows, k, kinds, ids)
    ensures if KeyOf(Item(id, row)) == k then Tracks(rows[id := row], k, kinds + [row.kind], ids')
            else Tracks(rows[id := row], k, kinds, ids')
  {
    ids' := if KeyOf(Item(id, row)) == k then ids + [id] else ids;
  }

  // ------------------------------------------------------------------ releases

  /** What one group's release tells the channel about k. */
  lemma GroupReleaseTells(env: Env, now: Time, items: seq<Item>, q: GroupKey, k: GroupKey, c: Channel)
    requires forall x :: x in items ==> Coherent(x.row)
    ensures |GroupRelease(env, now, items, q)| <= 1
    ensures GroupRelease(env, now, items, q) != [] ==>
      var a := GroupRelease(env, now, items, q)[0];
      && Members(items, q) != [] && a.msg.kind == Last(Members(items, q)).row.kind
      && (Reaches(a, k, c) <==> q == k && c in env.Targets(k.user, k.rule))
  {
    MembersAre(items, q);
    if Members(items, q) != [] {
      var x := Last(Members(items, q));
      assert x in Members(items, q) && KeyOf(x) == q && Coherent(x.row);
    }
  }

  /** What a flush tells the channel about k: the newest row of its group, if that is released. */
  lemma {:induction false} ReleasesTell(
    env: Env, now: Time, items: seq<Item>, keys: seq<GroupKey>, k: GroupKey, c: Channel, start: bool)
    requires NoRepeats(keys) && forall x :: x in items ==> Coherent(x.row)
    ensures Told(Releases(env, now, items, keys), k, c, start) ==
      if k in keys && GroupRelease(env, now, items, k) != [] && c in env.Targets(k.user, k.rule)
      then GroupRelease(env, now, items, k)[0].msg.kind.Fired? else start
  {
    if keys != [] {
      var q, before := Last(keys), Releases(env, now, items, Front(keys));
      ReleasesTell(env, now, items, Front(keys), k, c, start);
      assert k in keys <==> k in Front(keys) || k == q;
      assert q !in Front(keys);
      GroupReleaseTells(env, now, items, q, k, c);
      var release := GroupRelease(env, now, items, q);
      if release == [] {
        assert before + release == before;
      } else {
        assert before + release == before + [release[0]];
        OneMore(before, release[0], k, c, start);
      }
    }
  }

  lemma {:induction false} ReleasesDeferNothing(env: Env, now: Time, items: seq<Item>, keys: seq<GroupKey>, k: GroupKey)
    ensures Deferred(Releases(env, now, items, keys), k) == []
  {
    if keys != [] {
      var before, release := Releases(env, now, items, Front(keys)), GroupRelease(env, now, items, Last(keys));
      ReleasesDeferNothing(env, now, items, Front(keys), k);
      if release == [] {
        assert before + release == before;
      } else {
        assert before + release == before + [release[0]];
        OneMore(before, release[0], k, Channel("", ""), false);
      }
    }
  }

  /** The group's members are the tracked rows. */
  lemma {:induction false} TrackedGroup(
    items: seq<Item>, rows: map<Id, PendingRow>, k: GroupKey, kinds: seq<Kind>, ids: seq<Id>)
    requires Listing(items, rows) && Tracks(rows, k, kinds, ids)
    ensures k in GroupKeys(items) <==> Members(items, k) != []
    ensures forall j :: 0 <= j < |ids| ==> Item(ids[j], rows[ids[j]]) in Members(items, k)
    ensures forall x :: x in Members(items, k) ==> x.id in ids && x.id in rows && x.row == rows[x.id]
  {
    MembersAre(items, k);
    forall x | x in Members(items, k)
      ensures x.id in ids && x.id in rows && x.row == rows[x.id]
    {
      var i :| 0 <= i < |items| && items[i] == x;
    }
  }

  lemma BothTracked(group: seq<Item>, x: Item, y: Item)
    requires x in group && y in group && x.row.kind != y.row.kind
    ensures Collapses(group)
  {
    var i :| 0 <= i < |group| && group[i] == x;
    var j :| 0 <= j < |group| && group[j] == y;
  }

  // ----------------------------------------------------- the pair, as a machine

  // The changes of the pair's true state are numbered from 0. start says which parity is
  // which: after n changes the pair is firing if n is even and start holds, or neither.

  predicate Holds(start: bool, n: nat) {
    (n % 2 == 0) == start
  }

  function KindAt(start: bool, i: nat): Kind {
    if Holds(start, i + 1) then Fired else Resolved
  }

  function KindsAt(start: bool, waiting: seq<nat>): seq<Kind> {
    seq(|waiting|, i requires 0 <= i < |waiting| => KindAt(start, waiting[i]))
  }

  /** The live instance; how many changes there were; up to and including which one the
      channel is told (told counts it too); and the numbers of those whose rows wait. */
  datatype Pair = Pair(inst: Option<Instance>, changes: nat, told: nat, waiting: seq<nat>)

  /** What the evaluator made of a rule, the world its transitions were sent into, and
      whether the insert of the pair's row, if there was one, was refused. */
  datatype Turn = Turn(event: H.Event, env: Env, at: Time, lost: bool)

  /** A tick (or a disabling of the rule), or a flush, perhaps with a tick that is emitted
      between its list and its delete, each of which may fail. */
  datatype Beat =
    | Ticks(turn: Turn)
    | Flushes(env: Env, now: Time, during: Option<Turn>, listed: bool, deleted: bool)

  /** What becomes of a change found in a turn. */
  function HeardIn(r: Rule, k: GroupKey, c: Channel, turn: Turn): Heard {
    var how := HowHeard(turn.env, r, k, c, turn.at);
    if !turn.event.Evaluated? || (how.Waits? && turn.lost) then Never else how
  }

  function TurnStep(r: Rule, k: GroupKey, c: Channel, p: Pair, turn: Turn): (p': Pair)
    ensures p.waiting <= p'.waiting
  {
    var inst := H.Next(r, turn.event, k.system, p.inst);
    if IsFiring(inst) == IsFiring(p.inst) then p.(inst := inst)
    else
      var p' := p.(inst := inst, changes := p.changes + 1);
      match HeardIn(r, k, c, turn)
      case Never => p'
      case Waits => p'.(waiting := p.waiting + [p.changes])
      case AtOnce => p'.(told := p.changes + 1)
  }

  /** Changes of both kinds. */
  ghost predicate Mixed(waiting: seq<nat>) {
    exists i, j :: 0 <= i < j < |waiting| && waiting[i] % 2 != waiting[j] % 2
  }

  function During(r: Rule, k: GroupKey, c: Channel, p: Pair, during: Option<Turn>): Pair {
    if during.Some? then TurnStep(r, k, c, p, during.value) else p
  }

  /** The flush gets to the rows waiting for the pair. */
  predicate Attends(k: GroupKey, p: Pair, b: Beat)
    requires b.Flushes?
  {
    p.waiting != [] && b.listed && !b.env.QuietFor(k.user, b.now)
  }

  /** Of these waiting rows the last is released, and to the channel. */
  ghost predicate ReleasesLast(k: GroupKey, c: Channel, waiting: seq<nat>, env: Env, now: Time) {
    waiting != [] && !env.QuietFor(k.user, now) && !Mixed(waiting) && c in env.Targets(k.user, k.rule)
  }

  ghost predicate Tells(k: GroupKey, c: Channel, p: Pair, b: Beat)
    requires b.Flushes?
  {
    b.listed && ReleasesLast(k, c, p.waiting, b.env, b.now)
  }

  /** The rows that waited when the flush listed them go, unless the owner is still quiet or
      a statement fails; the channel is told of the last of them, unless they are mixed. */
  ghost function FlushStep(r: Rule, k: GroupKey, c: Channel, p: Pair, b: Beat): Pair
    requires b.Flushes?
  {
    var p' := During(r, k, c, p, b.during);
    p'.(told := if Tells(k, c, p, b) then Last(p.waiting) + 1 else p'.told,
        waiting := if Attends(k, p, b) && b.deleted then p'.waiting[|p.waiting|..] else p'.waiting)
  }

  ghost function BeatStep(r: Rule, k: GroupKey, c: Channel, p: Pair, b: Beat): Pair {
    match b
    case Ticks(turn) => TurnStep(r, k, c, p, turn)
    case Flushes(_, _, _, _, _) => FlushStep(r, k, c, p, b)
  }

  ghost function AfterBeats(r: Rule, k: GroupKey, c: Channel, p: Pair, beats: seq<Beat>): Pair {
    if beats == [] then p else BeatStep(r, k, c, AfterBeats(r, k, c, p, Front(beats)), Last(beats))
  }

  /** How many rows a beat adds. */
  function Deferrals(r: Rule, k: GroupKey, c: Channel, p: Pair, b: Beat): nat {
    match b
    case Ticks(turn) => |TurnStep(r, k, c, p, turn).waiting| - |p.waiting|
    case Flushes(_, _, during, _, _) => |During(r, k, c, p, during).waiting| - |p.waiting|
  }

  ghost function AllDeferrals(r: Rule, k: GroupKey, c: Channel, p: Pair, beats: seq<Beat>): nat {
    if beats == [] then 0
    else
      AllDeferrals(r, k, c, p, Front(beats)) + Deferrals(r, k, c, AfterBeats(r, k, c, p, Front(beats)), Last(beats))
  }

  // ------------------------------------------------- the system is such a machine

  /** What happens to the system: the evaluator's step and the world at the time of its
      notifications; or a flush, whose two statements may fail. */
  datatype Move = Move(step: H.Step, env: Env, at: Time)
  datatype Step =
    | Evaluate(move: Move)
    | Flush(env: Env, now: Time, during: Option<Move>, listed: bool, deleted: bool)

  /** The rule is never edited, user ids are not empty, and nobody is named twice. */
  ghost predicate Proper(m: Move, r: Rule, k: GroupKey) {
    H.Undisturbed(m.step, r) && m.env.Sane() && NamedOnce(m.env, r, k)
  }

  ghost predicate ProperStep(s: Step, r: Rule, k: GroupKey) {
    match s
    case Evaluate(m) => Proper(m, r, k)
    case Flush(env, _, during, _, _) => env.Sane() && (during.Some? ==> Proper(during.value, r, k))
  }

  ghost predicate Recorded(turn: Turn, m: Move, r: Rule) {
    H.Records(turn.event, m.step, r) && turn.env == m.env && turn.at == m.at
  }

  ghost predicate RecordedStep(b: Beat, s: Step, r: Rule) {
    match s
    case Evaluate(m) => b.Ticks? && Recorded(b.turn, m, r)
    case Flush(env, now, during, listed, deleted) =>
      && b.Flushes? && b.env == env && b.now == now && b.listed == listed && b.deleted == deleted
      && b.during.Some? == during.Some? && (during.Some? ==> Recorded(b.during.value, during.value, r))
  }

  /** Store, table and log are as the machine says, belief being what the channel held
      before this log. */
  ghost predicate Agrees(
    rows: map<Id, Instance>, pending: map<Id, PendingRow>, log: seq<Action>, k: GroupKey, c: Channel,
    start: bool, belief: bool, p: Pair, ids: seq<Id>)
  {
    && Get(rows, k.system) == p.inst && IsFiring(p.inst) == Holds(start, p.changes)
    && Told(log, k, c, belief) == Holds(start, p.told)
    && Tracks(pending, k, KindsAt(start, p.waiting), ids)
  }

  /** What a turn emits about the pair is at most its one change. */
  lemma TurnAbout(
    r: Rule, k: GroupKey, p: Pair, e: H.Event, before: map<Id, Instance>, after: map<Id, Instance>,
    emitted: seq<Transition>)
    requires H.Follows(e, r, before, after, emitted) && r.id == k.rule && Get(before, k.system) == p.inst
    ensures var about := About(emitted, k.rule, k.system); var inst := H.Next(r, e, k.system, p.inst);
      && Get(after, k.system) == inst && |about| <= 1
      && (about != [] <==> e.Evaluated? && IsFiring(inst) != IsFiring(p.inst))
      && (about != [] ==> about[0].kind == if IsFiring(inst) then Fired else Resolved)
  {
    H.ChangeAt(r, e, before, k.system);
  }

  /** What the log gains from a batch; without a list of channels a batch is dropped. */
  function Sent(env: Env, emitted: seq<Transition>, at: Time): seq<Action> {
    if env.enabled.Some? then Decisions(env, emitted, at) else []
  }

  /** The newest change of p is told, or left waiting, or neither. */
  ghost predicate Leaves(
    done: seq<Action>, k: GroupKey, c: Channel, start: bool, p: Pair, tells: bool, waits: bool)
  {
    && Told(done, k, c, Holds(start, p.told)) == Holds(start, if tells then p.changes + 1 else p.told)
    && Deferred(done, k) == if waits then [KindAt(start, p.changes)] else []
  }

  lemma SentLeaves(
    sent: seq<Action>, about: seq<Transition>, k: GroupKey, c: Channel, start: bool, p: Pair, tells: bool, waits: bool)
    requires tells || waits ==> about != [] && about[0].kind == KindAt(start, p.changes)
    requires Told(sent, k, c, Holds(start, p.told)) ==
      if tells then about[0].kind.Fired? else Holds(start, p.told)
    requires Deferred(sent, k) == if waits then [about[0].kind] else []
    ensures Leaves(sent, k, c, start, p, tells, waits)
  {
  }

  /** A batch about the pair: nothing, or its newest change. */
  lemma BatchTells(
    env: Env, emitted: seq<Transition>, at: Time, r: Rule, k: GroupKey, c: Channel, start: bool, p: Pair,
    about: seq<Transition>, tells: bool, waits: bool)
    requires NamedOnce(env, r, k) && forall t :: t in emitted && Matches(t, k) ==> t.rule == r
    requires about == About(emitted, k.rule, k.system) && |about| <= 1
    requires about != [] ==> about[0].kind == KindAt(start, p.changes)
    requires tells <==> about != [] && HowHeard(env, r, k, c, at).AtOnce?
    requires waits <==> about != [] && HowHeard(env, r, k, c, at).Waits?
    ensures Leaves(Sent(env, emitted, at), k, c, start, p, tells, waits)
  {
    if env.enabled.Some? {
      DecisionsFor(env, emitted, at, r, k, c, Holds(start, p.told));
    }
    SentLeaves(Sent(env, emitted, at), about, k, c, start, p, tells, waits);
  }

  lemma WaitingOneMore(start: bool, waiting: seq<nat>, n: nat)
    ensures KindsAt(start, waiting + [n]) == KindsAt(start, waiting) + [KindAt(start, n)]
    ensures KindsAt(start, waiting) + [] == KindsAt(start, waiting)
  {
  }

  /** A turn, field by field. */
  lemma TurnStepIs(r: Rule, k: GroupKey, c: Channel, p: Pair, turn: Turn)
    ensures var p', inst := TurnStep(r, k, c, p, turn), H.Next(r, turn.event, k.system, p.inst);
      var turned := IsFiring(inst) != IsFiring(p.inst);
      var how := if turned then HeardIn(r, k, c, turn) else Never;
      && p'.inst == inst && p'.changes == (if turned then p.changes + 1 else p.changes)
      && p'.told == (if how.AtOnce? then p.changes + 1 else p.told)
      && p'.waiting == if how.Waits? then p.waiting + [p.changes] else p.waiting
  {
  }

  /** What was recorded in a turn takes the channel's belief and the rows from p to p'. */
  ghost predicate TurnDone(k: GroupKey, c: Channel, start: bool, p: Pair, p': Pair, done: seq<Action>) {
    && Told(done, k, c, Holds(start, p.told)) == Holds(start, p'.told)
    && KindsAt(start, p'.waiting) == KindsAt(start, p.waiting) + Deferred(done, k)
  }

  /** Of a batch's decisions, what is recorded; the row that was to wait may be lost. */
  lemma LogLeaves(
    sent: seq<Action>, k: GroupKey, c: Channel, start: bool, p: Pair, tells: bool, waits: bool, refused: set<nat>,
    n: nat)
    returns (done: seq<Action>, lost: bool)
    requires Leaves(sent, k, c, start, p, tells, waits)
    ensures done == LoggedUnless(refused, n, sent) && (refused == {} ==> !lost)
    ensures Leaves(done, k, c, start, p, tells, waits && !lost)
  {
    done := LoggedUnless(refused, n, sent);
    lost := |Deferred(done, k)| < |Deferred(sent, k)|;
    LoggedTells(refused, n, sent, k, c, Holds(start, p.told));
    if refused == {} {
      AllLogged(n, sent);
    }
  }

  lemma TurnLeaves(r: Rule, k: GroupKey, c: Channel, start: bool, p: Pair, turn: Turn, done: seq<Action>)
    requires var turned := IsFiring(H.Next(r, turn.event, k.system, p.inst)) != IsFiring(p.inst);
      var how := HeardIn(r, k, c, turn);
      Leaves(done, k, c, start, p, turned && how.AtOnce?, turned && how.Waits?)
    ensures TurnDone(k, c, start, p, TurnStep(r, k, c, p, turn), done)
  {
    TurnStepIs(r, k, c, p, turn);
    WaitingOneMore(start, p.waiting, p.changes);
  }

  /** The effect of one turn's batch on the channel's belief and on the waiting rows. */
  lemma TurnTells(
    r: Rule, k: GroupKey, c: Channel, start: bool, p: Pair, e: H.Event, move: Move, before: map<Id, Instance>,
    after: map<Id, Instance>, emitted: seq<Transition>, refused: set<nat>, n: nat)
    returns (turn: Turn, done: seq<Action>)
    requires H.Follows(e, r, before, after, emitted) && r.id == k.rule
    requires NamedOnce(move.env, r, k) && forall t :: t in emitted && Matches(t, k) ==> t.rule == r
    requires Get(before, k.system) == p.inst && IsFiring(p.inst) == Holds(start, p.changes)
    ensures turn == Turn(e, move.env, move.at, turn.lost) && (refused == {} ==> !turn.lost)
    ensures done == LoggedUnless(refused, n, Sent(move.env, emitted, move.at))
    ensures var p' := TurnStep(r, k, c, p, turn);
      && Get(after, k.system) == p'.inst && IsFiring(p'.inst) == Holds(start, p'.changes)
      && TurnDone(k, c, start, p, p', done)
  {
    var about, how := About(emitted, k.rule, k.system), HowHeard(move.env, r, k, c, move.at);
    var tells, waits, lost := about != [] && how.AtOnce?, about != [] && how.Waits?, false;
    TurnAbout(r, k, p, e, before, after, emitted);
    BatchTells(move.env, emitted, move.at, r, k, c, start, p, about, tells, waits);
    done, lost := LogLeaves(Sent(move.env, emitted, move.at), k, c, start, p, tells, waits, refused, n);
    turn := Turn(e, move.env, move.at, lost);
    TurnLeaves(r, k, c, start, p, turn, done);
    TurnStands(r, k, c, start, p, turn);
  }

  /** The true state after a turn. */
  lemma TurnStands(r: Rule, k: GroupKey, c: Channel, start: bool, p: Pair, turn: Turn)
    requires IsFiring(p.inst) == Holds(start, p.changes)
    ensures var p', inst := TurnStep(r, k, c, p, turn), H.Next(r, turn.event, k.system, p.inst);
      p'.inst == inst && IsFiring(inst) == Holds(start, p'.changes)
  {
  }

  // ------------------------------------------------------------ one flush of the pair

  ghost predicate KindOfOne(start: bool, waiting: seq<nat>, kind: Kind) {
    exists j :: 0 <= j < |waiting| && KindAt(start, waiting[j]) == kind
  }

  /** Every member of the group carries the kind of one of the changes. */
  lemma WaitingKinds(
    group: seq<Item>, rows: map<Id, PendingRow>, k: GroupKey, start: bool, waiting: seq<nat>, ids: seq<Id>)
    requires Tracks(rows, k, KindsAt(start, waiting), ids)
    requires forall x :: x in group ==> x.id in ids && x.id in rows && x.row == rows[x.id]
    ensures forall x :: x in group ==> KindOfOne(start, waiting, x.row.kind)
  {
    forall x | x in group
      ensures KindOfOne(start, waiting, x.row.kind)
    {
      var j :| 0 <= j < |ids| && ids[j] == x.id;
      assert x.row.kind == KindsAt(start, waiting)[j];
    }
  }

  /** Changes that are not mixed are all of the kind of the last. */
  lemma Unmixed(start: bool, waiting: seq<nat>)
    requires waiting != [] && !Mixed(waiting)
    ensures forall j :: 0 <= j < |waiting| ==> KindAt(start, waiting[j]) == KindAt(start, Last(waiting))
  {
  }

  lemma UnmixedGroup(group: seq<Item>, start: bool, waiting: seq<nat>)
    requires group != [] && waiting != [] && !Mixed(waiting)
    requires forall x :: x in group ==> KindOfOne(start, waiting, x.row.kind)
    ensures !Collapses(group) && Last(group).row.kind == KindAt(start, Last(waiting))
  {
    Unmixed(start, waiting);
    assert forall i :: 0 <= i < |group| ==> group[i] in group && group[i].row.kind == KindAt(start, Last(waiting));
  }

  /** A group of rows with these changes is dropped iff they are mixed, and otherwise tells
      the kind of the last. */
  lemma WaitingGroup(
    items: seq<Item>, rows: map<Id, PendingRow>, k: GroupKey, start: bool, waiting: seq<nat>, ids: seq<Id>)
    requires Listing(items, rows) && Tracks(rows, k, KindsAt(start, waiting), ids)
    ensures k in GroupKeys(items) <==> waiting != []
    ensures Members(items, k) != [] <==> waiting != []
    ensures Collapses(Members(items, k)) <==> Mixed(waiting)
    ensures waiting != [] && !Mixed(waiting) ==> Last(Members(items, k)).row.kind == KindAt(start, Last(waiting))
  {
    var group := Members(items, k);
    TrackedGroup(items, rows, k, KindsAt(start, waiting), ids);
    WaitingKinds(group, rows, k, start, waiting, ids);
    if waiting == [] {
      assert group != [] ==> Last(group) in group;
    } else {
      assert Item(ids[0], rows[ids[0]]) in group;
      if Mixed(waiting) {
        var i, j :| 0 <= i < j < |waiting| && waiting[i] % 2 != waiting[j] % 2;
        MixedRows(rows, k, start, waiting, ids, i, j);
        BothTracked(group, Item(ids[i], rows[ids[i]]), Item(ids[j], rows[ids[j]]));
      } else {
        UnmixedGroup(group, start, waiting);
      }
    }
  }

  lemma MixedRows(
    rows: map<Id, PendingRow>, k: GroupKey, start: bool, waiting: seq<nat>, ids: seq<Id>, i: nat, j: nat)
    requires Tracks(rows, k, KindsAt(start, waiting), ids)
    requires i < |waiting| && j < |waiting| && waiting[i] % 2 != waiting[j] % 2
    ensures ids[i] in rows && ids[j] in rows && rows[ids[i]].kind != rows[ids[j]].kind
  {
    assert KindsAt(start, waiting)[i] != KindsAt(start, waiting)[j];
  }

  /** What a flush tells the channel of the pair. */
  lemma FlushTells(
    env: Env, now: Time, items: seq<Item>, rows: map<Id, PendingRow>, k: GroupKey, c: Channel, start: bool,
    waiting: seq<nat>, ids: seq<Id>, belief: bool)
    requires Listing(items, rows) && Tracks(rows, k, KindsAt(start, waiting), ids)
    requires forall id :: id in rows ==> Coherent(rows[id])
    ensures Told(Releases(env, now, items, GroupKeys(items)), k, c, belief) ==
      if ReleasesLast(k, c, waiting, env, now) then Holds(start, Last(waiting) + 1) else belief
  {
    WaitingGroup(items, rows, k, start, waiting, ids);
    MembersAre(items, k);
    ReleasesTell(env, now, items, GroupKeys(items), k, c, belief);
    GroupReleaseTells(env, now, items, k, k, c);
  }

  /** What the delete leaves of the rows that waited: none, unless the owner is quiet. */
  lemma FlushLeaves(
    env: Env, now: Time, items: seq<Item>, rows: map<Id, PendingRow>, k: GroupKey, kinds: seq<Kind>, ids: seq<Id>)
    requires Listing(items, rows) && Tracks(rows, k, kinds, ids)
    ensures var left := rows - Processed(env, now, items, GroupKeys(items));
      if env.QuietFor(k.user, now) then Tracks(left, k, kinds, ids) else Tracks(left, k, [], [])
  {
    var gone := Processed(env, now, items, GroupKeys(items));
    forall id | id in rows && KeyOf(Item(id, rows[id])) == k
      ensures id in gone <==> !env.QuietFor(k.user, now)
    {
      var i :| 0 <= i < |items| && items[i] == Item(id, rows[id]);
      ProcessedUnlessKept(env, now, items, rows, i);
    }
  }

  /** Deleting old rows and storing new ones do not disturb each other. */
  lemma {:induction false} StoredMinus(
    d: Dispatcher, rows: map<Id, PendingRow>, n: nat, actions: seq<Action>, gone: set<Id>)
    requires forall i: nat, j: nat :: d.newId(i) == d.newId(j) ==> i == j
    requires IssuedBefore(d, rows, n) && gone <= rows.Keys
    ensures d.Stored(rows, n, actions) - gone == d.Stored(rows - gone, n, actions)
  {
    if actions != [] {
      StoredMinus(d, rows, n, Front(actions), gone);
      var m := n + Delivery.Defers(Front(actions));
      assert d.newId(m) !in rows;
    }
  }

  // ------------------------------------------------------------------- whole runs

  /** Whose view of what a run is watched: the channel c, of the owner and pair k under the
      rule r; start says whether it was firing after an even number of changes. */
  datatype Watch = Watch(r: Rule, k: GroupKey, c: Channel, start: bool)

  /** Store, table and what was recorded meanwhile have gone from the machine p to p'. */
  ghost predicate Moved(
    w: Watch, rows: map<Id, Instance>, pending: map<Id, PendingRow>, done: seq<Action>, p: Pair, p': Pair, ids: seq<Id>)
  {
    Agrees(rows, pending, done, w.k, w.c, w.start, Holds(w.start, p.told), p', ids)
  }

  /** No write was refused. */
  predicate Smooth(turn: Turn) {
    !turn.event.Interrupted? && !turn.lost
  }

  /** The evaluator's half of a move, and what d will record of it. */
  method Evaluation(store: InstanceStore, d: Dispatcher, move: Move, ghost w: Watch, ghost p: Pair)
    returns (emitted: seq<Transition>, ghost turn: Turn, ghost more: seq<Action>)
    requires Proper(move, w.r, w.k) && w.r.id == w.k.rule
    requires Get(store.Of(w.r.id), w.k.system) == p.inst && IsFiring(p.inst) == Holds(w.start, p.changes)
    modifies store
    ensures Recorded(turn, move, w.r) && (store.failing == {} && d.refused == {} ==> Smooth(turn))
    ensures more == d.Logged(d.attempts, Sent(move.env, emitted, move.at))
    ensures var p' := TurnStep(w.r, w.k, w.c, p, turn);
      && Get(store.Of(w.r.id), w.k.system) == p'.inst && IsFiring(p'.inst) == Holds(w.start, p'.changes)
      && TurnDone(w.k, w.c, w.start, p, p', more)
  {
    ghost var before := store.Of(w.r.id);
    ghost var e;
    emitted, e := H.Take(store, move.step, w.r);
    turn, more :=
      TurnTells(w.r, w.k, w.c, w.start, p, e, move, before, store.Of(w.r.id), emitted, d.refused, d.attempts);
  }

  /** The dispatcher's half. */
  method Notify(
      d: Dispatcher, env: Env, emitted: seq<Transition>, at: Time, ghost k: GroupKey, ghost kinds: seq<Kind>,
      ghost ids: seq<Id>)
    returns (ghost ids': seq<Id>)
    requires d.Valid() && env.Sane() && Tracks(d.pending, k, kinds, ids)
    modifies d
    ensures d.Valid() && d.log == old(d.log) + d.Logged(old(d.attempts), Sent(env, emitted, at))
    ensures Tracks(d.pending, k, kinds + Deferred(d.Logged(old(d.attempts), Sent(env, emitted, at)), k), ids')
  {
    ids' := StoredTracks(d, d.pending, d.attempts, Sent(env, emitted, at), k, kinds, ids);
    if emitted != [] {
      d.Emit(env, emitted, at);
    }
  }

  /** A tick, or a disabling, and its notifications. */
  method MakeMove(
      store: InstanceStore, d: Dispatcher, move: Move, ghost w: Watch, ghost p: Pair, ghost ids: seq<Id>)
    returns (ghost turn: Turn, ghost done: seq<Action>, ghost ids': seq<Id>)
    requires d.Valid() && Proper(move, w.r, w.k) && w.r.id == w.k.rule
    requires Moved(w, store.Of(w.r.id), d.pending, [], p, p, ids)
    modifies store, d
    ensures d.Valid() && Recorded(turn, move, w.r) && (store.failing == {} && d.refused == {} ==> Smooth(turn))
    ensures d.log == old(d.log) + done
    ensures Moved(w, store.Of(w.r.id), d.pending, done, p, TurnStep(w.r, w.k, w.c, p, turn), ids')
    ensures |Deferred(done, w.k)| == Deferrals(w.r, w.k, w.c, p, Ticks(turn))
  {
    var emitted;
    emitted, turn, done := Evaluation(store, d, move, w, p);
    ids' := Notify(d, move.env, emitted, move.at, w.k, KindsAt(w.start, p.waiting), ids);
  }

  lemma FlushStepTold(r: Rule, k: GroupKey, c: Channel, p: Pair, b: Beat)
    requires b.Flushes?
    ensures FlushStep(r, k, c, p, b).told ==
      if Tells(k, c, p, b) then Last(p.waiting) + 1 else During(r, k, c, p, b.during).told
  {
  }

  /** The rows the flush deletes, the rows listed being items. */
  ghost function Gone(b: Beat, items: seq<Item>): set<Id>
    requires b.Flushes?
  {
    if b.listed && b.deleted then Processed(b.env, b.now, items, GroupKeys(items)) else {}
  }

  /** What a flush does to the belief of a channel that was told of before changes by then,
      and is told of after changes now. */
  lemma ListedFlush(
    env: Env, now: Time, items: seq<Item>, rows: map<Id, PendingRow>, k: GroupKey, c: Channel, start: bool,
    waiting: seq<nat>, ids: seq<Id>, before: nat, after: nat)
    requires Listing(items, rows) && Tracks(rows, k, KindsAt(start, waiting), ids)
    requires forall id :: id in rows ==> Coherent(rows[id])
    requires after == if ReleasesLast(k, c, waiting, env, now) then Last(waiting) + 1 else before
    ensures Told(Releases(env, now, items, GroupKeys(items)), k, c, Holds(start, before)) == Holds(start, after)
    ensures Deferred(Releases(env, now, items, GroupKeys(items)), k) == []
  {
    FlushTells(env, now, items, rows, k, c, start, waiting, ids, Holds(start, before));
    ReleasesDeferNothing(env, now, items, GroupKeys(items), k);
  }

  /** The belief after a flush, from what the turn inside it and its releases tell. */
  lemma FlushBelief(
    k: GroupKey, c: Channel, start: bool, p: Pair, p': Pair, told: nat, more: seq<Action>, released: seq<Action>)
    requires TurnDone(k, c, start, p, p', more)
    requires Told(released, k, c, Holds(start, p'.told)) == Holds(start, told) && Deferred(released, k) == []
    ensures Told(more + released, k, c, Holds(start, p.told)) == Holds(start, told)
    ensures |Deferred(more + released, k)| == |p'.waiting| - |p.waiting|
  {
    ToldConcat(more, released, k, c, Holds(start, p.told));
  }

  lemma WaitingRest(start: bool, first: seq<nat>, all: seq<nat>, more: seq<Kind>)
    requires first <= all && KindsAt(start, all) == KindsAt(start, first) + more
    ensures KindsAt(start, all[|first|..]) == more && (first == [] ==> all[|first|..] == all)
  {
    var kinds := KindsAt(start, all);
    assert forall i :: 0 <= i < |more| ==> more[i] == kinds[|first| + i];
  }

  lemma FlushStepWaiting(r: Rule, k: GroupKey, c: Channel, p: Pair, b: Beat)
    requires b.Flushes?
    ensures var before := During(r, k, c, p, b.during).waiting;
      FlushStep(r, k, c, p, b).waiting ==
        if b.listed && b.deleted && !b.env.QuietFor(k.user, b.now) then before[|p.waiting|..] else before
  {
    assert p.waiting == [] ==>
      During(r, k, c, p, b.during).waiting[|p.waiting|..] == During(r, k, c, p, b.during).waiting;
  }

  /** What is left of the old rows. */
  lemma RowsLeft(
    k: GroupKey, kinds: seq<Kind>, ids: seq<Id>, b: Beat, pending: map<Id, PendingRow>, items: seq<Item>)
    requires b.Flushes? && Listing(items, pending) && Tracks(pending, k, kinds, ids)
    ensures Gone(b, items) <= pending.Keys
    ensures if b.listed && b.deleted && !b.env.QuietFor(k.user, b.now) then Tracks(pending - Gone(b, items), k, [], [])
            else Tracks(pending - Gone(b, items), k, kinds, ids)
  {
    if b.listed && b.deleted {
      ProcessedAreRows(b.env, b.now, items, pending, GroupKeys(items));
      FlushLeaves(b.env, b.now, items, pending, k, kinds, ids);
    } else {
      assert pending - Gone(b, items) == pending;
    }
  }

  lemma IssuedStill(d: Dispatcher, rows: map<Id, PendingRow>, gone: set<Id>, n: nat)
    requires IssuedBefore(d, rows, n)
    ensures IssuedBefore(d, rows - gone, n)
  {
  }

  /** The rows after a flush: the new ones, and the old ones if they were not deleted. */
  lemma FlushRows(
    r: Rule, k: GroupKey, c: Channel, start: bool, p: Pair, ids: seq<Id>, d: Dispatcher, b: Beat,
    pending: map<Id, PendingRow>, n: nat, items: seq<Item>, sent: seq<Action>)
    returns (ids': seq<Id>)
    requires b.Flushes? && forall i: nat, j: nat :: d.newId(i) == d.newId(j) ==> i == j
    requires IssuedBefore(d, pending, n) && Listing(items, pending)
    requires Tracks(pending, k, KindsAt(start, p.waiting), ids)
    requires KindsAt(start, During(r, k, c, p, b.during).waiting) ==
      KindsAt(start, p.waiting) + Deferred(d.Logged(n, sent), k)
    ensures Tracks(d.Stored(pending, n, sent) - Gone(b, items), k,
                   KindsAt(start, FlushStep(r, k, c, p, b).waiting), ids')
  {
    var gone, more := Gone(b, items), Deferred(d.Logged(n, sent), k);
    RowsLeft(k, KindsAt(start, p.waiting), ids, b, pending, items);
    StoredMinus(d, pending, n, sent, gone);
    IssuedStill(d, pending, gone, n);
    FlushStepWaiting(r, k, c, p, b);
    if b.listed && b.deleted && !b.env.QuietFor(k.user, b.now) {
      ids' := StoredTracks(d, pending - gone, n, sent, k, [], []);
      Regroup([], [], more);
      WaitingRest(start, p.waiting, During(r, k, c, p, b.during).waiting, more);
    } else {
      ids' := StoredTracks(d, pending - gone, n, sent, k, KindsAt(start, p.waiting), ids);
    }
  }

  /** A flush of the pair, from the table it found. */
  lemma FlushIs(
    d: Dispatcher, b: Beat, pending: map<Id, PendingRow>, n: nat, items: seq<Item>, sent: seq<Action>,
    more: seq<Action>, w: Watch, p: Pair, ids: seq<Id>)
    returns (released: seq<Action>, ids': seq<Id>)
    requires b.Flushes? && Listing(items, pending) && forall id :: id in pending ==> Coherent(pending[id])
    requires IssuedBefore(d, pending, n) && forall i: nat, j: nat :: d.newId(i) == d.newId(j) ==> i == j
    requires Tracks(pending, w.k, KindsAt(w.start, p.waiting), ids)
    requires more == d.Logged(n, sent) && TurnDone(w.k, w.c, w.start, p, During(w.r, w.k, w.c, p, b.during), more)
    ensures released == if b.listed then Releases(b.env, b.now, items, GroupKeys(items)) else []
    ensures Told(more + released, w.k, w.c, Holds(w.start, p.told)) ==
      Holds(w.start, FlushStep(w.r, w.k, w.c, p, b).told)
    ensures |Deferred(more + released, w.k)| == Deferrals(w.r, w.k, w.c, p, b)
    ensures Tracks(d.Stored(pending, n, sent) - Gone(b, items), w.k,
                   KindsAt(w.start, FlushStep(w.r, w.k, w.c, p, b).waiting), ids')
  {
    var p', told := During(w.r, w.k, w.c, p, b.during), FlushStep(w.r, w.k, w.c, p, b).told;
    released := [];
    FlushStepTold(w.r, w.k, w.c, p, b);
    if b.listed {
      released := Releases(b.env, b.now, items, GroupKeys(items));
      ListedFlush(b.env, b.now, items, pending, w.k, w.c, w.start, p.waiting, ids, p'.told, told);
    }
    FlushBelief(w.k, w.c, w.start, p, p', told, more, released);
    ids' := FlushRows(w.r, w.k, w.c, w.start, p, ids, d, b, pending, n, items, sent);
  }

  /** Table and record are as after the machine's flush step. */
  ghost predicate Released(
    w: Watch, pending: map<Id, PendingRow>, done: seq<Action>, p: Pair, b: Beat, ids: seq<Id>)
    requires b.Flushes?
  {
    var p' := FlushStep(w.r, w.k, w.c, p, b);
    && Told(done, w.k, w.c, Holds(w.start, p.told)) == Holds(w.start, p'.told)
    && Tracks(pending, w.k, KindsAt(w.start, p'.waiting), ids)
  }

  /** And so is the store, which a flush leaves alone. */
  lemma ReleasedMoves(
    w: Watch, rows: map<Id, Instance>, pending: map<Id, PendingRow>, done: seq<Action>, p: Pair, b: Beat, ids: seq<Id>)
    requires b.Flushes? && Released(w, pending, done, p, b, ids)
    requires var p' := During(w.r, w.k, w.c, p, b.during);
      Get(rows, w.k.system) == p'.inst && IsFiring(p'.inst) == Holds(w.start, p'.changes)
    ensures Moved(w, rows, pending, done, p, FlushStep(w.r, w.k, w.c, p, b), ids)
  {
    FlushStepInst(w.r, w.k, w.c, p, b);
  }

  /** The flush itself, the turn inside it having been evaluated; more is what is recorded of
      its batch. */
  method Release(
      d: Dispatcher, step: Step, world: Env, emitted: seq<Transition>, at: Time, ghost b: Beat,
      ghost more: seq<Action>, ghost w: Watch, ghost p: Pair, ghost ids: seq<Id>)
    returns (ghost done: seq<Action>, ghost ids': seq<Id>)
    requires d.Valid() && world.Sane() && Tracks(d.pending, w.k, KindsAt(w.start, p.waiting), ids)
    requires step.Flush? && b.Flushes? && b == Flushes(step.env, step.now, b.during, step.listed, step.deleted)
    requires more == d.Logged(d.attempts, Sent(world, emitted, at))
    requires TurnDone(w.k, w.c, w.start, p, During(w.r, w.k, w.c, p, b.during), more)
    modifies d
    ensures d.Valid() && d.log == old(d.log) + done
    ensures Released(w, d.pending, done, p, b, ids') && |Deferred(done, w.k)| == Deferrals(w.r, w.k, w.c, p, b)
  {
    var Flush(env, now, _, listed, deleted) := step;
    ghost var pending, n, released := d.pending, d.attempts, [];
    ghost var items := FlushPending(d, env, now, listed, deleted, world, emitted, at);
    released, ids' := FlushIs(d, b, pending, n, items, Sent(world, emitted, at), more, w, p, ids);
    NothingGone(d.Stored(pending, n, Sent(world, emitted, at)));
    done := more + released;
    Regroup(old(d.log), more, released);
  }

  lemma NothingGone<T>(rows: map<Id, T>)
    ensures rows - {} == rows
  {
  }

  /** A flush, with or without a move whose batch is emitted between its list and its delete. */
  method MakeFlush(
      store: InstanceStore, d: Dispatcher, step: Step, ghost w: Watch, ghost p: Pair, ghost ids: seq<Id>)
    returns (ghost b: Beat, ghost done: seq<Action>, ghost ids': seq<Id>)
    requires step.Flush? && d.Valid() && ProperStep(step, w.r, w.k) && w.r.id == w.k.rule
    requires Moved(w, store.Of(w.r.id), d.pending, [], p, p, ids)
    modifies store, d
    ensures d.Valid() && b.Flushes? && RecordedStep(b, step, w.r)
    ensures store.failing == {} && d.refused == {} && b.during.Some? ==> Smooth(b.during.value)
    ensures d.log == old(d.log) + done
    ensures Moved(w, store.Of(w.r.id), d.pending, done, p, FlushStep(w.r, w.k, w.c, p, b), ids')
    ensures |Deferred(done, w.k)| == Deferrals(w.r, w.k, w.c, p, b)
  {
    var Flush(env, now, during, listed, deleted) := step;
    if during.None? {
      b := Flushes(env, now, None, listed, deleted);
      Regroup(KindsAt(w.start, p.waiting), [], []);
      done, ids' := Release(d, step, env, [], now, b, [], w, p, ids);
    } else {
      var move := during.value;
      var emitted;
      ghost var turn, more;
      emitted, turn, more := Evaluation(store, d, move, w, p);
      b := Flushes(env, now, Some(turn), listed, deleted);
      done, ids' := Release(d, step, move.env, emitted, move.at, b, more, w, p, ids);
    }
    ReleasedMoves(w, store.Of(w.r.id), d.pending, done, p, b, ids');
  }

  lemma FlushStepInst(r: Rule, k: GroupKey, c: Channel, p: Pair, b: Beat)
    requires b.Flushes?
    ensures var p', before := FlushStep(r, k, c, p, b), During(r, k, c, p, b.during);
      p'.inst == before.inst && p'.changes == before.changes
  {
  }

  /** One stretch of a run after another. */
  lemma MovedThen(
    w: Watch, rows: map<Id, Instance>, pending: map<Id, PendingRow>, done: seq<Action>, more: seq<Action>, p0: Pair,
    p: Pair, p': Pair, ids: seq<Id>)
    requires Told(done, w.k, w.c, Holds(w.start, p0.told)) == Holds(w.start, p.told)
    requires Moved(w, rows, pending, more, p, p', ids)
    ensures Moved(w, rows, pending, done + more, p0, p', ids)
    ensures |Deferred(done + more, w.k)| == |Deferred(done, w.k)| + |Deferred(more, w.k)|
  {
    ToldConcat(done, more, w.k, w.c, Holds(w.start, p0.told));
  }

  /** What the machine's steps are recorded as. */
  ghost predicate RecordedRun(beats: seq<Beat>, steps: seq<Step>, r: Rule, smooth: bool) {
    && |beats| <= |steps|
    && forall i :: 0 <= i < |beats| ==> RecordedStep(beats[i], steps[i], r) && (smooth ==> Completes(beats[i]))
  }

  lemma RecordedMore(beats: seq<Beat>, steps: seq<Step>, r: Rule, smooth: bool, b: Beat)
    requires RecordedRun(beats, steps, r, smooth) && |beats| < |steps|
    requires RecordedStep(b, steps[|beats|], r) && (smooth ==> Completes(b))
    ensures RecordedRun(beats + [b], steps, r, smooth) && Front(beats + [b]) == beats
  {
    assert Front(beats + [b]) == beats;
  }

  /** Every run: ticks, disablings and flushes in any order, in and out of quiet hours, with
      any write failing anywhere. It is recorded by beats, and the machine they drive says
      what the channel believes, what is true and which rows wait. */
  method RunAll(
      store: InstanceStore, d: Dispatcher, steps: seq<Step>, ghost w: Watch, ghost p: Pair, ghost ids: seq<Id>)
    returns (ghost beats: seq<Beat>, ghost done: seq<Action>, ghost ids': seq<Id>)
    requires d.Valid() && w.r.id == w.k.rule && forall i :: 0 <= i < |steps| ==> ProperStep(steps[i], w.r, w.k)
    requires Moved(w, store.Of(w.r.id), d.pending, [], p, p, ids)
    modifies store, d
    ensures |beats| == |steps| && RecordedRun(beats, steps, w.r, store.failing == {} && d.refused == {})
    ensures d.Valid() && d.log == old(d.log) + done
    ensures Moved(w, store.Of(w.r.id), d.pending, done, p, AfterBeats(w.r, w.k, w.c, p, beats), ids')
    ensures |Deferred(done, w.k)| == AllDeferrals(w.r, w.k, w.c, p, beats)
  {
    ghost var smooth := store.failing == {} && d.refused == {};
    beats, done, ids' := [], [], ids;
    Regroup(d.log, [], []);
    for i := 0 to |steps|
      invariant d.Valid() && d.log == old(d.log) + done
      invariant |beats| == i && RecordedRun(beats, steps, w.r, smooth)
      invariant Moved(w, store.Of(w.r.id), d.pending, done, p, AfterBeats(w.r, w.k, w.c, p, beats), ids')
      invariant |Deferred(done, w.k)| == AllDeferrals(w.r, w.k, w.c, p, beats)
    {
      ghost var b, more;
      ghost var now := AfterBeats(w.r, w.k, w.c, p, beats);
      b, more, ids' := MakeStep(store, d, steps[i], w, now, ids');
      MovedThen(w, store.Of(w.r.id), d.pending, done, more, p, now, BeatStep(w.r, w.k, w.c, now, b), ids');
      Regroup(old(d.log), done, more);
      RecordedMore(beats, steps, w.r, smooth, b);
      beats, done := beats + [b], done + more;
    }
  }

  /** An even number of changes came after the one the channel was last told of. */
  predicate Informed(p: Pair) {
    (p.changes - p.told) % 2 == 0
  }

  /** Whether the channel, which had heard what p says, believes what is true. */
  ghost predicate RightlyInformed(w: Watch, rows: map<Id, Instance>, done: seq<Action>, p: Pair) {
    Told(done, w.k, w.c, Holds(w.start, p.told)) == IsFiring(Get(rows, w.k.system))
  }

  /** It does iff the change it was last told of and the newest one have the same parity. */
  lemma InformedIff(
    w: Watch, rows: map<Id, Instance>, pending: map<Id, PendingRow>, done: seq<Action>, p: Pair, p': Pair,
    ids: seq<Id>)
    requires Moved(w, rows, pending, done, p, p', ids)
    ensures RightlyInformed(w, rows, done, p) <==> Informed(p')
  {
  }

  /** At the end of every run the channel is rightly informed if and only if an even number
      of changes came after the one it was last told of. */
  method Run(
      store: InstanceStore, d: Dispatcher, steps: seq<Step>, ghost w: Watch, ghost p: Pair, ghost ids: seq<Id>)
    returns (ghost beats: seq<Beat>, ghost done: seq<Action>)
    requires d.Valid() && w.r.id == w.k.rule && forall i :: 0 <= i < |steps| ==> ProperStep(steps[i], w.r, w.k)
    requires Moved(w, store.Of(w.r.id), d.pending, [], p, p, ids)
    modifies store, d
    ensures |beats| == |steps| && RecordedRun(beats, steps, w.r, store.failing == {} && d.refused == {})
    ensures d.log == old(d.log) + done && |Deferred(done, w.k)| == AllDeferrals(w.r, w.k, w.c, p, beats)
    ensures var p' := AfterBeats(w.r, w.k, w.c, p, beats);
      && IsFiring(Get(store.Of(w.r.id), w.k.system)) == Holds(w.start, p'.changes)
      && Told(done, w.k, w.c, Holds(w.start, p.told)) == Holds(w.start, p'.told)
      && (RightlyInformed(w, store.Of(w.r.id), done, p) <==> Informed(p'))
  {
    ghost var ids';
    beats, done, ids' := RunAll(store, d, steps, w, p, ids);
    InformedIff(w, store.Of(w.r.id), d.pending, done, p, AfterBeats(w.r, w.k, w.c, p, beats), ids');
  }

  predicate Completes(b: Beat) {
    match b
    case Ticks(turn) => Smooth(turn)
    case Flushes(_, _, during, _, _) => during.Some? ==> Smooth(during.value)
  }

  method MakeStep(
      store: InstanceStore, d: Dispatcher, step: Step, ghost w: Watch, ghost p: Pair, ghost ids: seq<Id>)
    returns (ghost b: Beat, ghost done: seq<Action>, ghost ids': seq<Id>)
    requires d.Valid() && ProperStep(step, w.r, w.k) && w.r.id == w.k.rule
    requires Get(store.Of(w.r.id), w.k.system) == p.inst && IsFiring(p.inst) == Holds(w.start, p.changes)
    requires Tracks(d.pending, w.k, KindsAt(w.start, p.waiting), ids)
    modifies store, d
    ensures d.Valid() && d.log == old(d.log) + done
    ensures RecordedStep(b, step, w.r) && (store.failing == {} && d.refused == {} ==> Completes(b))
    ensures Moved(w, store.Of(w.r.id), d.pending, done, p, BeatStep(w.r, w.k, w.c, p, b), ids')
    ensures |Deferred(done, w.k)| == Deferrals(w.r, w.k, w.c, p, b)
  {
    match step
    case Evaluate(move) =>
      ghost var turn;
      turn, done, ids' := MakeMove(store, d, move, w, p, ids);
      b := Ticks(turn);
    case Flush(_, _, _, _, _) =>
      b, done, ids' := MakeFlush(store, d, step, w, p, ids);
  }
}
