/** Three runs of evaluator, dispatcher and flusher that leave a recipient wrongly informed: a
    flush that comes too late, three changes dropped together, and a delete that fails
    (internal/notifications/flusher.go). */
module QuietRuns {
  import opened Common
  import opened Alerts
  import opened Delivery
  import opened Flush
  import opened Recipient
  import H = AlertHistory
  import QuietHours

  /** One evaluated rule that fires at once, one system, one shared channel. */
  predicate Setting(env: Env, r: Rule, k: GroupKey) {
    r.id == k.rule && ForDuration(r) <= 0 && k.user == "" && env.Interested(k.system, r.severity) == []
  }

  // ------------------------------------------------------ ticks that find a change

  function BreachAt(k: GroupKey, breach: bool): map<Id, real> {
    if breach then map[k.system := 1.0] else map[]
  }

  function TickAt(env: Env, r: Rule, k: GroupKey, t: Time, breach: bool): Move {
    Move(H.Tick(Some([r]), t, _ => Breaching(BreachAt(k, breach))), env, t)
  }

  lemma TickIsProper(env: Env, r: Rule, k: GroupKey, t: Time, breach: bool)
    requires Setting(env, r, k) && env.Sane()
    ensures Proper(TickAt(env, r, k, t, breach), r, k)
  {
    assert [""] + env.Interested(k.system, r.severity) == [""];
    assert Front([""]) == [];
  }

  lemma EventIs(env: Env, r: Rule, k: GroupKey, b: Beat, t: Time, breach: bool)
    requires RecordedStep(b, Evaluate(TickAt(env, r, k, t, breach)), r) && Completes(b)
    ensures b == Ticks(Turn(H.Evaluated(t, BreachAt(k, breach)), env, t, false))
  {
    assert r in [r];
    assert H.EventOf(TickAt(env, r, k, t, breach).step, r) == H.Evaluated(t, BreachAt(k, breach));
  }

  /** The pair is absent or firing, never pending. */
  predicate Crisp(p: Pair) {
    p.inst.Some? ==> p.inst.value.state.Firing?
  }

  /** What a tick that finds a change makes of the pair. */
  ghost predicate Turned(p: Pair, p': Pair, breach: bool, how: Heard) {
    && Crisp(p') && IsFiring(p'.inst) == breach && p'.changes == p.changes + 1
    && p'.told == (if how.AtOnce? then p.changes + 1 else p.told)
    && p'.waiting == if how.Waits? then p.waiting + [p.changes] else p.waiting
  }

  lemma TickIs(env: Env, r: Rule, k: GroupKey, c: Channel, p: Pair, b: Beat, t: Time, breach: bool)
    requires RecordedStep(b, Evaluate(TickAt(env, r, k, t, breach)), r) && Completes(b)
    requires Setting(env, r, k) && Crisp(p) && breach != IsFiring(p.inst)
    ensures Turned(p, BeatStep(r, k, c, p, b), breach, HowHeard(env, r, k, c, t))
    ensures Deferrals(r, k, c, p, b) == if HowHeard(env, r, k, c, t).Waits? then 1 else 0
  {
    EventIs(env, r, k, b, t, breach);
    TurnStepIs(r, k, c, p, b.turn);
  }

  const NEW := Pair(None, 0, 0, [])

  ghost function At(r: Rule, k: GroupKey, c: Channel, beats: seq<Beat>, n: nat): Pair
    requires n <= |beats|
  {
    AfterBeats(r, k, c, NEW, beats[..n])
  }

  ghost function DeferredBy(r: Rule, k: GroupKey, c: Channel, beats: seq<Beat>, n: nat): nat
    requires n <= |beats|
  {
    AllDeferrals(r, k, c, NEW, beats[..n])
  }

  lemma OneBeat(r: Rule, k: GroupKey, c: Channel, beats: seq<Beat>, n: nat)
    requires n < |beats|
    ensures At(r, k, c, beats, n + 1) == BeatStep(r, k, c, At(r, k, c, beats, n), beats[n])
    ensures DeferredBy(r, k, c, beats, n + 1) ==
      DeferredBy(r, k, c, beats, n) + Deferrals(r, k, c, At(r, k, c, beats, n), beats[n])
  {
    PrefixGrows(beats, n);
  }

  /** The n-th step is a tick that finds a change. */
  lemma TickStep(
    env: Env, r: Rule, k: GroupKey, c: Channel, beats: seq<Beat>, steps: seq<Step>, n: nat, t: Time, breach: bool)
    requires |beats| == |steps| && RecordedRun(beats, steps, r, true) && n < |beats| && Setting(env, r, k)
    requires steps[n] == Evaluate(TickAt(env, r, k, t, breach))
    requires Crisp(At(r, k, c, beats, n)) && breach != IsFiring(At(r, k, c, beats, n).inst)
    ensures Turned(At(r, k, c, beats, n), At(r, k, c, beats, n + 1), breach, HowHeard(env, r, k, c, t))
    ensures DeferredBy(r, k, c, beats, n + 1) ==
      DeferredBy(r, k, c, beats, n) + if HowHeard(env, r, k, c, t).Waits? then 1 else 0
  {
    assert RecordedStep(beats[n], steps[n], r) && Completes(beats[n]);
    OneBeat(r, k, c, beats, n);
    TickIs(env, r, k, c, At(r, k, c, beats, n), beats[n], t, breach);
  }

  /** What a flush that reaches the channel makes of a pair with rows waiting. */
  ghost predicate Flushed(p: Pair, p': Pair)
    requires p.waiting != []
  {
    p'.changes == p.changes && p'.told == if Mixed(p.waiting) then p.told else Last(p.waiting) + 1
  }

  /** The n-th step is a flush out of quiet hours that finds rows. */
  lemma FlushAt(
    env: Env, r: Rule, k: GroupKey, c: Channel, beats: seq<Beat>, steps: seq<Step>, n: nat, t: Time)
    requires |beats| == |steps| && RecordedRun(beats, steps, r, true) && n < |beats|
    requires steps[n] == Step.Flush(env, t, None, true, true)
    requires !env.QuietFor(k.user, t) && c in env.Targets(k.user, k.rule)
    requires At(r, k, c, beats, n).waiting != []
    ensures Flushed(At(r, k, c, beats, n), At(r, k, c, beats, n + 1))
    ensures DeferredBy(r, k, c, beats, n + 1) == DeferredBy(r, k, c, beats, n)
  {
    assert RecordedStep(beats[n], steps[n], r);
    OneBeat(r, k, c, beats, n);
    FlushStepTold(r, k, c, At(r, k, c, beats, n), beats[n]);
  }

  // ----------------------------------------------------------------- the runs

  lemma WholeRun<T>(s: seq<T>)
    ensures s[..|s|] == s
  {
  }

  /** A new system, nothing stored and nobody told of anything, taking these steps. */
  method Start(steps: seq<Step>, r: Rule, k: GroupKey, c: Channel)
    returns (store: InstanceStore, d: Dispatcher, ghost beats: seq<Beat>)
    requires r.id == k.rule && forall i :: 0 <= i < |steps| ==> ProperStep(steps[i], r, k)
    ensures |beats| == |steps| && RecordedRun(beats, steps, r, true)
    ensures IsFiring(Get(store.Of(r.id), k.system)) == Holds(false, At(r, k, c, beats, |beats|).changes)
    ensures Told(d.log, k, c, false) == Holds(false, At(r, k, c, beats, |beats|).told)
    ensures |Deferred(d.log, k)| == DeferredBy(r, k, c, beats, |beats|)
  {
    store := new InstanceStore({});
    d := new Dispatcher((n: nat) => seq(n, i => 'x'), n => n, {});
    ghost var done;
    assert KindsAt(false, []) == [];
    beats, done := Run(store, d, steps, Watch(r, k, c, false), NEW, []);
    WholeRun(beats);
    Regroup([], [], done);
  }

  function LateSteps(env: Env, r: Rule, k: GroupKey, night: Time, morning: Time, flush: Time): seq<Step> {
    [Evaluate(TickAt(env, r, k, night, true)), Evaluate(TickAt(env, r, k, morning, false)),
     Step.Flush(env, flush, None, true, true)]
  }

  lemma LateProper(env: Env, r: Rule, k: GroupKey, night: Time, morning: Time, flush: Time)
    requires Setting(env, r, k) && env.Sane()
    ensures var steps := LateSteps(env, r, k, night, morning, flush);
      |steps| == 3 && forall i :: 0 <= i < |steps| ==> ProperStep(steps[i], r, k)
  {
    TickIsProper(env, r, k, night, true);
    TickIsProper(env, r, k, morning, false);
  }

  /** A system fires in quiet hours and clears after them, before the flusher comes round: the
      "resolved" goes out at once, the older "fired" after it. One change was deferred, and
      the channel believes that the system is firing when it is not. */
  method LateFlush(env: Env, r: Rule, k: GroupKey, c: Channel, night: Time, morning: Time, flush: Time)
    returns (store: InstanceStore, d: Dispatcher)
    requires Setting(env, r, k) && env.Sane() && c in env.Targets(k.user, k.rule)
    requires HowHeard(env, r, k, c, night) == Waits && HowHeard(env, r, k, c, morning) == AtOnce
    requires !env.QuietFor(k.user, flush)
    ensures Told(d.log, k, c, false) && !IsFiring(Get(store.Of(r.id), k.system))
    ensures |Deferred(d.log, k)| == 1
  {
    var steps := LateSteps(env, r, k, night, morning, flush);
    LateProper(env, r, k, night, morning, flush);
    ghost var beats;
    store, d, beats := Start(steps, r, k, c);
    LateBeats(env, r, k, c, night, morning, flush, beats);
  }

  /** A deferred "fired", then a "resolved" told. */
  lemma LateTicks(
    env: Env, r: Rule, k: GroupKey, c: Channel, night: Time, morning: Time, beats: seq<Beat>, steps: seq<Step>)
    requires Setting(env, r, k) && |beats| == |steps| == 3 && RecordedRun(beats, steps, r, true)
    requires steps[0] == Evaluate(TickAt(env, r, k, night, true)) && HowHeard(env, r, k, c, night) == Waits
    requires steps[1] == Evaluate(TickAt(env, r, k, morning, false)) && HowHeard(env, r, k, c, morning) == AtOnce
    ensures LatePair(At(r, k, c, beats, 2)) && DeferredBy(r, k, c, beats, 2) == 1
  {
    FirstTick(env, r, k, c, beats, steps, night);
    NextTick(env, r, k, c, beats, steps, 1, morning, false, AtOnce);
    TwoTurns(At(r, k, c, beats, 1), At(r, k, c, beats, 2));
  }

  predicate LatePair(p: Pair) {
    p.changes == 2 && p.told == 2 && p.waiting == [0]
  }

  lemma TwoTurns(p1: Pair, p2: Pair)
    requires p1.changes == 1 && p1.waiting == [0] && Turned(p1, p2, false, AtOnce)
    ensures LatePair(p2)
  {
  }

  lemma LateRelease(p: Pair, p': Pair)
    requires LatePair(p) && Flushed(p, p')
    ensures !Holds(false, p'.changes) && Holds(false, p'.told)
  {
  }

  lemma LateBeats(
    env: Env, r: Rule, k: GroupKey, c: Channel, night: Time, morning: Time, flush: Time, beats: seq<Beat>)
    requires Setting(env, r, k) && c in env.Targets(k.user, k.rule)
    requires HowHeard(env, r, k, c, night) == Waits && HowHeard(env, r, k, c, morning) == AtOnce
    requires !env.QuietFor(k.user, flush)
    requires |beats| == 3 && RecordedRun(beats, LateSteps(env, r, k, night, morning, flush), r, true)
    ensures !Holds(false, At(r, k, c, beats, 3).changes) && Holds(false, At(r, k, c, beats, 3).told)
    ensures DeferredBy(r, k, c, beats, 3) == 1
  {
    var steps := LateSteps(env, r, k, night, morning, flush);
    LateTicks(env, r, k, c, night, morning, beats, steps);
    FlushAt(env, r, k, c, beats, steps, 2, flush);
    LateRelease(At(r, k, c, beats, 2), At(r, k, c, beats, 3));
  }

  lemma FirstTick(env: Env, r: Rule, k: GroupKey, c: Channel, beats: seq<Beat>, steps: seq<Step>, t: Time)
    requires |beats| == |steps| > 0 && RecordedRun(beats, steps, r, true) && Setting(env, r, k)
    requires steps[0] == Evaluate(TickAt(env, r, k, t, true)) && HowHeard(env, r, k, c, t).Waits?
    ensures var p1 := At(r, k, c, beats, 1);
      && p1.changes == 1 && p1.told == 0 && p1.waiting == [0] && Crisp(p1) && IsFiring(p1.inst)
      && DeferredBy(r, k, c, beats, 1) == 1
  {
    FromNew(r, k, c, beats);
    TickStep(env, r, k, c, beats, steps, 0, t, true);
  }

  /** A tick that finds rows waiting. */
  lemma NextTick(
    env: Env, r: Rule, k: GroupKey, c: Channel, beats: seq<Beat>, steps: seq<Step>, n: nat, t: Time, breach: bool,
    how: Heard)
    requires |beats| == |steps| && RecordedRun(beats, steps, r, true) && n < |beats| && Setting(env, r, k)
    requires steps[n] == Evaluate(TickAt(env, r, k, t, breach)) && HowHeard(env, r, k, c, t) == how
    requires Crisp(At(r, k, c, beats, n)) && breach != IsFiring(At(r, k, c, beats, n).inst)
    requires At(r, k, c, beats, n).waiting != []
    ensures Turned(At(r, k, c, beats, n), At(r, k, c, beats, n + 1), breach, how)
    ensures Crisp(At(r, k, c, beats, n + 1)) && IsFiring(At(r, k, c, beats, n + 1).inst) == breach
    ensures At(r, k, c, beats, n + 1).waiting != []
    ensures DeferredBy(r, k, c, beats, n + 1) == DeferredBy(r, k, c, beats, n) + if how.Waits? then 1 else 0
  {
    TickStep(env, r, k, c, beats, steps, n, t, breach);
  }

  lemma FromNew(r: Rule, k: GroupKey, c: Channel, beats: seq<Beat>)
    ensures At(r, k, c, beats, 0) == NEW && DeferredBy(r, k, c, beats, 0) == 0
  {
    assert beats[..0] == [];
  }

  function DroppedSteps(env: Env, r: Rule, k: GroupKey, t0: Time, t1: Time, t2: Time, flush: Time): seq<Step> {
    [Evaluate(TickAt(env, r, k, t0, true)), Evaluate(TickAt(env, r, k, t1, false)),
     Evaluate(TickAt(env, r, k, t2, true)), Step.Flush(env, flush, None, true, true)]
  }

  lemma DroppedProper(env: Env, r: Rule, k: GroupKey, t0: Time, t1: Time, t2: Time, flush: Time)
    requires Setting(env, r, k) && env.Sane()
    ensures var steps := DroppedSteps(env, r, k, t0, t1, t2, flush);
      |steps| == 4 && forall i :: 0 <= i < |steps| ==> ProperStep(steps[i], r, k)
  {
    TickIsProper(env, r, k, t0, true);
    TickIsProper(env, r, k, t1, false);
    TickIsProper(env, r, k, t2, true);
  }

  /** A system fires, clears and fires again in quiet hours. The flush that follows drops all
      three, and the channel is not told that the system is firing. */
  method ThreeDropped(env: Env, r: Rule, k: GroupKey, c: Channel, t0: Time, t1: Time, t2: Time, flush: Time)
    returns (store: InstanceStore, d: Dispatcher)
    requires Setting(env, r, k) && env.Sane() && c in env.Targets(k.user, k.rule)
    requires HowHeard(env, r, k, c, t0) == Waits && HowHeard(env, r, k, c, t1) == Waits
    requires HowHeard(env, r, k, c, t2) == Waits && !env.QuietFor(k.user, flush)
    ensures !Told(d.log, k, c, false) && IsFiring(Get(store.Of(r.id), k.system))
    ensures |Deferred(d.log, k)| == 3
  {
    var steps := DroppedSteps(env, r, k, t0, t1, t2, flush);
    DroppedProper(env, r, k, t0, t1, t2, flush);
    ghost var beats;
    store, d, beats := Start(steps, r, k, c);
    DroppedBeats(env, r, k, c, t0, t1, t2, flush, beats);
  }

  /** Three changes, all deferred. */
  lemma DroppedTicks(
    env: Env, r: Rule, k: GroupKey, c: Channel, t0: Time, t1: Time, t2: Time, beats: seq<Beat>, steps: seq<Step>)
    requires Setting(env, r, k) && |beats| == |steps| == 4 && RecordedRun(beats, steps, r, true)
    requires steps[0] == Evaluate(TickAt(env, r, k, t0, true)) && HowHeard(env, r, k, c, t0) == Waits
    requires steps[1] == Evaluate(TickAt(env, r, k, t1, false)) && HowHeard(env, r, k, c, t1) == Waits
    requires steps[2] == Evaluate(TickAt(env, r, k, t2, true)) && HowHeard(env, r, k, c, t2) == Waits
    ensures DroppedPair(At(r, k, c, beats, 3)) && DeferredBy(r, k, c, beats, 3) == 3
  {
    FirstTick(env, r, k, c, beats, steps, t0);
    NextTick(env, r, k, c, beats, steps, 1, t1, false, Waits);
    NextTick(env, r, k, c, beats, steps, 2, t2, true, Waits);
    ThreeWait(At(r, k, c, beats, 1), At(r, k, c, beats, 2), At(r, k, c, beats, 3));
  }

  lemma ThreeWait(p1: Pair, p2: Pair, p3: Pair)
    requires p1.changes == 1 && p1.told == 0 && p1.waiting == [0]
    requires Turned(p1, p2, false, Waits) && Turned(p2, p3, true, Waits)
    ensures DroppedPair(p3)
  {
  }

  predicate DroppedPair(p: Pair) {
    p.changes == 3 && p.told == 0 && p.waiting == [0, 1, 2]
  }

  lemma DroppedFlush(p: Pair, p': Pair)
    requires DroppedPair(p) && Flushed(p, p')
    ensures Holds(false, p'.changes) && !Holds(false, p'.told)
  {
    assert p.waiting[0] % 2 != p.waiting[1] % 2;
  }

  lemma DroppedBeats(
    env: Env, r: Rule, k: GroupKey, c: Channel, t0: Time, t1: Time, t2: Time, flush: Time, beats: seq<Beat>)
    requires Setting(env, r, k) && c in env.Targets(k.user, k.rule)
    requires HowHeard(env, r, k, c, t0) == Waits && HowHeard(env, r, k, c, t1) == Waits
    requires HowHeard(env, r, k, c, t2) == Waits && !env.QuietFor(k.user, flush)
    requires |beats| == 4 && RecordedRun(beats, DroppedSteps(env, r, k, t0, t1, t2, flush), r, true)
    ensures Holds(false, At(r, k, c, beats, 4).changes) && !Holds(false, At(r, k, c, beats, 4).told)
    ensures DeferredBy(r, k, c, beats, 4) == 3
  {
    var steps := DroppedSteps(env, r, k, t0, t1, t2, flush);
    DroppedTicks(env, r, k, c, t0, t1, t2, beats, steps);
    FlushAt(env, r, k, c, beats, steps, 3, flush);
    DroppedFlush(At(r, k, c, beats, 3), At(r, k, c, beats, 4));
  }

  function TwiceSteps(env: Env, r: Rule, k: GroupKey, night: Time, first: Time, later: Time, second: Time): seq<Step> {
    [Evaluate(TickAt(env, r, k, night, true)), Step.Flush(env, first, None, true, false),
     Evaluate(TickAt(env, r, k, later, false)), Step.Flush(env, second, None, true, true)]
  }

  lemma TwiceProper(env: Env, r: Rule, k: GroupKey, night: Time, first: Time, later: Time, second: Time)
    requires Setting(env, r, k) && env.Sane()
    ensures var steps := TwiceSteps(env, r, k, night, first, later, second);
      |steps| == 4 && forall i :: 0 <= i < |steps| ==> ProperStep(steps[i], r, k)
  {
    TickIsProper(env, r, k, night, true);
    TickIsProper(env, r, k, later, false);
  }

  /** A system fires in quiet hours; the flush after them sends "fired" but fails to delete
      the row. When the system has cleared, and that was told, the next flush sends the same
      "fired" again. */
  method ToldTwice(
      env: Env, r: Rule, k: GroupKey, c: Channel, night: Time, first: Time, later: Time, second: Time)
    returns (store: InstanceStore, d: Dispatcher)
    requires Setting(env, r, k) && env.Sane() && c in env.Targets(k.user, k.rule)
    requires HowHeard(env, r, k, c, night) == Waits && HowHeard(env, r, k, c, later) == AtOnce
    requires !env.QuietFor(k.user, first) && !env.QuietFor(k.user, second)
    ensures Told(d.log, k, c, false) && !IsFiring(Get(store.Of(r.id), k.system))
    ensures |Deferred(d.log, k)| == 1
  {
    var steps := TwiceSteps(env, r, k, night, first, later, second);
    TwiceProper(env, r, k, night, first, later, second);
    ghost var beats;
    store, d, beats := Start(steps, r, k, c);
    TwiceBeats(env, r, k, c, night, first, later, second, beats);
  }

  /** The n-th step is a flush that tells of one waiting row and fails to delete it. */
  lemma FailedDelete(
    env: Env, r: Rule, k: GroupKey, c: Channel, beats: seq<Beat>, steps: seq<Step>, n: nat, t: Time)
    requires |beats| == |steps| && RecordedRun(beats, steps, r, true) && n < |beats|
    requires steps[n] == Step.Flush(env, t, None, true, false)
    requires !env.QuietFor(k.user, t) && c in env.Targets(k.user, k.rule)
    requires |At(r, k, c, beats, n).waiting| == 1
    ensures var p := At(r, k, c, beats, n); At(r, k, c, beats, n + 1) == p.(told := p.waiting[0] + 1)
    ensures DeferredBy(r, k, c, beats, n + 1) == DeferredBy(r, k, c, beats, n)
  {
    assert RecordedStep(beats[n], steps[n], r);
    OneBeat(r, k, c, beats, n);
  }

  /** The "fired" is told, and its row is still there. */
  lemma TwiceStart(
    env: Env, r: Rule, k: GroupKey, c: Channel, night: Time, first: Time, beats: seq<Beat>, steps: seq<Step>)
    requires Setting(env, r, k) && |beats| == |steps| == 4 && RecordedRun(beats, steps, r, true)
    requires steps[0] == Evaluate(TickAt(env, r, k, night, true)) && HowHeard(env, r, k, c, night) == Waits
    requires steps[1] == Step.Flush(env, first, None, true, false)
    requires !env.QuietFor(k.user, first) && c in env.Targets(k.user, k.rule)
    ensures var p2 := At(r, k, c, beats, 2);
      && p2.changes == 1 && p2.waiting == [0] && Crisp(p2) && IsFiring(p2.inst)
      && DeferredBy(r, k, c, beats, 2) == 1
  {
    FirstTick(env, r, k, c, beats, steps, night);
    FailedDelete(env, r, k, c, beats, steps, 1, first);
  }

  /** The "fired" is told, the "resolved" too, and the row of the "fired" is still there. */
  lemma TwiceTicks(
    env: Env, r: Rule, k: GroupKey, c: Channel, night: Time, first: Time, later: Time, beats: seq<Beat>,
    steps: seq<Step>)
    requires Setting(env, r, k) && |beats| == |steps| == 4 && RecordedRun(beats, steps, r, true)
    requires steps[0] == Evaluate(TickAt(env, r, k, night, true)) && HowHeard(env, r, k, c, night) == Waits
    requires steps[1] == Step.Flush(env, first, None, true, false)
    requires !env.QuietFor(k.user, first) && c in env.Targets(k.user, k.rule)
    requires steps[2] == Evaluate(TickAt(env, r, k, later, false)) && HowHeard(env, r, k, c, later) == AtOnce
    ensures LatePair(At(r, k, c, beats, 3)) && DeferredBy(r, k, c, beats, 3) == 1
  {
    TwiceStart(env, r, k, c, night, first, beats, steps);
    NextTick(env, r, k, c, beats, steps, 2, later, false, AtOnce);
    TwoTurns(At(r, k, c, beats, 2), At(r, k, c, beats, 3));
  }

  lemma TwiceBeats(
    env: Env, r: Rule, k: GroupKey, c: Channel, night: Time, first: Time, later: Time, second: Time,
    beats: seq<Beat>)
    requires Setting(env, r, k) && c in env.Targets(k.user, k.rule)
    requires HowHeard(env, r, k, c, night) == Waits && HowHeard(env, r, k, c, later) == AtOnce
    requires !env.QuietFor(k.user, first) && !env.QuietFor(k.user, second)
    requires |beats| == 4 && RecordedRun(beats, TwiceSteps(env, r, k, night, first, later, second), r, true)
    ensures !Holds(false, At(r, k, c, beats, 4).changes) && Holds(false, At(r, k, c, beats, 4).told)
    ensures DeferredBy(r, k, c, beats, 4) == 1
  {
    var steps := TwiceSteps(env, r, k, night, first, later, second);
    TwiceTicks(env, r, k, c, night, first, later, beats, steps);
    FlushAt(env, r, k, c, beats, steps, 3, second);
    LateRelease(At(r, k, c, beats, 3), At(r, k, c, beats, 4));
  }

  // ----------------------------------------------------- a world in which they happen

  const NIGHT := QuietHours.Window([], "22:00", "06:00")
  const MORNING: Time := 6 * 3600 * SECOND

  /** Quiet hours from ten to six, every day. The clock shows one at night until MORNING and
      seven in the morning from then on. */
  function World(c: Channel): Env {
    Env(Some([c]), Some(Policy("UTC", [NIGHT], map[])), map[], map[], map[], map[],
        (zone, t) => if t < MORNING then QuietHours.LocalTime(1, 60) else QuietHours.LocalTime(1, 420))
  }

  lemma Ten(s: string)
    requires s == "22:00"
    ensures QuietHours.ParseHHMM(s) == Some(1320)
  {
    QuietHours.ParseReadsBack(1320);
    assert s == QuietHours.TwoDigits(22) + ":" + QuietHours.TwoDigits(0);
  }

  lemma Six(s: string)
    requires s == "06:00"
    ensures QuietHours.ParseHHMM(s) == Some(360)
  {
    QuietHours.ParseReadsBack(360);
    assert s == QuietHours.TwoDigits(6) + ":" + QuietHours.TwoDigits(0);
  }

  lemma NightBounds(w: QuietHours.Window)
    requires w == NIGHT
    ensures QuietHours.Bounds(w) == Some((1320, 360))
  {
    Ten(w.start);
    Six(w.end);
  }

  lemma OnlyAtNight(w: QuietHours.Window, t: QuietHours.LocalTime)
    requires w.days == [] && QuietHours.Bounds(w) == Some((1320, 360)) && QuietHours.ValidLocal(t)
    ensures QuietHours.Quiet([w], t) <==> t.minute >= 1320 || t.minute < 360
  {
    QuietHours.WindowIsArc(w, t);
    assert [w][0] == w;
  }

  lemma WorldIsQuiet(c: Channel, t: Time)
    ensures World(c).QuietFor("", t) <==> t < MORNING
  {
    NightBounds(NIGHT);
    OnlyAtNight(NIGHT, World(c).local("UTC", t));
    assert World(c).Governing("").windows == [NIGHT];
  }

  lemma WorldHears(c: Channel, r: Rule, k: GroupKey, t: Time)
    requires r.severity == "warning" && k.user == ""
    ensures HowHeard(World(c), r, k, c, t) == if t < MORNING then Waits else AtOnce
  {
    WorldIsQuiet(c, t);
    assert c in World(c).Targets("", k.rule);
  }

  /** What went wrong, for the pair of rule "r" and system "a" and the channel. */
  ghost predicate Misled(d: Dispatcher, store: InstanceStore, told: bool, deferred: nat)
    reads d, store
  {
    var k := GroupKey("", "r", "a");
    && Told(d.log, k, Channel("ch", "pager"), false) == told && IsFiring(Get(store.Of("r"), "a")) == !told
    && |Deferred(d.log, k)| == deferred
  }

  /** The three runs, in that world: the flusher one second late, three changes in a night,
      and a delete that fails. */
  method OneNight()
    returns (d0: Dispatcher, s0: InstanceStore, d1: Dispatcher, s1: InstanceStore, d2: Dispatcher, s2: InstanceStore)
    ensures Misled(d0, s0, true, 1) && Misled(d1, s1, false, 3) && Misled(d2, s2, true, 1)
  {
    var r, k, c := Rule("r", "disk", "warning", 0), GroupKey("", "r", "a"), Channel("ch", "pager");
    WorldHears(c, r, k, 0);
    WorldHears(c, r, k, SECOND);
    WorldHears(c, r, k, 2 * SECOND);
    WorldHears(c, r, k, MORNING);
    WorldIsQuiet(c, MORNING + SECOND);
    WorldIsQuiet(c, MORNING);
    s0, d0 := LateFlush(World(c), r, k, c, 0, MORNING, MORNING + SECOND);
    s1, d1 := ThreeDropped(World(c), r, k, c, 0, SECOND, 2 * SECOND, MORNING);
    s2, d2 := ToldTwice(World(c), r, k, c, 0, MORNING, MORNING, MORNING + SECOND);
  }
}
