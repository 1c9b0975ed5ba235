/** What the recipient's machine amounts to: when deliveries keep up, what a quiet period
    loses, and a flush that comes too late (internal/notifications/flusher.go). */
module QuietPeriod {
  import opened Common
  import opened Alerts
  import opened Delivery
  import opened Flush
  import opened Recipient
  import H = AlertHistory

  /** An even number of changes came after the row that the flush tells the channel of, or,
      if it tells it of none, after the change it was last told of. */
  ghost predicate FlushInforms(r: Rule, k: GroupKey, c: Channel, p: Pair, b: Beat)
    requires b.Flushes?
  {
    var p' := During(r, k, c, p, b.during);
    if Tells(k, c, p, b) then (p'.changes - 1 - Last(p.waiting)) % 2 == 0 else Informed(p')
  }

  lemma AfterFlushIff(r: Rule, k: GroupKey, c: Channel, p: Pair, b: Beat)
    requires b.Flushes?
    ensures Informed(FlushStep(r, k, c, p, b)) <==> FlushInforms(r, k, c, p, b)
  {
    FlushStepTold(r, k, c, p, b);
  }

  /** End to end: after one flush, whatever fails and whatever tick is emitted between its list
      and its delete, the channel believes what is true exactly in that case. */
  method AfterFlush(store: InstanceStore, d: Dispatcher, step: Step, ghost w: Watch, ghost p: Pair, ghost ids: seq<Id>)
    returns (ghost b: Beat, ghost done: seq<Action>, ghost ids': seq<Id>)
    requires step.Flush? && d.Valid() && ProperStep(step, w.r, w.k) && w.r.id == w.k.rule
    requires Moved(w, store.Of(w.r.id), d.pending, [], p, p, ids)
    modifies store, d
    ensures b.Flushes? && RecordedStep(b, step, w.r) && d.log == old(d.log) + done
    ensures RightlyInformed(w, store.Of(w.r.id), done, p) <==> FlushInforms(w.r, w.k, w.c, p, b)
  {
    b, done, ids' := MakeFlush(store, d, step, w, p, ids);
    AfterFlushIff(w.r, w.k, w.c, p, b);
    InformedIff(w, store.Of(w.r.id), d.pending, done, p, FlushStep(w.r, w.k, w.c, p, b), ids');
  }

  // ------------------------------------------------------- deliveries that keep up

  /** The changes the channel was not told of are exactly those whose rows wait, in order. */
  predicate InOrder(p: Pair) {
    p.told + |p.waiting| == p.changes && forall i :: 0 <= i < |p.waiting| ==> p.waiting[i] == p.told + i
  }

  /** Every change is deferred, or is told at once with nothing waiting. */
  predicate PromptTurn(r: Rule, k: GroupKey, c: Channel, p: Pair, turn: Turn) {
    IsFiring(H.Next(r, turn.event, k.system, p.inst)) != IsFiring(p.inst) ==>
      HeardIn(r, k, c, turn).Waits? || (HeardIn(r, k, c, turn).AtOnce? && p.waiting == [])
  }

  /** And every flush that gets to waiting rows finds no more than one, reaches the channel
      and deletes the row. */
  predicate Prompt(r: Rule, k: GroupKey, c: Channel, p: Pair, b: Beat) {
    match b
    case Ticks(turn) => PromptTurn(r, k, c, p, turn)
    case Flushes(env, _, during, _, deleted) =>
      && (during.Some? ==> PromptTurn(r, k, c, p, during.value))
      && (Attends(k, p, b) ==> |p.waiting| == 1 && c in env.Targets(k.user, k.rule) && deleted)
  }

  lemma TurnKeepsUp(r: Rule, k: GroupKey, c: Channel, p: Pair, turn: Turn)
    requires InOrder(p) && PromptTurn(r, k, c, p, turn)
    ensures InOrder(TurnStep(r, k, c, p, turn))
    ensures p.waiting != [] ==> TurnStep(r, k, c, p, turn).told == p.told
  {
    TurnStepIs(r, k, c, p, turn);
  }

  lemma BeatKeepsUp(r: Rule, k: GroupKey, c: Channel, p: Pair, b: Beat)
    requires InOrder(p) && Prompt(r, k, c, p, b)
    ensures InOrder(BeatStep(r, k, c, p, b))
  {
    match b
    case Ticks(turn) => TurnKeepsUp(r, k, c, p, turn);
    case Flushes(_, _, during, _, _) =>
      if during.Some? {
        TurnKeepsUp(r, k, c, p, during.value);
      }
      var p' := During(r, k, c, p, during);
      if Attends(k, p, b) {
        assert |p.waiting| == 1 && !Mixed(p.waiting);
        var left := p'.waiting[1..];
        assert forall i :: 0 <= i < |left| ==> left[i] == p'.waiting[i + 1];
      }
  }

  /** Over any run in which deliveries keep up, the channel is behind by the waiting rows
      and by nothing else; when none waits it was told of the newest change. */
  lemma {:induction false} KeepsUp(r: Rule, k: GroupKey, c: Channel, p: Pair, beats: seq<Beat>)
    requires InOrder(p)
    requires forall i :: 0 <= i < |beats| ==> Prompt(r, k, c, AfterBeats(r, k, c, p, beats[..i]), beats[i])
    ensures InOrder(AfterBeats(r, k, c, p, beats))
    ensures Informed(AfterBeats(r, k, c, p, beats)) <==> |AfterBeats(r, k, c, p, beats).waiting| % 2 == 0
  {
    if beats != [] {
      var g, n := Front(beats), |beats| - 1;
      forall i | 0 <= i < n
        ensures Prompt(r, k, c, AfterBeats(r, k, c, p, g[..i]), g[i])
      {
        assert g[..i] == beats[..i];
      }
      KeepsUp(r, k, c, p, g);
      assert beats[..n] == g;
      BeatKeepsUp(r, k, c, AfterBeats(r, k, c, p, g), beats[n]);
    }
  }

  // ------------------------------------------------------------- a quiet period

  /** A tick that ran its course, and whose notifications to this owner are deferred. */
  predicate Defers(r: Rule, k: GroupKey, c: Channel, b: Beat) {
    b.Ticks? && (b.turn.event.TickFailed? || HeardIn(r, k, c, b.turn).Waits?)
  }

  lemma {:induction false} QuietBeats(r: Rule, k: GroupKey, c: Channel, p: Pair, beats: seq<Beat>)
    requires InOrder(p) && p.waiting == [] && forall i :: 0 <= i < |beats| ==> Defers(r, k, c, beats[i])
    ensures var p' := AfterBeats(r, k, c, p, beats);
      InOrder(p') && p'.told == p.told && AllDeferrals(r, k, c, p, beats) == |p'.waiting|
  {
    if beats != [] {
      QuietBeats(r, k, c, p, Front(beats));
      TurnStepIs(r, k, c, AfterBeats(r, k, c, p, Front(beats)), Last(beats).turn);
      TurnKeepsUp(r, k, c, AfterBeats(r, k, c, p, Front(beats)), Last(beats).turn);
    }
  }

  /** Whether n deferred changes leave the recipient rightly informed after the flush. */
  predicate Informs(n: nat) {
    n == 1 || n % 2 == 0
  }

  /** Rows in order are mixed as soon as there are two of them. */
  lemma MixedInOrder(p: Pair)
    requires InOrder(p)
    ensures Mixed(p.waiting) <==> |p.waiting| >= 2
  {
    if |p.waiting| >= 2 {
      assert p.waiting[0] % 2 != p.waiting[1] % 2;
    }
  }

  lemma ClosingFlushIs(r: Rule, k: GroupKey, c: Channel, p: Pair, env: Env, now: Time)
    requires InOrder(p) && !env.QuietFor(k.user, now) && c in env.Targets(k.user, k.rule)
    ensures var p' := FlushStep(r, k, c, p, Flushes(env, now, None, true, true));
      p'.changes == p.changes && (Informed(p') <==> Informs(|p.waiting|))
  {
    MixedInOrder(p);
    FlushStepTold(r, k, c, p, Flushes(env, now, None, true, true));
  }

  /** A quiet period and the flush that ends it, on the machine: the channel is rightly
      informed iff one change or an even number of them was deferred; an odd number of
      three or more is dropped with a net change. */
  lemma QuietPeriodIff(r: Rule, k: GroupKey, c: Channel, p: Pair, beats: seq<Beat>, env: Env, now: Time)
    requires InOrder(p) && p.waiting == [] && forall i :: 0 <= i < |beats| ==> Defers(r, k, c, beats[i])
    requires !env.QuietFor(k.user, now) && c in env.Targets(k.user, k.rule)
    ensures var all := beats + [Flushes(env, now, None, true, true)];
      && AllDeferrals(r, k, c, p, all) == AfterBeats(r, k, c, p, all).changes - p.changes
      && (Informed(AfterBeats(r, k, c, p, all)) <==> Informs(AllDeferrals(r, k, c, p, all)))
  {
    var last, q := Flushes(env, now, None, true, true), AfterBeats(r, k, c, p, beats);
    assert Front(beats + [last]) == beats;
    QuietBeats(r, k, c, p, beats);
    ClosingFlushIs(r, k, c, q, env, now);
    assert AfterBeats(r, k, c, p, beats + [last]) == FlushStep(r, k, c, q, last);
    assert AllDeferrals(r, k, c, p, beats + [last]) == AllDeferrals(r, k, c, p, beats);
  }

  function ClosingFlush(env: Env, now: Time): Step {
    Flush(env, now, None, true, true)
  }

  /** A quiet period, end to end on evaluator, dispatcher and flusher. Belief and true state
      agree at the start, and nothing waits; every tick's notifications to the owner are
      deferred; then one flush runs outside quiet hours. */
  method Period(
      store: InstanceStore, d: Dispatcher, moves: seq<Move>, env: Env, flushAt: Time,
      ghost r: Rule, ghost k: GroupKey, ghost c: Channel)
    returns (ghost done: seq<Action>, ghost deferred: nat)
    requires d.Valid() && d.refused == {} && store.failing == {} && env.Sane()
    requires r.id == k.rule && Tracks(d.pending, k, [], [])
    requires forall i :: 0 <= i < |moves| ==>
      && moves[i].step.Tick? && Proper(moves[i], r, k)
      && HowHeard(moves[i].env, r, k, c, moves[i].at).Waits?
    requires !env.QuietFor(k.user, flushAt) && c in env.Targets(k.user, k.rule)
    modifies store, d
    ensures d.log == old(d.log) + done && deferred == |Deferred(done, k)|
    ensures var was, truth := old(IsFiring(Get(store.Of(k.rule), k.system))), IsFiring(Get(store.Of(k.rule), k.system));
      && truth == ((deferred % 2 == 0) == was)
      && (Told(done, k, c, was) == truth <==> Informs(deferred))
  {
    ghost var start := IsFiring(Get(store.Of(k.rule), k.system));
    ghost var p := Pair(Get(store.Of(k.rule), k.system), 0, 0, []);
    var steps := seq(|moves|, i requires 0 <= i < |moves| => Evaluate(moves[i])) + [ClosingFlush(env, flushAt)];
    ghost var beats;
    assert KindsAt(start, []) == [];
    beats, done := Run(store, d, steps, Watch(r, k, c, start), p, []);
    PeriodEnd(beats, steps, moves, r, k, c, env, flushAt, p);
    deferred := |Deferred(done, k)|;
  }

  lemma PeriodEnd(
    beats: seq<Beat>, steps: seq<Step>, moves: seq<Move>, r: Rule, k: GroupKey, c: Channel, env: Env, flushAt: Time,
    p: Pair)
    requires InOrder(p) && p.waiting == [] && |beats| == |steps| && RecordedRun(beats, steps, r, true)
    requires steps == seq(|moves|, i requires 0 <= i < |moves| => Evaluate(moves[i])) + [ClosingFlush(env, flushAt)]
    requires forall i :: 0 <= i < |moves| ==>
      moves[i].step.Tick? && HowHeard(moves[i].env, r, k, c, moves[i].at).Waits?
    requires !env.QuietFor(k.user, flushAt) && c in env.Targets(k.user, k.rule)
    ensures AllDeferrals(r, k, c, p, beats) == AfterBeats(r, k, c, p, beats).changes - p.changes
    ensures Informed(AfterBeats(r, k, c, p, beats)) <==> Informs(AllDeferrals(r, k, c, p, beats))
  {
    PeriodBeats(beats, steps, moves, r, k, c, env, flushAt);
    QuietPeriodIff(r, k, c, p, Front(beats), env, flushAt);
    assert beats == Front(beats) + [Last(beats)];
  }

  /** Error-free ticks in quiet hours are recorded as ticks that defer. */
  lemma PeriodBeats(
    beats: seq<Beat>, steps: seq<Step>, moves: seq<Move>, r: Rule, k: GroupKey, c: Channel, env: Env, flushAt: Time)
    requires |beats| == |steps| == |moves| + 1 && RecordedRun(beats, steps, r, true)
    requires forall i :: 0 <= i < |moves| ==> steps[i] == Evaluate(moves[i])
    requires steps[|moves|] == ClosingFlush(env, flushAt)
    requires forall i :: 0 <= i < |moves| ==>
      moves[i].step.Tick? && HowHeard(moves[i].env, r, k, c, moves[i].at).Waits?
    ensures forall i :: 0 <= i < |moves| ==> Defers(r, k, c, Front(beats)[i])
    ensures Last(beats) == Flushes(env, flushAt, None, true, true)
  {
    forall i | 0 <= i < |moves|
      ensures Defers(r, k, c, Front(beats)[i])
    {
      assert RecordedStep(beats[i], steps[i], r) && Completes(beats[i]);
    }
    assert RecordedStep(beats[|moves|], steps[|moves|], r);
  }
}
