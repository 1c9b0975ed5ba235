/** The debounced regenerator of the scrape-target file: an event handler and a loop
    that share a channel of capacity one (Writer.Run in internal/promtargets/promtargets.go). */
module Debounce {
  import opened Common

  /** Where the loop is: writing the file (at start-up too), waiting in its outer select,
      accumulating until the timer fires, about to write, or returned. */
  datatype Loop = Starting | Waiting | Accumulating | Due | Writing | Returned

  /** full is the channel; clean says no relevant event has arrived since the last
      write began; cancelled is the context. */
  datatype State = State(loop: Loop, full: bool, clean: bool, cancelled: bool)

  datatype Event =
    | Arrive(relevant: bool)     // the hub calls the handler
    | Cancel                     // the context is cancelled
    | BeginWrite                 // Regenerate starts: it reads the inventory from here on
    | EndWrite
    | Receive                    // the outer select takes the token
    | Drain                      // the inner select takes one
    | TimerFires
    | SeeCancel                  // either select takes ctx.Done

  const INITIAL := State(Starting, false, true, false)

  predicate Enabled(s: State, e: Event) {
    match e
    case Arrive(_) => true
    case Cancel => true
    case BeginWrite => s.loop.Starting? || s.loop.Due?
    case EndWrite => s.loop.Writing?
    case Receive => s.loop.Waiting? && s.full
    case Drain => s.loop.Accumulating? && s.full
    case TimerFires => s.loop.Accumulating?
    case SeeCancel => s.cancelled && (s.loop.Waiting? || s.loop.Accumulating?)
  }

  function Apply(s: State, e: Event): State
    requires Enabled(s, e)
  {
    match e
    case Arrive(relevant) => if relevant then s.(full := true, clean := false) else s
    case Cancel => s.(cancelled := true)
    case BeginWrite => s.(loop := Writing, clean := true)
    case EndWrite => s.(loop := Waiting)
    case Receive => s.(loop := Accumulating, full := false)
    case Drain => s.(full := false)
    case TimerFires => s.(loop := Due)
    case SeeCancel => s.(loop := Returned)
  }

  /** h is a run: every event was enabled when it happened. */
  predicate Run(h: seq<Event>)
    decreases |h|, 0
  {
    h == [] || (Run(Front(h)) && Enabled(After(Front(h)), Last(h)))
  }

  function After(h: seq<Event>): State
    requires Run(h)
    decreases |h|, 1
  {
    if h == [] then INITIAL else Apply(After(Front(h)), Last(h))
  }

  // ----------------------------------------------------------- no lost wake-up

  /** A token is waiting or the loop is already committed to another write. */
  predicate Pending(s: State) {
    s.full || s.loop.Accumulating? || s.loop.Due? || s.loop.Starting?
  }

  /** In every reachable state: if a relevant event arrived after the last write began,
      the loop will hear of it, unless it has returned because of a cancellation. */
  lemma {:induction false} NoLostWakeUp(h: seq<Event>)
    requires Run(h)
    ensures After(h).clean || Pending(After(h)) || After(h).loop.Returned?
    ensures After(h).loop.Returned? ==> After(h).cancelled
  {
    if h != [] {
      NoLostWakeUp(Front(h));
    }
  }

  /** Some relevant event of h is not followed by the beginning of a write. */
  ghost predicate Unseen(h: seq<Event>, i: int) {
    0 <= i < |h| && h[i] == Arrive(true) && forall j :: i < j < |h| ==> !h[j].BeginWrite?
  }

  /** clean means just that. */
  lemma {:induction false} CleanMeansSeen(h: seq<Event>)
    requires Run(h)
    ensures After(h).clean <==> !exists i :: Unseen(h, i)
  {
    if h != [] {
      var g := Front(h);
      CleanMeansSeen(g);
      forall i | 0 <= i < |g|
        ensures Unseen(h, i) <==> Unseen(g, i) && !Last(h).BeginWrite?
      {
        assert g[i] == h[i];
      }
      assert Unseen(h, |g|) <==> Last(h) == Arrive(true);
    }
  }

  /** Whenever the loop rests in its outer select with an empty channel, every relevant
      event so far was followed by a write that began after it. */
  lemma QuietMeansUpToDate(h: seq<Event>, i: nat)
    requires Run(h) && After(h).loop.Waiting? && !After(h).full
    requires i < |h| && h[i] == Arrive(true)
    ensures exists j :: i < j < |h| && h[j].BeginWrite?
  {
    NoLostWakeUp(h);
    CleanMeansSeen(h);
    assert !Unseen(h, i);
  }

  // ---------------------------------------------------------------- progress

  /** Steps of the loop, as opposed to things that happen to it. */
  function LoopSteps(h: seq<Event>): nat {
    if h == [] then 0 else LoopSteps(Front(h)) + if Last(h).Arrive? || Last(h).Cancel? then 0 else 1
  }

  function Arrivals(h: seq<Event>): nat {
    if h == [] then 0 else Arrivals(Front(h)) + if Last(h) == Arrive(true) then 1 else 0
  }

  function Writes(h: seq<Event>): nat {
    if h == [] then 0 else Writes(Front(h)) + if Last(h).BeginWrite? then 1 else 0
  }

  /** How many loop steps can still be taken before a write begins, without new events. */
  function Distance(s: State): nat {
    (if s.full then 1 else 0) +
    (match s.loop
     case Writing => 4
     case Waiting => 3
     case Accumulating => 2
     case Due => 0
     case Starting => 0
     case Returned => 0)
  }

  /** Some loop step other than noticing a cancellation is enabled. */
  predicate CanMove(s: State) {
    Enabled(s, BeginWrite) || Enabled(s, EndWrite) || Enabled(s, Receive) || Enabled(s, TimerFires)
  }

  /** A handled event is always on its way to a write: while one is outstanding and the
      loop has not returned, it can move; and after any point k no more than five loop
      steps, plus one for each new arrival, pass before a write begins. */
  lemma {:induction false} WriteWithinBound(h: seq<Event>, k: nat)
    requires Run(h) && k <= |h|
    requires forall j :: k <= j < |h| ==> !h[j].BeginWrite?
    ensures !After(h).clean && !After(h).loop.Returned? ==> CanMove(After(h))
    ensures LoopSteps(h[k..]) + Distance(After(h)) <= 5 + Arrivals(h[k..])
  {
    NoLostWakeUp(h);
    if k == |h| {
      assert h[k..] == [];
    } else {
      WriteWithinBound(Front(h), k);
      assert Front(h[k..]) == Front(h)[k..] && Last(h[k..]) == Last(h);
      DistanceStep(After(Front(h)), Last(h));
    }
  }

  lemma DistanceStep(s: State, e: Event)
    requires Enabled(s, e) && !e.BeginWrite?
    ensures Distance(Apply(s, e)) + (if e.Arrive? || e.Cancel? then 0 else 1) <=
      Distance(s) + if e == Arrive(true) then 1 else 0
  {
  }

  /** The debounce never multiplies work: there are at most as many writes as relevant
      events, plus the one at start-up. */
  lemma {:induction false} WritesBounded(h: seq<Event>)
    requires Run(h)
    ensures Writes(h) + Owed(After(h)) <= 1 + Arrivals(h)
  {
    if h != [] {
      WritesBounded(Front(h));
    }
  }

  function Owed(s: State): nat {
    (if s.full then 1 else 0) + (if s.loop.Accumulating? || s.loop.Due? || s.loop.Starting? then 1 else 0)
  }

  // -------------------------------------------------------------- coalescing

  /** No write begins between the a-th event and the b-th. */
  ghost predicate NoWriteBetween(h: seq<Event>, a: nat, b: nat) {
    forall i :: a < i < b && i < |h| ==> !h[i].BeginWrite?
  }

  ghost predicate FiresBetween(h: seq<Event>, a: nat, b: nat) {
    exists i :: a < i < b && i < |h| && h[i].TimerFires?
  }

  /** From a Receive on the loop accumulates until its timer fires, or returns. */
  lemma {:induction false} AccumulatesFrom(h: seq<Event>, a: nat)
    requires Run(h) && a < |h| && h[a].Receive? && !FiresBetween(h, a, |h|)
    ensures After(h).loop.Accumulating? || After(h).loop.Returned?
    ensures NoWriteBetween(h, a, |h|)
  {
    if a < |h| - 1 {
      var g := Front(h);
      assert g[a] == h[a];
      assert forall i :: a < i < |g| ==> !h[i].TimerFires? && g[i] == h[i];
      AccumulatesFrom(g, a);
      assert !h[|h| - 1].TimerFires?;
    }
  }

  /** Debouncing: no write begins between a token and the end of the window it opens. */
  lemma WindowThenWrite(h: seq<Event>, a: nat, w: nat)
    requires Run(h) && a < w < |h| && h[a].Receive? && h[w].BeginWrite?
    ensures FiresBetween(h, a, w)
  {
    RunsArePrefixClosed(h, w);
    RunsArePrefixClosed(h, w + 1);
    assert Front(h[..w + 1]) == h[..w] && Last(h[..w + 1]) == h[w];
    if !FiresBetween(h[..w], a, w) {
      AccumulatesFrom(h[..w], a);
    }
    var i :| a < i < w && i < |h[..w]| && h[..w][i].TimerFires?;
    assert h[i].TimerFires?;
  }

  lemma {:induction false} RunsArePrefixClosed(h: seq<Event>, n: nat)
    requires Run(h) && n <= |h|
    ensures Run(h[..n])
  {
    if n < |h| {
      assert h[..n] == Front(h)[..n];
      RunsArePrefixClosed(Front(h), n);
    } else {
      assert h[..n] == h;
    }
  }

  /** The write that covers the i-th event: the first to begin after it. */
  ghost predicate Covers(h: seq<Event>, i: nat, w: nat) {
    i < w < |h| && h[w].BeginWrite? && NoWriteBetween(h, i, w)
  }

  /** All events of one window, from its token to the firing of its timer, are covered by one
      and the same write, which covers the token too. */
  lemma OneWriteForAWindow(h: seq<Event>, a: nat, f: nat, i: nat, j: nat, w: nat, w': nat)
    requires Run(h) && a < f < |h| && h[a].Receive? && h[f].TimerFires? && !FiresBetween(h, a, f)
    requires a <= i <= f && a <= j <= f && Covers(h, i, w) && Covers(h, j, w')
    ensures w == w' > f && Covers(h, a, w)
  {
    RunsArePrefixClosed(h, f);
    assert !FiresBetween(h[..f], a, f) by {
      assert forall n :: 0 <= n < f ==> h[..f][n] == h[n];
    }
    AccumulatesFrom(h[..f], a);
    forall n | a < n <= f
      ensures !h[n].BeginWrite?
    {
      assert n < f ==> h[..f][n] == h[n];
    }
  }

  function Windows(h: seq<Event>): nat {
    if h == [] then 0 else Windows(Front(h)) + if Last(h).TimerFires? then 1 else 0
  }

  function Tokens(h: seq<Event>): nat {
    if h == [] then 0 else Tokens(Front(h)) + if Last(h).Receive? then 1 else 0
  }

  /** So writes are counted by windows, not by events: one at start-up and one for each window
      that ended, but for the one about to begin. A window is opened by a token and an event
      that comes before it ends does not open another. */
  lemma {:induction false} WritesAreWindows(h: seq<Event>)
    requires Run(h)
    ensures Writes(h) + (if After(h).loop.Starting? || After(h).loop.Due? then 1 else 0) == 1 + Windows(h)
    ensures Windows(h) + (if After(h).loop.Accumulating? then 1 else 0) <= Tokens(h)
    ensures Tokens(h) <= Windows(h) + 1
    ensures After(h).loop.Accumulating? || After(h).loop.Returned? || Tokens(h) == Windows(h)
  {
    if h != [] {
      WritesAreWindows(Front(h));
    }
  }

  /** Two events, one write: the second falls in the window that the first one opened. */
  lemma TwoEventsOneWrite() returns (h: seq<Event>)
    ensures Run(h) && Arrivals(h) == 2 && Writes(h) == 2 && After(h) == State(Waiting, false, true, false)
    ensures h == [BeginWrite, EndWrite, Arrive(true), Receive, Arrive(true), Drain, TimerFires, BeginWrite, EndWrite]
  {
    h := Then([], BeginWrite);
    h := Then(h, EndWrite);
    h := Then(h, Arrive(true));
    h := Then(h, Receive);
    assert Arrivals(h) == 1 && Writes(h) == 1;
    h := Then(h, Arrive(true));
    h := Then(h, Drain);
    assert Arrivals(h) == 2 && Writes(h) == 1;
    h := Then(h, TimerFires);
    h := Then(h, BeginWrite);
    h := Then(h, EndWrite);
  }

  // ---------------------------------------------------------------- shutdown

  /** Nothing is outstanding, or the loop is committed to a write before it looks at the
      context again. */
  predicate Covered(s: State) {
    s.clean || s.loop.Starting? || s.loop.Due?
  }

  /** h goes on from g without any further relevant event. */
  ghost predicate GoesOn(g: seq<Event>, h: seq<Event>) {
    g <= h && Run(h) && forall i :: |g| <= i < |h| ==> h[i] != Arrive(true)
  }

  lemma {:induction false} CoveredStays(g: seq<Event>, h: seq<Event>)
    requires Run(g) && GoesOn(g, h) && Covered(After(g))
    ensures Covered(After(h))
  {
    if |g| < |h| {
      assert g <= Front(h) && h == Front(h) + [Last(h)];
      CoveredStays(g, Front(h));
    } else {
      assert g == h;
    }
  }

  /** From any state in which the context is cancelled the loop can return, and if something
      is outstanding that no write is committed to, without writing. */
  lemma CanReturn(g: seq<Event>) returns (h: seq<Event>)
    requires Run(g) && After(g).cancelled && !After(g).loop.Returned?
    ensures GoesOn(g, h) && After(h).loop.Returned?
    ensures !Covered(After(g)) ==> !After(h).clean
  {
    h := g;
    if After(h).loop.Due? || After(h).loop.Starting? {
      h := Then(h, BeginWrite);
    }
    if After(h).loop.Writing? {
      h := Then(h, EndWrite);
    }
    h := Then(h, SeeCancel);
  }

  /** When shutting down flushes pending work. g ends with the cancellation, or with the last
      relevant event if that came later. Every way to go on and return has written after
      every event if and only if at that moment nothing was outstanding or the loop was
      committed to a write. */
  lemma ShutdownFlushesIff(g: seq<Event>)
    requires Run(g) && After(g).cancelled && !After(g).loop.Returned?
    ensures Covered(After(g)) <==>
      forall h :: GoesOn(g, h) && After(h).loop.Returned? ==> !exists i :: Unseen(h, i)
  {
    forall h | GoesOn(g, h) && After(h).loop.Returned?
      ensures After(h).clean <==> !exists i :: Unseen(h, i)
      ensures Covered(After(g)) ==> After(h).clean
    {
      CleanMeansSeen(h);
      if Covered(After(g)) {
        CoveredStays(g, h);
      }
    }
    if !Covered(After(g)) {
      var h := CanReturn(g);
    }
  }

  /** A run that loses an event: it arrives while the loop waits, the context is cancelled,
      and the loop sees that first. */
  lemma ShutdownDoesNotFlush() returns (h: seq<Event>)
    ensures h == [BeginWrite, EndWrite, Arrive(true), Cancel, SeeCancel]
    ensures Run(h) && After(h).loop.Returned? && Unseen(h, 2)
    ensures Run(h[..4]) && After(h[..4]) == State(Waiting, true, false, true)
  {
    h := Then([], BeginWrite);
    h := Then(h, EndWrite);
    h := Then(h, Arrive(true));
    h := Then(h, Cancel);
    var g := h;
    h := Then(h, SeeCancel);
    assert h[..4] == g;
  }

  lemma Then(h: seq<Event>, e: Event) returns (h': seq<Event>)
    requires Run(h) && Enabled(After(h), e)
    ensures h' == h + [e] && Run(h') && After(h') == Apply(After(h), e)
    ensures Arrivals(h') == Arrivals(h) + if e == Arrive(true) then 1 else 0
    ensures Writes(h') == Writes(h) + if e.BeginWrite? then 1 else 0
  {
    h' := h + [e];
    assert Front(h') == h;
  }
}
