/** The sliding-window failure counter in front of the login endpoints
    (internal/auth/throttle.go). */
module Throttle {
  import opened Common

  // ---------------------------------------------- the window, as a plain filter

  /** The events of a history that are not older than the cutoff, in order. */
  function Since(h: seq<Time>, cutoff: Time): seq<Time> {
    if h == [] then [] else Since(Front(h), cutoff) + if Last(h) >= cutoff then [Last(h)] else []
  }

  ghost predicate Rising(h: seq<Time>) {
    forall i, j :: 0 <= i < j < |h| ==> h[i] <= h[j]
  }

  lemma SinceOneMore(h: seq<Time>, x: Time, cutoff: Time)
    ensures Since(h + [x], cutoff) == Since(h, cutoff) + if x >= cutoff then [x] else []
  {
    assert Front(h + [x]) == h;
  }

  /** The expired events come first, then the ones in the window. */
  ghost predicate Splits(h: seq<Time>, cutoff: Time, i: nat) {
    i <= |h| && (forall j :: 0 <= j < i ==> h[j] < cutoff) && (forall j :: i <= j < |h| ==> h[j] >= cutoff)
  }

  lemma {:induction false} SinceIsSuffix(h: seq<Time>, cutoff: Time, i: nat)
    requires Splits(h, cutoff, i)
    ensures Since(h, cutoff) == h[i..]
  {
    if h != [] {
      if i == |h| {
        SinceIsSuffix(Front(h), cutoff, i - 1);
        assert Front(h)[i - 1..] == [] && h[i..] == [];
      } else {
        SinceIsSuffix(Front(h), cutoff, i);
        assert h[i..] == Front(h)[i..] + [Last(h)];
      }
    }
  }

  /** Where the window begins in a rising history. */
  lemma {:induction false} WindowStart(h: seq<Time>, cutoff: Time) returns (i: nat)
    requires Rising(h)
    ensures Splits(h, cutoff, i) && Since(h, cutoff) == h[i..]
  {
    i := 0;
    while i < |h| && h[i] < cutoff
      invariant i <= |h| && forall j :: 0 <= j < i ==> h[j] < cutoff
    {
      i := i + 1;
    }
    assert forall j :: i <= j < |h| ==> h[i] <= h[j];
    SinceIsSuffix(h, cutoff, i);
  }

  // ------------------------------------------------------------- the throttle

  /** What Check reports; Panic is the index of an empty bucket when the limit is not positive. */
  datatype Verdict = Wait(ns: Time) | Panic

  /** The answer for a bucket already pruned at now. */
  function Answer(bucket: seq<Time>, window: Time, limit: int, now: Time): Verdict {
    if |bucket| < limit then Wait(0)
    else if bucket == [] then Panic
    else if bucket[0] + window - now < 0 then Wait(0)
    else Wait(bucket[0] + window - now)
  }

  function At(m: map<string, seq<Time>>, key: string): seq<Time> {
    if key in m then m[key] else []
  }

  /** Each bucket is what is left of its history, last filtered at the cutoff in pruned. */
  ghost predicate InStep(
    key: string, events: map<string, seq<Time>>, history: map<string, seq<Time>>, pruned: map<string, Time>,
    window: Time, clock: Time)
  {
    if key in pruned then
      pruned[key] <= clock - window && Filtered(At(events, key), At(history, key), pruned[key], clock)
    else key !in events && key !in history
  }

  ghost predicate AllInStep(
    events: map<string, seq<Time>>, history: map<string, seq<Time>>, pruned: map<string, Time>, window: Time,
    clock: Time)
  {
    (forall key :: key in events ==> events[key] != []) &&
    forall key :: InStep(key, events, history, pruned, window, clock)
  }

  /** history is everything ever recorded for each key, and clock the latest reading. */
  class Throttle {
    const window: Time
    const limit: int
    var events: map<string, seq<Time>>
    ghost var history: map<string, seq<Time>>
    ghost var pruned: map<string, Time>
    ghost var clock: Time

    /** Every bucket is its history filtered to a window, and no empty bucket is kept. */
    ghost predicate Valid()
      reads this
    {
      0 <= window && AllInStep(events, history, pruned, window, clock)
    }

    constructor (window: Time, limit: int)
      requires 0 <= window
      ensures Valid() && events == map[] && history == map[] && this.window == window && this.limit == limit
    {
      this.window, this.limit := window, limit;
      events, history, pruned, clock := map[], map[], map[], 0;
    }

    /** Drops what has left the window. Afterwards the bucket is exactly the recorded
        history filtered to the window that ends now. */
    method Prune(key: string, now: Time)
      requires Valid() && clock <= now
      modifies this`events, this`clock, this`pruned
      ensures Valid() && clock == now && pruned == old(pruned)[key := now - window]
      ensures At(events, key) == Since(At(history, key), now - window)
      ensures forall other :: other != key ==> At(events, other) == At(old(events), other)
    {
      var cutoff := now - window;
      assert InStep(key, events, history, pruned, window, clock);
      ghost var early := if key in pruned then pruned[key] else cutoff;
      var left := DropExpired(At(events, key), cutoff, At(history, key), early, clock);
      var events' := if left == [] then events - {key} else events[key := left];
      ghost var pruned' := pruned[key := cutoff];
      forall other
        ensures InStep(other, events', history, pruned', window, now)
      {
        assert InStep(other, events, history, pruned, window, clock);
      }
      events, pruned, clock := events', pruned', now;
    }

    /** The pruning loop on one bucket. */
    static method DropExpired(ev: seq<Time>, cutoff: Time, ghost h: seq<Time>, ghost early: Time, ghost now: Time)
      returns (left: seq<Time>)
      requires Filtered(ev, h, early, now) && early <= cutoff
      ensures left == Since(h, cutoff)
    {
      var i := 0;
      while i < |ev| && ev[i] < cutoff
        invariant i <= |ev| && forall j :: 0 <= j < i ==> ev[j] < cutoff
      {
        i := i + 1;
      }
      PruneFilters(ev, h, early, now, cutoff, i);
      left := ev[i..];
    }

    /** pruneAt and waitAt are the two clock readings the source takes. */
    method Check(key: string, pruneAt: Time, waitAt: Time) returns (v: Verdict)
      requires Valid() && clock <= pruneAt <= waitAt
      modifies this`events, this`clock, this`pruned
      ensures Valid() && clock == waitAt
      ensures v == Answer(Since(At(history, key), pruneAt - window), window, limit, waitAt)
      ensures At(events, key) == Since(At(history, key), pruneAt - window)
    {
      Prune(key, pruneAt);
      Tick(waitAt);
      var bucket := At(events, key);
      if |bucket| < limit {
        return Wait(0);
      }
      if |bucket| == 0 {
        return Panic;
      }
      var wait := bucket[0] + window - waitAt;
      v := Wait(if wait < 0 then 0 else wait);
    }

    /** Appends a failure, stamped with a second reading of the clock. */
    method Record(key: string, pruneAt: Time, stamp: Time)
      requires Valid() && clock <= pruneAt <= stamp
      modifies this
      ensures Valid() && clock == stamp
      ensures history == old(history)[key := At(old(history), key) + [stamp]]
      ensures At(events, key) == Since(At(history, key), pruneAt - window)
      ensures forall other :: other != key ==> At(events, other) == At(old(events), other)
    {
      Prune(key, pruneAt);
      Tick(stamp);
      var bucket := At(events, key) + [stamp];
      ghost var all := At(history, key) + [stamp];
      RecordKeepsStep(key, events, history, pruned, window, stamp, events[key := bucket], history[key := all],
                      pruneAt - window);
      events, history := events[key := bucket], history[key := all];
    }

    ghost method Tick(now: Time)
      requires Valid() && clock <= now
      modifies this`clock
      ensures Valid() && clock == now
    {
      forall other
        ensures InStep(other, events, history, pruned, window, now)
      {
        assert InStep(other, events, history, pruned, window, clock);
      }
      clock := now;
    }
  }

  /** bucket is the rising history h, all of it recorded by now, filtered at cutoff. */
  ghost predicate Filtered(bucket: seq<Time>, h: seq<Time>, cutoff: Time, now: Time) {
    Rising(h) && (h != [] ==> Last(h) <= now) && bucket == Since(h, cutoff)
  }

  lemma RecordFilters(
    bucket: seq<Time>, h: seq<Time>, cutoff: Time, stamp: Time, bucket': seq<Time>, h': seq<Time>)
    requires Filtered(bucket, h, cutoff, stamp) && cutoff <= stamp && bucket' == bucket + [stamp] && h' == h + [stamp]
    ensures Filtered(bucket', h', cutoff, stamp)
  {
    SinceOneMore(h, stamp, cutoff);
  }

  lemma RecordKeepsStep(
    key: string, events: map<string, seq<Time>>, history: map<string, seq<Time>>, pruned: map<string, Time>,
    window: Time, stamp: Time, events': map<string, seq<Time>>, history': map<string, seq<Time>>,
    cutoff: Time)
    requires key in pruned && pruned[key] == cutoff && 0 <= window && AllInStep(events, history, pruned, window, stamp)
    requires events' == events[key := At(events, key) + [stamp]]
    requires history' == history[key := At(history, key) + [stamp]]
    ensures At(events', key) == Since(At(history', key), cutoff)
    ensures forall other :: other != key ==> At(events', other) == At(events, other)
    ensures AllInStep(events', history', pruned, window, stamp)
  {
    assert InStep(key, events, history, pruned, window, stamp);
    RecordFilters(At(events, key), At(history, key), pruned[key], stamp, At(events', key), At(history', key));
    forall other
      ensures InStep(other, events', history', pruned, window, stamp)
    {
      assert InStep(other, events, history, pruned, window, stamp);
    }
  }

  lemma PruneFilters(bucket: seq<Time>, h: seq<Time>, early: Time, now: Time, cutoff: Time, i: nat)
    requires Filtered(bucket, h, early, now) && early <= cutoff && i <= |bucket|
    requires forall j :: 0 <= j < i ==> bucket[j] < cutoff
    requires i < |bucket| ==> bucket[i] >= cutoff
    ensures bucket[i..] == Since(h, cutoff)
  {
    var k := WindowStart(h, early);
    assert bucket == h[k..];
    assert forall j :: k <= j < |h| ==> h[j] == bucket[j - k];
    assert k + i < |h| ==> forall j :: k + i <= j < |h| ==> h[k + i] <= h[j];
    SinceIsSuffix(h, cutoff, k + i);
    assert h[k + i..] == bucket[i..];
  }

  // ------------------------------------------------- what the wait is worth

  /** What a later check would answer if nothing more were recorded. */
  function AnswerAt(h: seq<Time>, window: Time, limit: int, now: Time): Verdict {
    Answer(Since(h, now - window), window, limit, now)
  }

  /** The answer from the history itself: i is where the events not older than the window
      begin. Zero while fewer than the limit are in it; then the time until the oldest of
      them is a window old. */
  lemma AnswerMeans(h: seq<Time>, window: Time, limit: int, now: Time, i: nat)
    requires Rising(h) && i <= |h|
    requires forall j :: 0 <= j < i ==> now - h[j] > window
    requires forall j :: i <= j < |h| ==> now - h[j] <= window
    ensures |h| - i < limit ==> AnswerAt(h, window, limit, now) == Wait(0)
    ensures |h| - i >= limit && i < |h| ==> AnswerAt(h, window, limit, now) == Wait(window - (now - h[i]))
    ensures limit <= 0 && i == |h| ==> AnswerAt(h, window, limit, now) == Panic
  {
    SinceIsSuffix(h, now - window, i);
  }

  /** Until the oldest event of the window expires the window does not change. */
  lemma SameWindow(h: seq<Time>, cutoff: Time, later: Time)
    requires Rising(h) && Since(h, cutoff) != [] && cutoff <= later <= Since(h, cutoff)[0]
    ensures Since(h, later) == Since(h, cutoff)
  {
    var i := WindowStart(h, cutoff);
    assert h[i] == Since(h, cutoff)[0];
    assert forall j :: i <= j < |h| ==> h[i] <= h[j];
    SinceIsSuffix(h, later, i);
  }

  /** The instant from which a check made now says the caller may try again. */
  function Until(h: seq<Time>, window: Time, limit: int, now: Time): Time
    requires AnswerAt(h, window, limit, now).Wait?
  {
    now + AnswerAt(h, window, limit, now).ns
  }

  /** A full bucket goes on being full until its oldest event expires, counting down to it. */
  lemma CountsDown(h: seq<Time>, window: Time, limit: int, now: Time, t: Time)
    requires Rising(h) && 0 < |Since(h, now - window)| && limit <= |Since(h, now - window)|
    requires now <= t <= Since(h, now - window)[0] + window
    ensures AnswerAt(h, window, limit, t) == Wait(Since(h, now - window)[0] + window - t)
  {
    SameWindow(h, now - window, t - window);
  }

  /** The wait is the least delay after which, absent new records, a check answers
      zero, whatever the bucket holds. */
  lemma WaitIsLeast(h: seq<Time>, window: Time, limit: int, now: Time)
    requires Rising(h) && 0 <= window && AnswerAt(h, window, limit, now).Wait?
    ensures var until := Until(h, window, limit, now);
      && now <= until && AnswerAt(h, window, limit, until) == Wait(0)
      && forall t :: now <= t < until ==> AnswerAt(h, window, limit, t) == Wait(until - t)
  {
    var bucket, until := Since(h, now - window), Until(h, window, limit, now);
    if |bucket| >= limit {
      var i := WindowStart(h, now - window);
      assert bucket[0] == h[i];
      assert until == bucket[0] + window;
      forall t | now <= t <= until
        ensures AnswerAt(h, window, limit, t) == Wait(until - t)
      {
        CountsDown(h, window, limit, now, t);
      }
    }
  }

  /** A full bucket goes on being answered with zero from the end of the wait on exactly
      when there is an event at every instant from the oldest one to the limit-th newest
      (all of them equal, in practice). It is so when the bucket holds exactly the
      limit; a bucket over its limit usually makes the caller wait again. */
  lemma WaitIsFinal(h: seq<Time>, window: Time, limit: int, now: Time)
    requires Rising(h) && 0 <= window && 0 < limit <= |Since(h, now - window)|
    ensures var bucket := Since(h, now - window);
      (forall t :: Until(h, window, limit, now) <= t ==> AnswerAt(h, window, limit, t) == Wait(0)) <==>
      (forall e :: bucket[0] <= e <= bucket[|bucket| - limit] ==> e in bucket)
  {
    var i := WindowStart(h, now - window);
    var bucket := Since(h, now - window);
    assert bucket[0] == h[i] && bucket[|bucket| - limit] == h[|h| - limit];
    var until := Until(h, window, limit, now);
    if forall e :: bucket[0] <= e <= bucket[|bucket| - limit] ==> e in bucket {
      forall t | until <= t
        ensures AnswerAt(h, window, limit, t) == Wait(0)
      {
        ZeroFrom(h, window, limit, i, bucket, t);
      }
    }
    if forall t :: until <= t ==> AnswerAt(h, window, limit, t) == Wait(0) {
      forall e | bucket[0] <= e <= bucket[|bucket| - limit]
        ensures e in bucket
      {
        ZeroFrom(h, window, limit, i, bucket, e + window);
        assert AnswerAt(h, window, limit, e + window) == Wait(0);
      }
    }
  }

  /** After the end of the wait: zero once too few events are left, or just as one expires. */
  lemma ZeroFrom(h: seq<Time>, window: Time, limit: int, i: nat, bucket: seq<Time>, t: Time)
    requires Rising(h) && 0 <= window && i < |h| && bucket == h[i..] && 0 < limit <= |bucket| && h[i] <= t - window
    ensures AnswerAt(h, window, limit, t) == Wait(0) <==>
      t - window > bucket[|bucket| - limit] || t - window in bucket
  {
    var c := t - window;
    var j := WindowStart(h, c);
    if c in h[i..] {
      var n :| 0 <= n < |h| - i && h[i..][n] == c;
      assert h[i + n] == c;
      assert j <= i + n;
      assert h[j] == c;
    }
    if j < |h| {
      assert Since(h, c)[0] == h[j];
      if h[j] == c {
        assert h[j..][0] == c;
        assert i <= j ==> h[i..][j - i] == c;
        assert j < i ==> h[i] == c && h[i..][0] == c;
      }
    }
  }
}
