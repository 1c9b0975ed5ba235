/** Account lockout across the password and the second-factor step
    (internal/auth/handler.go, totp_handler.go, store.go), for handlers that run
    one after another. */
module Lockout {
  import opened Common

  const THRESHOLD := 5
  const MINUTE: Time := 60_000_000_000
  const MAX_DURATION: Time := 15 * MINUTE

  function Pow2(n: nat): (p: nat)
    ensures p > n
  {
    if n == 0 then 1 else 2 * Pow2(n - 1)
  }

  /** The lock that follows the attempts-th consecutive failure. The shift is capped. */
  function LockDuration(attempts: int): Time {
    if attempts < THRESHOLD then 0
    else
      var shift := if attempts - THRESHOLD > 8 then 8 else attempts - THRESHOLD;
      var dur := MINUTE * Pow2(shift);
      if dur > MAX_DURATION then MAX_DURATION else dur
  }

  /** Capping the shift changes nothing: the lock doubles from one minute up to fifteen. */
  lemma LockDurationDoubles(n: int)
    requires n >= THRESHOLD
    ensures LockDuration(n) == if Pow2(n - THRESHOLD) < 15 then Pow2(n - THRESHOLD) * MINUTE else 15 * MINUTE
    ensures MINUTE <= LockDuration(n) <= LockDuration(n + 1)
  {
    Pow2Grows(n - THRESHOLD);
    assert Pow2(8) == 256 by {
      assert Pow2(4) == 16;
    }
    if n - THRESHOLD > 8 {
      Pow2Monotone(8, n - THRESHOLD);
    }
  }

  /** The policy in figures, in nanoseconds: four failures never lock; the fifth to the ninth
      lock for one, two, four, eight and fifteen minutes, and every further one for fifteen. */
  lemma LocksAre(n: int)
    ensures n <= 4 ==> LockDuration(n) == 0
    ensures LockDuration(5) == 60_000_000_000 && LockDuration(6) == 120_000_000_000
    ensures LockDuration(7) == 240_000_000_000 && LockDuration(8) == 480_000_000_000
    ensures n >= 9 ==> LockDuration(n) == 900_000_000_000
  {
    assert Pow2(0) == 1 && Pow2(1) == 2 && Pow2(2) == 4 && Pow2(3) == 8 && Pow2(4) == 16;
    if n >= 9 {
      LockDurationDoubles(n);
      Pow2Monotone(4, n - THRESHOLD);
    }
  }

  /** An account is locked only by its fifth failure in a row or a later one, and by each of
      them from that instant on. */
  lemma LockedIff(u: User, fs: seq<Time>, now: Time)
    requires Accounted(u, fs)
    ensures LockedAt(u, now) <==> |fs| >= 5 && now < Last(fs) + LockDuration(|fs|)
  {
  }

  lemma {:induction false} Pow2Grows(n: nat)
    ensures Pow2(n) >= 1 && Pow2(n + 1) == 2 * Pow2(n)
  {
  }

  lemma {:induction false} Pow2Monotone(m: nat, n: nat)
    requires m <= n
    ensures Pow2(m) <= Pow2(n)
  {
    if m < n {
      Pow2Monotone(m, n - 1);
    }
  }

  // ------------------------------------------------------------- the accounts

  datatype User = User(failed: nat, lockedUntil: Option<Time>, disabled: bool)

  /** How the second factor stands when the password has been accepted. */
  datatype SecondFactor = NotWired | ReadFailed | NotEnabled | Enabled(trustedDevice: bool)

  datatype Reply =
    | InvalidCredentials | ChallengeInvalid | InvalidCode | Locked(until: Time) | ServerError | NotConfigured
    | TotpRequired | Session

  /** What the user store answers: the account, no such user, or an error. */
  datatype Lookup = Found(id: Id) | NoUser | LookupFailed

  predicate LockedAt(u: User, now: Time) {
    u.lockedUntil.Some? && now < u.lockedUntil.value
  }

  /** The account may go on from the password: right, not locked, not disabled. */
  predicate Admits(u: User, passwordOk: bool, now: Time) {
    passwordOk && !LockedAt(u, now) && !u.disabled
  }

  /** The password alone is enough, or a trusted device stands in for the second factor. */
  predicate NeedsNoCode(factor: SecondFactor) {
    factor.NotWired? || factor.NotEnabled? || (factor.Enabled? && factor.trustedDevice)
  }

  /** The account cleared of its failures, if that write succeeds. */
  function Cleared(u: User, ok: bool): User {
    if ok then u.(failed := 0, lockedUntil := None) else u
  }

  /** failures holds the instants of the failures counted since the last clear. */
  class Accounts {
    var users: map<Id, User>
    ghost var failures: map<Id, seq<Time>>

    /** The stored counter and lock of every account are those of its failures; and each
        failure after the fifth came only when the lock before it had run out. */
    ghost predicate Valid()
      reads this
    {
      users.Keys == failures.Keys && forall id :: id in users ==> Accounted(users[id], failures[id])
    }

    constructor (ids: set<Id>)
      ensures Valid() && users.Keys == ids
    {
      users := map id | id in ids :: User(0, None, false);
      failures := map id | id in ids :: [];
    }

    /** The password step. checkedAt and stampedAt are the clock readings of the lock check and
        of the failure record; recordOk, issueOk and clearOk say whether the failure record,
        the cookie (of the session or of the challenge) and the clearing succeed. */
    method HandleLogin(
        found: Lookup, passwordOk: bool, factor: SecondFactor,
        checkedAt: Time, stampedAt: Time, recordOk: bool, issueOk: bool, clearOk: bool)
      returns (reply: Reply)
      requires Valid() && checkedAt <= stampedAt && (found.Found? ==> found.id in users)
      modifies this
      ensures Valid() && users.Keys == old(users).Keys
      ensures forall other :: other in users && found != Found(other) ==> users[other] == old(users)[other]
      ensures !found.Found? ==> reply == if found.NoUser? then InvalidCredentials else ServerError
      ensures found.Found? ==>
        var u, u' := old(users)[found.id], users[found.id];
        && (reply.Session? <==> Admits(u, passwordOk, checkedAt) && NeedsNoCode(factor) && issueOk)
        && (reply.TotpRequired? <==>
              Admits(u, passwordOk, checkedAt) && factor == Enabled(false) && issueOk)
        && (reply.Locked? <==> passwordOk && LockedAt(u, checkedAt))
        && (reply.Locked? ==> Some(reply.until) == u.lockedUntil)
        && (reply.ServerError? <==> Admits(u, passwordOk, checkedAt) && (factor.ReadFailed? || !issueOk))
        && (reply.InvalidCredentials? <==> !passwordOk || (u.disabled && !LockedAt(u, checkedAt)))
        && u' == (if reply.Session? then Cleared(u, clearOk)
                  else if !passwordOk && !LockedAt(u, checkedAt) && recordOk then AfterFailure(u, stampedAt)
                  else u)
    {
      if found.NoUser? {
        return InvalidCredentials;
      }
      if found.LookupFailed? {
        return ServerError;
      }
      var id := found.id;
      var u := users[id];
      var wasLocked := u.lockedUntil.Some? && checkedAt < u.lockedUntil.value;
      if !passwordOk {
        if !wasLocked {
          RecordLoginFailure(id, u, stampedAt, recordOk);
        }
        return InvalidCredentials;
      }
      if wasLocked {
        return Locked(u.lockedUntil.value);
      }
      if u.disabled {
        return InvalidCredentials;
      }
      if factor.ReadFailed? {
        return ServerError;
      }
      if factor.Enabled? && !factor.trustedDevice {
        return if issueOk then TotpRequired else ServerError;
      }
      if !issueOk {
        return ServerError;
      }
      if clearOk {
        ClearLoginFailures(id);
      }
      return Session;
    }

    /** The second-factor step of a challenge; verified is the verdict on the code, which has
        been consumed by then if it was right. */
    method HandleTOTPVerify(
        id: Id, factor: SecondFactor, verified: bool,
        checkedAt: Time, stampedAt: Time, recordOk: bool, issueOk: bool, clearOk: bool)
      returns (reply: Reply)
      requires Valid() && checkedAt <= stampedAt
      modifies this
      ensures Valid() && users.Keys == old(users).Keys
      ensures forall other :: other in users && other != id ==> users[other] == old(users)[other]
      ensures reply.NotConfigured? <==> factor.NotWired?
      ensures id !in users ==> reply == if factor.NotWired? then NotConfigured else ChallengeInvalid
      ensures id in users ==>
        var u, u' := old(users)[id], users[id];
        var open := !u.disabled && factor.Enabled?;
        && (reply.Session? <==> open && verified && !LockedAt(u, checkedAt) && issueOk)
        && (reply.Locked? <==> open && verified && LockedAt(u, checkedAt))
        && (reply.Locked? ==> Some(reply.until) == u.lockedUntil)
        && (reply.InvalidCode? <==> open && !verified)
        && (reply.ChallengeInvalid? <==> !factor.NotWired? && (u.disabled || factor.NotEnabled?))
        && (reply.ServerError? <==>
              !u.disabled && (factor.ReadFailed? || (open && verified && !LockedAt(u, checkedAt) && !issueOk)))
        && u' == (if !open || LockedAt(u, checkedAt) then u
                  else if verified then Cleared(u, clearOk)
                  else if recordOk then AfterFailure(u, stampedAt)
                  else u)
    {
      if factor.NotWired? {
        return NotConfigured;
      }
      if id !in users || users[id].disabled {
        return ChallengeInvalid;
      }
      var u := users[id];
      var wasLocked := u.lockedUntil.Some? && checkedAt < u.lockedUntil.value;
      if factor.ReadFailed? {
        return ServerError;
      }
      if !factor.Enabled? {
        return ChallengeInvalid;
      }
      if !verified {
        if !wasLocked {
          RecordLoginFailure(id, u, stampedAt, recordOk);
        }
        return InvalidCode;
      }
      if wasLocked {
        return Locked(u.lockedUntil.value);
      }
      if clearOk {
        ClearLoginFailures(id);
      }
      return if issueOk then Session else ServerError;
    }

    /** Counts a failure of an account that was not locked and, from the threshold on, locks it. */
    method RecordLoginFailure(id: Id, u: User, now: Time, ok: bool)
      requires Valid() && id in users && users[id] == u && !LockedAt(u, now)
      modifies this
      ensures Valid() && users == if ok then old(users)[id := AfterFailure(u, now)] else old(users)
    {
      var attempts := u.failed + 1;
      var locked: Option<Time> := None;
      var dur := LockDuration(attempts);
      LockDurationPositive(attempts);
      if dur > 0 {
        locked := Some(now + dur);
      }
      if ok {
        AccountedGrows(u, failures[id], now);
        var u' := u.(failed := attempts);
        users := users[id := if locked.Some? then u'.(lockedUntil := locked) else u'];
        failures := failures[id := failures[id] + [now]];
      }
    }

    /** After any success, a password change or an administrator's reset. */
    method ClearLoginFailures(id: Id)
      requires Valid() && id in users
      modifies this
      ensures Valid() && users == old(users)[id := old(users)[id].(failed := 0, lockedUntil := None)]
    {
      users := users[id := users[id].(failed := 0, lockedUntil := None)];
      failures := failures[id := []];
    }
  }

  /** What one counted failure should make of an account. */
  function AfterFailure(u: User, now: Time): User {
    u.(failed := u.failed + 1,
       lockedUntil := if u.failed + 1 >= THRESHOLD then Some(now + LockDuration(u.failed + 1)) else u.lockedUntil)
  }

  lemma LockDurationPositive(n: int)
    ensures LockDuration(n) > 0 <==> n >= THRESHOLD
  {
    if n >= THRESHOLD {
      LockDurationDoubles(n);
    }
  }

  /** A counter of n >= 5 means a lock of min(2^(n-5), 15) minutes from the last counted
      failure; a lower one means no lock. */
  ghost predicate Accounted(u: User, fs: seq<Time>) {
    && |fs| == u.failed
    && u.lockedUntil == (if u.failed >= THRESHOLD then Some(Last(fs) + LockDuration(u.failed)) else None)
    && forall i :: THRESHOLD <= i < |fs| ==> fs[i] >= fs[i - 1] + LockDuration(i)
  }

  lemma AccountedGrows(u: User, fs: seq<Time>, now: Time)
    requires Accounted(u, fs) && !LockedAt(u, now)
    ensures Accounted(AfterFailure(u, now), fs + [now])
  {
  }

  /** So guessing is slow, at either step and in any mixture: from the ninth counted failure
      in a row on there are at least fifteen minutes to every further one, and the time
      since the fifth adds up accordingly. */
  lemma {:induction false} GuessingIsSlow(u: User, fs: seq<Time>, k: nat)
    requires Accounted(u, fs) && 8 <= k < |fs|
    ensures fs[k] >= fs[4] + 900_000_000_000 * (k - 7)
    ensures k > 8 ==> fs[k] >= fs[k - 1] + 900_000_000_000
  {
    assert Pow2(0) == 1 && Pow2(1) == 2 && Pow2(2) == 4 && Pow2(3) == 8 && Pow2(4) == 16;
    if k == 8 {
      assert fs[5] >= fs[4] + LockDuration(5) && fs[6] >= fs[5] + LockDuration(6);
      assert fs[7] >= fs[6] + LockDuration(7) && fs[8] >= fs[7] + LockDuration(8);
    } else {
      GuessingIsSlow(u, fs, k - 1);
      LockDurationDoubles(k);
      Pow2Monotone(4, k - THRESHOLD);
    }
  }
}
