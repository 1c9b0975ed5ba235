/** The second factor of one user: verification of codes, and everything that
    concurrent requests may do to the step floor, the recovery codes, the epoch and
    the trusted devices (internal/auth/totp.go, store.go, handler.go, totp_handler.go). */
module SecondFactor {
  import opened Common

  // ------------------------------------------------------- VerifyTOTPCode

  const PERIOD := 30

  /** Go's integer division, which truncates toward zero. */
  function TruncDiv(a: int, b: nat): int
    requires b > 0
  {
    if a >= 0 then a / b else -(-a / b)
  }

  datatype Verdict = Step(step: int) | Unauthorized | GeneratorFailed

  /** A step at which a code may be accepted: above the floor and within one of the
      current one (section 5.2 of RFC 6238). */
  predicate Candidate(step: int, current: int, floor: int) {
    floor < step && current - 1 <= step <= current + 1
  }

  /** generate is the one-time password at a step, or None when the library fails. */
  method VerifyTOTPCode(generate: int -> Option<string>, code: string, nowSeconds: int, floor: int) returns (v: Verdict)
    ensures v.Step? ==>
      Candidate(v.step, TruncDiv(nowSeconds, PERIOD), floor) && code != "" && generate(v.step) == Some(code)
    ensures v.Unauthorized? && code != "" ==>
      forall s :: Candidate(s, TruncDiv(nowSeconds, PERIOD), floor) ==> generate(s) != Some(code)
    ensures v.GeneratorFailed? ==>
      exists s :: Candidate(s, TruncDiv(nowSeconds, PERIOD), floor) && generate(s) == None
    ensures v.Step? && nowSeconds >= 0 ==> 30 * (v.step - 1) <= nowSeconds < 30 * (v.step + 2)
    ensures v.Step? && nowSeconds < 0 ==> 30 * (v.step - 2) < nowSeconds <= 30 * (v.step + 1)
    ensures v.Step? ==> FirstTried(generate, code, TruncDiv(nowSeconds, PERIOD), floor, v.step)
  {
    if |code| == 0 {
      return Unauthorized;
    }
    var current := TruncDiv(nowSeconds, PERIOD);
    var deltas := [0, -1, 1];
    for i := 0 to |deltas|
      invariant forall j :: 0 <= j < i ==>
        Candidate(current + deltas[j], current, floor) ==> generate(current + deltas[j]) != Some(code)
    {
      var step := current + deltas[i];
      if step <= floor {
        continue;
      }
      var expected := generate(step);
      if expected.None? {
        assert Candidate(step, current, floor);
        return GeneratorFailed;
      }
      if code == expected.value {
        assert i > 0 ==> current + deltas[0] == current;
        assert i > 1 ==> current + deltas[1] == current - 1;
        return Step(step);
      }
    }
    forall s | Candidate(s, current, floor)
      ensures generate(s) != Some(code)
    {
      assert s == current + deltas[0] || s == current + deltas[1] || s == current + deltas[2];
    }
    return Unauthorized;
  }

  /** Steps are tried in the order current, previous, next. */
  predicate FirstTried(generate: int -> Option<string>, code: string, current: int, floor: int, step: int) {
    && (step != current ==> Candidate(current, current, floor) ==> generate(current) != Some(code))
    && (step == current + 1 ==> Candidate(current - 1, current, floor) ==> generate(current - 1) != Some(code))
  }

  /** The comment on the loop says a code consumes the highest step it matches at. It
      does exactly when the code is not also the next step's. */
  lemma HighestStepIff(generate: int -> Option<string>, code: string, current: int, floor: int, step: int)
    requires Candidate(step, current, floor) && generate(step) == Some(code)
    requires FirstTried(generate, code, current, floor, step)
    ensures (forall s :: Candidate(s, current, floor) && generate(s) == Some(code) ==> s <= step) <==>
      step == current + 1 || generate(current + 1) != Some(code)
  {
    assert Candidate(current + 1, current, floor);
  }

  // ---------------------------------------------------- one user, many requests

  datatype Device = Device(epoch: nat)

  /** A signed trusted-device cookie: the row it names and the epoch in its claims; and, for
      the record, when the request that minted it had read the user's state and when it
      inserted the row. */
  datatype Cookie = Cookie(device: Id, epoch: nat, readAt: nat, mintedAt: nat)

  /** Where a request stands. epoch is the one it read, at event number readAt. */
  datatype Request =
    | Read(current: int, floor: int, epoch: nat, readAt: nat)
    | Holding(step: int, current: int, epoch: nat, readAt: nat)
    | Falling(epoch: nat, readAt: nat)
    | Listed(hashes: set<string>, epoch: nat, readAt: nat)
    | Accepted(epoch: nat, readAt: nat)
    | LoginRead(epoch: nat, readAt: nat)
    | Finished

  datatype Acceptance = Acceptance(step: int, current: int)

  /** A login the cookie let through: when it had read the user's state, and when it was. */
  datatype Honour = Honour(cookie: Cookie, readAt: nat, at: nat)

  /** confirmed is the step whose code confirmed the enrolment, which the program does not
      keep; accepted and consumed are the steps since the floor was last reset and the recovery
      codes since they were last replaced; honoured is every login a cookie let through. */
  datatype State = State(
    enabled: bool, confirmed: int, lastStep: int, epoch: nat,
    codes: map<string, bool>,
    devices: map<Id, Device>,
    cookies: set<Cookie>,
    requests: map<Id, Request>,
    accepted: seq<Acceptance>, consumed: seq<string>, honoured: seq<Honour>)

  const INITIAL := State(false, 0, 0, 0, map[], map[], {}, map[], [], [], [])

  /** One atomic step of somebody's request: a database statement or transaction. */
  datatype Event =
    | ReadState(r: Id, nowSeconds: int)
    | Match(r: Id, step: int)
    | NoMatch(r: Id)
    | ConsumeStep(r: Id)
    | ListCodes(r: Id)
    | UseCode(r: Id, hash: string, matches: bool)
    | RememberDevice(r: Id, device: Id)
    | ReadForLogin(r: Id)
    | TryCookie(r: Id, cookie: Cookie, unexpired: bool)
    | Activate(hashes: set<string>, nowSeconds: int, step: int)
    | ReplaceCodes(hashes: set<string>)
    | Reset
    | RevokeDevice(device: Id)

  function Unused(codes: map<string, bool>): set<string> {
    set h | h in codes && !codes[h]
  }

  function Minted(hashes: set<string>): map<string, bool> {
    map h | h in hashes :: false
  }

  // What each event does; one that does not apply does nothing.

  function Moved(s: State, r: Id, q: Request): State {
    s.(requests := s.requests[r := q])
  }

  /** The code that confirms an enrolment is checked against a floor of zero, which stays. */
  function DoActivate(s: State, hashes: set<string>, nowSeconds: int, step: int): State {
    if Candidate(step, TruncDiv(nowSeconds, PERIOD), 0) then
      s.(enabled := true, confirmed := step, lastStep := 0, accepted := [], codes := Minted(hashes), consumed := [])
    else s
  }

  function DoReadState(s: State, r: Id, nowSeconds: int, n: nat): State {
    if s.enabled && r !in s.requests then Moved(s, r, Read(TruncDiv(nowSeconds, PERIOD), s.lastStep, s.epoch, n)) else s
  }

  function DoMatch(s: State, r: Id, step: int): State {
    if r in s.requests && s.requests[r].Read? && Candidate(step, s.requests[r].current, s.requests[r].floor) then
      Moved(s, r, Holding(step, s.requests[r].current, s.requests[r].epoch, s.requests[r].readAt))
    else s
  }

  function DoNoMatch(s: State, r: Id): State {
    if r in s.requests && s.requests[r].Read? then
      Moved(s, r, Falling(s.requests[r].epoch, s.requests[r].readAt))
    else s
  }

  /** The compare-and-set of the step floor. */
  function DoConsumeStep(s: State, r: Id): State {
    if r !in s.requests || !s.requests[r].Holding? then s
    else
      var q := s.requests[r];
      if s.lastStep < q.step then
        Moved(s, r, Accepted(q.epoch, q.readAt))
          .(lastStep := q.step, accepted := s.accepted + [Acceptance(q.step, q.current)])
      else Moved(s, r, Falling(q.epoch, q.readAt))
  }

  function DoListCodes(s: State, r: Id): State {
    if r in s.requests && s.requests[r].Falling? then
      Moved(s, r, Listed(Unused(s.codes), s.requests[r].epoch, s.requests[r].readAt))
    else s
  }

  function DoUseCode(s: State, r: Id, hash: string, matches: bool): State {
    if r !in s.requests || !s.requests[r].Listed? then s
    else
      var q := s.requests[r];
      if matches && hash in q.hashes && hash in s.codes && !s.codes[hash] then
        Moved(s, r, Accepted(q.epoch, q.readAt)).(codes := s.codes[hash := true], consumed := s.consumed + [hash])
      else Moved(s, r, Finished)
  }

  /** Device ids are fresh. */
  function DoRememberDevice(s: State, r: Id, device: Id, n: nat): State {
    if r in s.requests && s.requests[r].Accepted? && forall c :: c in s.cookies ==> c.device != device then
      var q := s.requests[r];
      Moved(s, r, Finished)
        .(devices := s.devices[device := Device(q.epoch)],
          cookies := s.cookies + {Cookie(device, q.epoch, q.readAt, n)})
    else s
  }

  function DoReadForLogin(s: State, r: Id, n: nat): State {
    if s.enabled && r !in s.requests then Moved(s, r, LoginRead(s.epoch, n)) else s
  }

  /** The cookie verifies, its epoch is the one the login read, and the row it names is
      there with the same epoch and has not expired. */
  predicate Trusts(s: State, q: Request, cookie: Cookie, unexpired: bool)
    requires q.LoginRead?
  {
    && cookie in s.cookies && cookie.epoch == q.epoch && unexpired
    && cookie.device in s.devices && s.devices[cookie.device].epoch == q.epoch
  }

  function DoTryCookie(s: State, r: Id, cookie: Cookie, unexpired: bool, n: nat): State {
    if r !in s.requests || !s.requests[r].LoginRead? then s
    else
      var q := s.requests[r];
      if Trusts(s, q, cookie, unexpired) then
        Moved(s, r, Finished).(honoured := s.honoured + [Honour(cookie, q.readAt, n)])
      else Moved(s, r, Finished)
  }

  /** The effect of an event that is the n-th of its run. */
  function Apply(s: State, e: Event, n: nat): State {
    match e
    case ReadState(r, nowSeconds) => DoReadState(s, r, nowSeconds, n)
    case Match(r, step) => DoMatch(s, r, step)
    case NoMatch(r) => DoNoMatch(s, r)
    case ConsumeStep(r) => DoConsumeStep(s, r)
    case ListCodes(r) => DoListCodes(s, r)
    case UseCode(r, hash, matches) => DoUseCode(s, r, hash, matches)
    case RememberDevice(r, device) => DoRememberDevice(s, r, device, n)
    case ReadForLogin(r) => DoReadForLogin(s, r, n)
    case TryCookie(r, cookie, unexpired) => DoTryCookie(s, r, cookie, unexpired, n)
    case Activate(hashes, nowSeconds, step) => DoActivate(s, hashes, nowSeconds, step)
    case ReplaceCodes(hashes) => s.(codes := Minted(hashes), consumed := [])
    case Reset =>
      s.(enabled := false, lastStep := 0, accepted := [], epoch := s.epoch + 1,
         codes := map[], consumed := [], devices := map[])
    case RevokeDevice(device) => s.(devices := s.devices - {device})
  }

  /** The state after any interleaving of any number of requests. */
  function After(h: seq<Event>): State {
    if h == [] then INITIAL else Apply(After(Front(h)), Last(h), |h| - 1)
  }

  // ------------------------------------------------------------- replay of steps

  /** Strictly increasing, ending at the stored floor, each within one of its verifier's step. */
  ghost predicate StepsInOrder(s: State) {
    && Increasing(s.accepted, s.lastStep)
    && (forall r :: r in s.requests && s.requests[r].Holding? ==> WithinOne(s.requests[r].step, s.requests[r].current))
  }

  ghost predicate Increasing(accepted: seq<Acceptance>, floor: int) {
    && (forall i, j :: 0 <= i < j < |accepted| ==> accepted[i].step < accepted[j].step)
    && floor == (if accepted == [] then 0 else Last(accepted).step)
    && (forall i :: 0 <= i < |accepted| ==> WithinOne(accepted[i].step, accepted[i].current))
  }

  predicate WithinOne(step: int, current: int) {
    current - 1 <= step <= current + 1
  }

  /** No code is accepted twice: between two resets of the floor the accepted steps
      strictly increase, whatever the interleaving. */
  lemma {:induction false} StepsNeverRepeat(h: seq<Event>)
    ensures StepsInOrder(After(h))
  {
    if h != [] {
      StepsNeverRepeat(Front(h));
      StepsStep(After(Front(h)), Last(h), |h| - 1);
    }
  }

  lemma OneMoreStep(accepted: seq<Acceptance>, floor: int, a: Acceptance)
    requires Increasing(accepted, floor) && floor < a.step && WithinOne(a.step, a.current)
    ensures Increasing(accepted + [a], a.step)
  {
  }

  lemma StepsConsume(s: State, r: Id)
    requires StepsInOrder(s)
    ensures StepsInOrder(DoConsumeStep(s, r))
  {
    if r in s.requests && s.requests[r].Holding? && s.lastStep < s.requests[r].step {
      OneMoreStep(s.accepted, s.lastStep, Acceptance(s.requests[r].step, s.requests[r].current));
    }
  }

  lemma StepsMatch(s: State, r: Id, step: int)
    requires StepsInOrder(s)
    ensures StepsInOrder(DoMatch(s, r, step))
  {
  }

  /** A request that moves without holding a step. */
  lemma StepsMoved(s: State, r: Id, q: Request)
    requires StepsInOrder(s) && !q.Holding?
    ensures StepsInOrder(Moved(s, r, q))
  {
  }

  lemma StepsStep(s: State, e: Event, n: nat)
    requires StepsInOrder(s)
    ensures StepsInOrder(Apply(s, e, n))
  {
    match e
    case Match(r, step) => StepsMatch(s, r, step);
    case ConsumeStep(r) => StepsConsume(s, r);
    case ReadState(r, nowSeconds) => StepsMoved(s, r, Read(TruncDiv(nowSeconds, PERIOD), s.lastStep, s.epoch, n));
    case ReadForLogin(r) => StepsMoved(s, r, LoginRead(s.epoch, n));
    case UseCode(r, hash, matches) => StepsUse(s, r, hash, matches);
    case RememberDevice(r, device) => StepsMoved(s, r, Finished);
    case TryCookie(r, cookie, unexpired) => StepsMoved(s, r, Finished);
    case NoMatch(r) => StepsNoMatch(s, r);
    case ListCodes(r) => StepsList(s, r);
    case _ =>
  }

  lemma StepsUse(s: State, r: Id, hash: string, matches: bool)
    requires StepsInOrder(s)
    ensures StepsInOrder(DoUseCode(s, r, hash, matches))
  {
    StepsMoved(s, r, Finished);
    if r in s.requests && s.requests[r].Listed? {
      StepsMoved(s, r, Accepted(s.requests[r].epoch, s.requests[r].readAt));
    }
  }

  lemma StepsNoMatch(s: State, r: Id)
    requires StepsInOrder(s)
    ensures StepsInOrder(DoNoMatch(s, r))
  {
    if r in s.requests && s.requests[r].Read? {
      StepsMoved(s, r, Falling(s.requests[r].epoch, s.requests[r].readAt));
    }
  }

  lemma StepsList(s: State, r: Id)
    requires StepsInOrder(s)
    ensures StepsInOrder(DoListCodes(s, r))
  {
    if r in s.requests && s.requests[r].Falling? {
      StepsMoved(s, r, Listed(Unused(s.codes), s.requests[r].epoch, s.requests[r].readAt));
    }
  }

  /** step is later than every step accepted since the floor was last reset. */
  predicate LaterThanAll(step: int, accepted: seq<Acceptance>) {
    step > 0 && forall i :: 0 <= i < |accepted| ==> accepted[i].step < step
  }

  lemma FloorMeans(accepted: seq<Acceptance>, floor: int, step: int)
    requires Increasing(accepted, floor) && step > 0
    ensures floor < step <==> LaterThanAll(step, accepted)
  {
    if accepted != [] {
      assert Last(accepted) == accepted[|accepted| - 1];
    }
  }

  /** Exactly which held steps are accepted. */
  lemma AcceptedIff(h: seq<Event>, r: Id)
    requires r in After(h).requests && After(h).requests[r].Holding? && After(h).requests[r].step > 0
    ensures var s, q := After(h), After(h).requests[r];
      After(h + [ConsumeStep(r)]).accepted ==
        if LaterThanAll(q.step, s.accepted) then s.accepted + [Acceptance(q.step, q.current)] else s.accepted
  {
    assert Front(h + [ConsumeStep(r)]) == h;
    StepsNeverRepeat(h);
    FloorMeans(After(h).accepted, After(h).lastStep, After(h).requests[r].step);
  }

  lemma {:induction false} ConfirmedIsPositive(h: seq<Event>)
    ensures After(h).enabled ==> After(h).confirmed > 0
  {
    if h != [] {
      ConfirmedIsPositive(Front(h));
      ConfirmedStep(After(Front(h)), Last(h), |h| - 1);
    }
  }

  lemma ConfirmedStep(s: State, e: Event, n: nat)
    ensures var t := Apply(s, e, n);
      (t.enabled == s.enabled && t.confirmed == s.confirmed) || !t.enabled || t.confirmed > 0
  {
  }

  /** The step of the code that confirmed the enrolment is not among those accepted since:
      its code is accepted once more, at a login, iff no code as late was in between. */
  lemma ConfirmedAgainIff(h: seq<Event>, r: Id)
    requires r in After(h).requests && After(h).requests[r].Holding? && After(h).enabled
    requires After(h).requests[r].step == After(h).confirmed
    ensures |After(h + [ConsumeStep(r)]).accepted| > |After(h).accepted| <==>
      forall i :: 0 <= i < |After(h).accepted| ==> After(h).accepted[i].step < After(h).confirmed
  {
    ConfirmedIsPositive(h);
    AcceptedIff(h, r);
  }

  // ------------------------------------------------------------- recovery codes

  ghost predicate CodesInOrder(s: State) {
    UsedOnce(s.codes, s.consumed)
  }

  ghost predicate UsedOnce(codes: map<string, bool>, consumed: seq<string>) {
    && (forall i, j :: 0 <= i < j < |consumed| ==> consumed[i] != consumed[j])
    && (forall i :: 0 <= i < |consumed| ==> consumed[i] in codes && codes[consumed[i]])
  }

  /** Between two replacements of the codes no recovery code is consumed twice. */
  lemma {:induction false} CodesNeverRepeat(h: seq<Event>)
    ensures CodesInOrder(After(h))
  {
    if h != [] {
      CodesNeverRepeat(Front(h));
      CodesStep(After(Front(h)), Last(h), |h| - 1);
    }
  }

  lemma OneMoreCode(codes: map<string, bool>, consumed: seq<string>, hash: string)
    requires UsedOnce(codes, consumed) && hash in codes && !codes[hash]
    ensures UsedOnce(codes[hash := true], consumed + [hash])
  {
    assert hash !in consumed;
  }

  lemma CodesStep(s: State, e: Event, n: nat)
    requires CodesInOrder(s)
    ensures CodesInOrder(Apply(s, e, n))
  {
    if e.UseCode? && e.hash in s.codes && !s.codes[e.hash] {
      OneMoreCode(s.codes, s.consumed, e.hash);
    }
  }

  // Which recovery codes are accepted, from the events alone.

  /** The n-th event replaces the codes: an enrolment, new codes, or a reset. */
  predicate Replaces(h: seq<Event>, n: nat)
    requires n < |h|
  {
    match h[n]
    case Activate(_, nowSeconds, step) => Candidate(step, TruncDiv(nowSeconds, PERIOD), 0)
    case ReplaceCodes(_) => true
    case Reset => true
    case _ => false
  }

  /** And hash is one of the new ones. */
  predicate Issues(h: seq<Event>, n: nat, hash: string)
    requires n < |h|
  {
    Replaces(h, n) && !h[n].Reset? && hash in h[n].hashes
  }

  /** The n-th event is an accepted use of the code. */
  ghost predicate Spends(h: seq<Event>, n: nat, hash: string)
    requires n < |h|
  {
    h[n].UseCode? && h[n].hash == hash && After(h[..n + 1]).consumed == After(h[..n]).consumed + [hash]
  }

  /** hash was issued by the newest replacement among the first n events, and not spent since. */
  ghost predicate OnOffer(h: seq<Event>, n: nat, hash: string)
    requires n <= |h|
  {
    exists k :: 0 <= k < n && OfferedSince(h, k, n, hash)
  }

  ghost predicate OfferedSince(h: seq<Event>, k: nat, n: nat, hash: string)
    requires k < n <= |h|
  {
    Issues(h, k, hash) && forall j :: k < j < n ==> !Replaces(h, j) && !Spends(h, j, hash)
  }

  lemma OfferStep(h: seq<Event>, n: nat, hash: string)
    requires n < |h|
    ensures OnOffer(h, n + 1, hash) <==>
      Issues(h, n, hash) || (OnOffer(h, n, hash) && !Replaces(h, n) && !Spends(h, n, hash))
  {
    if OnOffer(h, n + 1, hash) && !Issues(h, n, hash) {
      var k :| 0 <= k < n + 1 && OfferedSince(h, k, n + 1, hash);
      assert k < n && OfferedSince(h, k, n, hash);
    }
    if Issues(h, n, hash) {
      assert OfferedSince(h, n, n + 1, hash);
    } else if OnOffer(h, n, hash) && !Replaces(h, n) && !Spends(h, n, hash) {
      var k :| 0 <= k < n && OfferedSince(h, k, n, hash);
      assert OfferedSince(h, k, n + 1, hash);
    }
  }

  /** What one event does to the codes and to the record of those spent. */
  lemma CodeStep(s: State, e: Event, n: nat, hash: string)
    ensures var t := Apply(s, e, n);
      var anew := e.ReplaceCodes? || e.Reset? ||
                      (e.Activate? && Candidate(e.step, TruncDiv(e.nowSeconds, PERIOD), 0));
      && (anew ==>
            (hash in t.codes <==> !e.Reset? && hash in e.hashes) && (hash in t.codes ==> !t.codes[hash]) &&
            t.consumed == [])
      && (!anew && t.consumed == s.consumed ==> t.codes == s.codes)
      && (!anew && t.consumed != s.consumed ==>
            e.UseCode? && e.matches && e.hash in s.codes && !s.codes[e.hash] &&
            t.consumed == s.consumed + [e.hash] && t.codes == s.codes[e.hash := true])
  {
  }

  /** The code is stored and not marked as used. */
  predicate Open(s: State, hash: string) {
    hash in s.codes && !s.codes[hash]
  }

  /** The stored codes that are not marked are exactly those on offer. */
  lemma {:induction false} OpenIsOnOffer(h: seq<Event>, n: nat, hash: string)
    requires n <= |h|
    ensures Open(After(h[..n]), hash) <==> OnOffer(h, n, hash)
  {
    if n > 0 {
      OpenIsOnOffer(h, n - 1, hash);
      PrefixGrows(h, n - 1);
      OfferStep(h, n - 1, hash);
      CodeStep(After(h[..n - 1]), h[n - 1], n - 1, hash);
      NoMoreThan(After(h[..n - 1]).consumed, hash);
    }
  }

  lemma NoMoreThan<T>(s: seq<T>, x: T)
    ensures s != s + [x]
    ensures forall y :: s + [x] == s + [y] ==> x == y
  {
    assert |s| != |s + [x]|;
    forall y | s + [x] == s + [y]
      ensures x == y
    {
      assert (s + [x])[|s|] == (s + [y])[|s|];
    }
  }

  /** r listed the codes at l, and nothing has become of it since. */
  ghost predicate Listing(h: seq<Event>, l: nat, r: Id) {
    && l < |h| && h[l] == ListCodes(r)
    && r in After(h[..l]).requests && After(h[..l]).requests[r].Falling?
    && forall j :: l < j < |h| ==> !Concerns(h[j], r)
  }

  /** The event is one of the request's own. */
  predicate Concerns(e: Event, r: Id) {
    !e.Activate? && !e.ReplaceCodes? && !e.Reset? && !e.RevokeDevice? && e.r == r
  }

  lemma OthersLeaveAlone(s: State, e: Event, n: nat, r: Id)
    requires r in s.requests && !Concerns(e, r)
    ensures r in Apply(s, e, n).requests && Apply(s, e, n).requests[r] == s.requests[r]
  {
  }

  lemma AfterNext(h: seq<Event>, n: nat)
    requires n < |h|
    ensures After(h[..n + 1]) == Apply(After(h[..n]), h[n], n)
  {
    PrefixGrows(h, n);
  }

  /** Between its own events a request stays as it is. */
  lemma {:induction false} StaysSo(h: seq<Event>, k: nat, r: Id)
    requires k <= |h| && r in After(h[..k]).requests && forall j :: k <= j < |h| ==> !Concerns(h[j], r)
    ensures r in After(h).requests && After(h).requests[r] == After(h[..k]).requests[r]
  {
    if k == |h| {
      assert h[..k] == h;
    } else {
      assert Front(h)[..k] == h[..k];
      StaysSo(Front(h), k, r);
      OthersLeaveAlone(After(Front(h)), Last(h), |h| - 1, r);
    }
  }

  lemma ListStep(s: State, r: Id, n: nat)
    requires r in s.requests && s.requests[r].Falling?
    ensures var t := Apply(s, ListCodes(r), n);
      r in t.requests && t.requests[r].Listed? && t.requests[r].hashes == Unused(s.codes)
  {
  }

  lemma ListedThen(h: seq<Event>, l: nat, r: Id)
    requires Listing(h, l, r)
    ensures r in After(h).requests && After(h).requests[r].Listed?
    ensures After(h).requests[r].hashes == Unused(After(h[..l]).codes)
  {
    AfterNext(h, l);
    ListStep(After(h[..l]), r, l);
    StaysSo(h, l + 1, r);
  }

  lemma UseStep(s: State, r: Id, hash: string, matches: bool, n: nat)
    requires r in s.requests && s.requests[r].Listed?
    ensures var t := Apply(s, UseCode(r, hash, matches), n);
      var accepted := matches && hash in s.requests[r].hashes && Open(s, hash);
      && t.consumed == (if accepted then s.consumed + [hash] else s.consumed)
      && r in t.requests && (t.requests[r].Accepted? <==> accepted)
  {
  }

  /** Exactly which recovery codes are accepted, in every run: those that match, that were on
      offer when the request listed the codes, and that still are. */
  lemma CodeAcceptedIff(h: seq<Event>, l: nat, r: Id, hash: string, matches: bool)
    requires Listing(h, l, r)
    ensures var t := After(h + [UseCode(r, hash, matches)]);
      var accepted := matches && OnOffer(h, l, hash) && OnOffer(h, |h|, hash);
      && t.consumed == (if accepted then After(h).consumed + [hash] else After(h).consumed)
      && r in t.requests && (t.requests[r].Accepted? <==> accepted)
  {
    ListedThen(h, l, r);
    OpenIsOnOffer(h, l, hash);
    OpenIsOnOffer(h, |h|, hash);
    assert h[..|h|] == h;
    var h' := Then(h, UseCode(r, hash, matches));
    UseStep(After(h), r, hash, matches, |h|);
  }

  /** An unused code of the enrolment, accepted. */
  lemma CodeWorks()
    ensures var h := [Activate({"h"}, 3000, 100), ReadState("r", 3600), NoMatch("r"), ListCodes("r")];
      After(h + [UseCode("r", "h", true)]).consumed == ["h"] && After(h + [UseCode("r", "h", false)]).consumed == []
  {
    var h1 := Then([], Activate({"h"}, 3000, 100));
    assert After(h1).codes == map["h" := false] && After(h1).requests == map[];
    var h2 := Then(h1, ReadState("r", 3600));
    var h3 := Then(h2, NoMatch("r"));
    assert After(h3).codes == map["h" := false] && After(h3).requests["r"].Falling?;
    var h4 := Then(h3, ListCodes("r"));
    assert h4 == [Activate({"h"}, 3000, 100), ReadState("r", 3600), NoMatch("r"), ListCodes("r")];
    assert "h" in After(h4).requests["r"].hashes;
    var h5 := Then(h4, UseCode("r", "h", true));
    var h6 := Then(h4, UseCode("r", "h", false));
  }

  // ---------------------------------------------------------- epochs and requests

  /** How many resets the first k events of h contain, for k from 0 to |h|. */
  function Resets(h: seq<Event>): (counts: seq<nat>)
    ensures |counts| == |h| + 1
  {
    if h == [] then [0]
    else
      var counts := Resets(Front(h));
      counts + [Last(counts) + if Last(h).Reset? then 1 else 0]
  }

  lemma {:induction false} ResetsBetween(h: seq<Event>, a: nat, b: nat)
    requires a <= b <= |h|
    ensures Resets(h)[a] <= Resets(h)[b]
    ensures Resets(h)[a] == Resets(h)[b] <==> forall k :: a <= k < b ==> !h[k].Reset?
  {
    if b < |h| {
      ResetsBetween(Front(h), a, b);
    } else if a < b {
      ResetsBetween(Front(h), a, b - 1);
    }
  }

  lemma {:induction false} ResetsPrefix(h: seq<Event>, k: nat)
    requires k <= |h|
    ensures Last(Resets(h[..k])) == Resets(h)[k]
  {
    if k == |h| {
      assert h[..k] == h;
    } else {
      assert h[..k] == Front(h)[..k];
      ResetsPrefix(Front(h), k);
    }
  }

  lemma {:induction false} EpochIsCount(h: seq<Event>)
    ensures After(h).epoch == Last(Resets(h))
  {
    if h != [] {
      EpochIsCount(Front(h));
      EpochStep(After(Front(h)), Last(h), |h| - 1);
    }
  }

  lemma EpochStep(s: State, e: Event, n: nat)
    ensures Apply(s, e, n).epoch == s.epoch + if e.Reset? then 1 else 0
  {
  }

  /** The epoch counts the disables and resets: it never falls, and every one raises it. */
  lemma EpochNeverFalls(h: seq<Event>, k: nat)
    requires k <= |h|
    ensures After(h[..k]).epoch <= After(h).epoch
    ensures k < |h| && h[k].Reset? ==> After(h[..k]).epoch < After(h).epoch
  {
    EpochIsCount(h);
    EpochIsCount(h[..k]);
    ResetsPrefix(h, k);
    ResetsBetween(h, k, |h|);
  }

  /** What was read at event number readAt of h is the number of resets before it. */
  ghost predicate ReadAt(h: seq<Event>, epoch: nat, readAt: nat) {
    readAt < |h| && Resets(h)[readAt] == epoch && (h[readAt].ReadState? || h[readAt].ReadForLogin?)
  }

  lemma ReadAtLater(h: seq<Event>, epoch: nat, readAt: nat)
    requires h != [] && ReadAt(Front(h), epoch, readAt)
    ensures ReadAt(h, epoch, readAt)
  {
    assert Front(h)[readAt] == h[readAt];
  }

  /** Every epoch a request holds was read when it says, a login's by a login. */
  ghost predicate RequestsRead(h: seq<Event>, requests: map<Id, Request>) {
    forall r :: r in requests && !requests[r].Finished? ==> RequestRead(h, requests[r])
  }

  ghost predicate RequestRead(h: seq<Event>, q: Request)
    requires !q.Finished?
  {
    ReadAt(h, q.epoch, q.readAt) && (q.LoginRead? ==> h[q.readAt].ReadForLogin?)
  }

  lemma {:induction false} RequestsAreRead(h: seq<Event>)
    ensures RequestsRead(h, After(h).requests)
  {
    if h != [] {
      var s, e, n := After(Front(h)), Last(h), |h| - 1;
      RequestsAreRead(Front(h));
      forall r | r in s.requests && !s.requests[r].Finished?
        ensures RequestRead(h, s.requests[r])
      {
        ReadAtLater(h, s.requests[r].epoch, s.requests[r].readAt);
        assert Front(h)[s.requests[r].readAt] == h[s.requests[r].readAt];
      }
      EpochIsCount(Front(h));
      assert Resets(h)[n] == Resets(Front(h))[n];
      RequestsStep(s, e, n, h);
    }
  }

  /** A request moves on with what it read, or begins by reading. */
  lemma RequestsStep(s: State, e: Event, n: nat, h: seq<Event>)
    requires |h| == n + 1 && h[n] == e && Resets(h)[n] == s.epoch && RequestsRead(h, s.requests)
    ensures RequestsRead(h, Apply(s, e, n).requests)
  {
    var t := Apply(s, e, n);
    if e.Activate? || e.ReplaceCodes? || e.Reset? || e.RevokeDevice? {
      assert t.requests == s.requests;
    } else if e.ReadState? || e.ReadForLogin? {
      ReadStep(s, e, n, h);
    } else if e.r in s.requests {
      MoveStep(s, e, n);
      assert forall r :: r in t.requests && r != e.r ==> t.requests[r] == s.requests[r];
    }
  }

  lemma ReadStep(s: State, e: Event, n: nat, h: seq<Event>)
    requires e.ReadState? || e.ReadForLogin?
    requires |h| == n + 1 && h[n] == e && Resets(h)[n] == s.epoch && RequestsRead(h, s.requests)
    ensures RequestsRead(h, Apply(s, e, n).requests)
  {
  }

  lemma MoveStep(s: State, e: Event, n: nat)
    requires !e.ReadState? && !e.ReadForLogin? && !e.Activate? && !e.ReplaceCodes? && !e.Reset? && !e.RevokeDevice?
    requires e.r in s.requests
    ensures var t, q := Apply(s, e, n), s.requests[e.r];
      && t.requests == s.requests[e.r := t.requests[e.r]]
      && var q' := t.requests[e.r];
         q' == q || q'.Finished? ||
         (!q.Finished? && !q'.LoginRead? && q'.epoch == q.epoch && q'.readAt == q.readAt)
  {
    assert s.requests[e.r := s.requests[e.r]] == s.requests;
  }

  /** Whether the factor is on: since some enrolment there was no reset. */
  ghost predicate Enrolled(h: seq<Event>, n: nat)
    requires n <= |h|
  {
    exists k :: 0 <= k < n && EnrolledAt(h, k) && forall j :: k < j < n ==> !h[j].Reset?
  }

  predicate EnrolledAt(h: seq<Event>, k: nat)
    requires k < |h|
  {
    h[k].Activate? && Candidate(h[k].step, TruncDiv(h[k].nowSeconds, PERIOD), 0)
  }

  lemma {:induction false} EnabledIff(h: seq<Event>, n: nat)
    requires n <= |h|
    ensures After(h[..n]).enabled <==> Enrolled(h, n)
  {
    if n > 0 {
      EnabledIff(h, n - 1);
      PrefixGrows(h, n - 1);
      if EnrolledAt(h, n - 1) {
        assert Enrolled(h, n);
      } else if Enrolled(h, n - 1) && !h[n - 1].Reset? {
        var k :| 0 <= k < n - 1 && EnrolledAt(h, k) && forall j :: k < j < n - 1 ==> !h[j].Reset?;
        assert forall j :: k < j < n ==> !h[j].Reset?;
      }
      EnabledStep(After(h[..n - 1]), h[n - 1], n - 1);
    }
  }

  lemma EnabledStep(s: State, e: Event, n: nat)
    ensures Apply(s, e, n).enabled <==>
      !e.Reset? && (s.enabled || (e.Activate? && Candidate(e.step, TruncDiv(e.nowSeconds, PERIOD), 0)))
  {
  }

  /** A verification or a login begins exactly while the factor is on: after a reset none does
      until the next enrolment. */
  lemma BeginsIff(h: seq<Event>, r: Id, nowSeconds: int)
    requires r !in After(h).requests
    ensures r in After(h + [ReadState(r, nowSeconds)]).requests <==> Enrolled(h, |h|)
    ensures r in After(h + [ReadForLogin(r)]).requests <==> Enrolled(h, |h|)
  {
    EnabledIff(h, |h|);
    assert h[..|h|] == h;
    var h1 := Then(h, ReadState(r, nowSeconds));
    var h2 := Then(h, ReadForLogin(r));
    BeginStep(After(h), r, nowSeconds, |h|);
  }

  lemma BeginStep(s: State, r: Id, nowSeconds: int, n: nat)
    requires r !in s.requests
    ensures r in Apply(s, ReadState(r, nowSeconds), n).requests <==> s.enabled
    ensures r in Apply(s, ReadForLogin(r), n).requests <==> s.enabled
  {
  }

  // Which steps are accepted, from the events alone.

  predicate ResetsFloor(h: seq<Event>, n: nat)
    requires n < |h|
  {
    h[n].Reset? || EnrolledAt(h, n)
  }

  predicate HoldsStep(s: State, r: Id, step: int) {
    r in s.requests && s.requests[r].Holding? && s.requests[r].step == step
  }

  predicate HasPassed(s: State, r: Id) {
    r in s.requests && s.requests[r].Accepted?
  }

  /** The n-th event is the acceptance of the step. */
  ghost predicate Passes(h: seq<Event>, n: nat, step: int)
    requires n < |h|
  {
    h[n].ConsumeStep? && HoldsStep(After(h[..n]), h[n].r, step) && HasPassed(After(h[..n + 1]), h[n].r)
  }

  /** Among the first n events no step as late was accepted since the last reset or enrolment. */
  ghost predicate IsLatest(h: seq<Event>, n: nat, step: int)
    requires n <= |h|
  {
    step > 0 && forall k, past :: 0 <= k < n && PassedSince(h, k, n, past) ==> past < step
  }

  ghost predicate PassedSince(h: seq<Event>, k: nat, n: nat, past: int)
    requires k < n <= |h|
  {
    Passes(h, k, past) && forall j :: k < j < n ==> !ResetsFloor(h, j)
  }

  lemma LatestStep(h: seq<Event>, n: nat, step: int)
    requires n < |h| && step > 0
    ensures IsLatest(h, n + 1, step) <==>
      ResetsFloor(h, n) || (IsLatest(h, n, step) && forall past :: Passes(h, n, past) ==> past < step)
  {
    var end := n + 1;
    if ResetsFloor(h, n) {
      forall k, past | 0 <= k < end
        ensures !PassedSince(h, k, end, past)
      {
        assert k <= n && ResetsFloor(h, n);
      }
    } else {
      LatestGoesOn(h, n, end, step);
    }
  }

  lemma LatestGoesOn(h: seq<Event>, n: nat, end: nat, step: int)
    requires n < |h| && end == n + 1 && !ResetsFloor(h, n)
    ensures IsLatest(h, end, step) <==>
      IsLatest(h, n, step) && forall past :: Passes(h, n, past) ==> past < step
  {
    forall k, past | 0 <= k < n
      ensures PassedSince(h, k, n, past) <==> PassedSince(h, k, end, past)
    {
    }
    forall past
      ensures PassedSince(h, n, end, past) <==> Passes(h, n, past)
    {
    }
  }

  /** What one event does to the floor. */
  lemma FloorStep(s: State, e: Event, n: nat)
    ensures var t := Apply(s, e, n);
      var resets := e.Reset? || (e.Activate? && Candidate(e.step, TruncDiv(e.nowSeconds, PERIOD), 0));
      var holds := e.ConsumeStep? && e.r in s.requests && s.requests[e.r].Holding?;
      && (resets ==> t.lastStep == 0)
      && (holds ==> (HasPassed(t, e.r) <==> s.lastStep < s.requests[e.r].step))
      && (holds && HasPassed(t, e.r) ==> t.lastStep == s.requests[e.r].step)
      && (!resets && !(holds && HasPassed(t, e.r)) ==> t.lastStep == s.lastStep)
  {
  }

  /** The floor is below exactly the steps later than all accepted. */
  lemma {:induction false} FloorIsLatest(h: seq<Event>, n: nat, step: int)
    requires n <= |h| && step > 0
    ensures After(h[..n]).lastStep < step <==> IsLatest(h, n, step)
  {
    if n > 0 {
      FloorIsLatest(h, n - 1, step);
      FloorNext(h, n - 1, step);
    }
  }

  lemma FloorNext(h: seq<Event>, n: nat, step: int)
    requires n < |h| && step > 0 && (After(h[..n]).lastStep < step <==> IsLatest(h, n, step))
    ensures After(h[..n + 1]).lastStep < step <==> IsLatest(h, n + 1, step)
  {
    var s, e := After(h[..n]), h[n];
    AfterNext(h, n);
    LatestStep(h, n, step);
    FloorStep(s, e, n);
    if e.ConsumeStep? && e.r in s.requests && s.requests[e.r].Holding? && HasPassed(Apply(s, e, n), e.r) {
      assert Passes(h, n, s.requests[e.r].step);
    }
  }

  /** r begins to verify at l, while the factor is on. */
  ghost predicate Reading(h: seq<Event>, l: nat, r: Id) {
    l < |h| && h[l].ReadState? && h[l].r == r && r !in After(h[..l]).requests && Enrolled(h, l)
  }

  /** r finds the code to be that of the step at m, and consumes it next. */
  ghost predicate Matching(h: seq<Event>, l: nat, m: nat, r: Id, step: int) {
    && l < m < |h| && h[m] == Match(r, step)
    && forall j :: l < j < |h| && j != m ==> !Concerns(h[j], r)
  }

  lemma ReadingStep(s: State, r: Id, nowSeconds: int, n: nat)
    requires s.enabled && r !in s.requests
    ensures var t := Apply(s, ReadState(r, nowSeconds), n);
      r in t.requests && t.requests[r] == Read(TruncDiv(nowSeconds, PERIOD), s.lastStep, s.epoch, n)
  {
  }

  lemma MatchingStep(s: State, r: Id, step: int, n: nat)
    requires r in s.requests && s.requests[r].Read?
    ensures Matched(Apply(s, Match(r, step), n).requests, r, step, s.requests[r].current, s.requests[r].floor)
  {
  }

  lemma ReadThen(h: seq<Event>, l: nat, m: nat, r: Id)
    requires Reading(h, l, r) && l < m <= |h| && forall j :: l < j < m ==> !Concerns(h[j], r)
    ensures r in After(h[..m]).requests && After(h[..m]).requests[r].Read?
    ensures After(h[..m]).requests[r].current == TruncDiv(h[l].nowSeconds, 30)
    ensures After(h[..m]).requests[r].floor == After(h[..l]).lastStep
  {
    EnabledIff(h, l);
    PrefixGrows(h, l);
    ReadingStep(After(h[..l]), r, h[l].nowSeconds, l);
    assert h[..m][..l + 1] == h[..l + 1];
    StaysSo(h[..m], l + 1, r);
  }

  /** r holds the step if that was within one of the current one and above the floor it read. */
  predicate Matched(requests: map<Id, Request>, r: Id, step: int, current: int, floor: int) {
    && r in requests && !requests[r].Accepted?
    && (requests[r].Holding? <==> Candidate(step, current, floor))
    && (requests[r].Holding? ==> requests[r].step == step)
  }

  lemma MatchedStill(a: map<Id, Request>, b: map<Id, Request>, r: Id, step: int, current: int, floor: int)
    requires Matched(a, r, step, current, floor) && r in b && b[r] == a[r]
    ensures Matched(b, r, step, current, floor)
  {
  }

  lemma AfterMatch(h: seq<Event>, m: nat, r: Id, step: int)
    requires m < |h| && h[m] == Match(r, step) && r in After(h[..m]).requests && After(h[..m]).requests[r].Read?
    ensures var q := After(h[..m]).requests[r];
      Matched(After(h[..m + 1]).requests, r, step, q.current, q.floor)
  {
    AfterNext(h, m);
    MatchingStep(After(h[..m]), r, step, m);
  }

  lemma MatchedAt(h: seq<Event>, l: nat, m: nat, r: Id, step: int)
    requires Reading(h, l, r) && Matching(h, l, m, r, step)
    ensures Matched(After(h[..m + 1]).requests, r, step, TruncDiv(h[l].nowSeconds, 30), After(h[..l]).lastStep)
  {
    ReadThen(h, l, m, r);
    AfterMatch(h, m, r, step);
  }

  lemma MatchedThen(h: seq<Event>, l: nat, m: nat, r: Id, step: int)
    requires Reading(h, l, r) && Matching(h, l, m, r, step)
    ensures Matched(After(h).requests, r, step, TruncDiv(h[l].nowSeconds, 30), After(h[..l]).lastStep)
  {
    MatchedAt(h, l, m, r, step);
    StaysSo(h, m + 1, r);
    MatchedStill(After(h[..m + 1]).requests, After(h).requests, r, step, TruncDiv(h[l].nowSeconds, 30),
                 After(h[..l]).lastStep);
  }

  lemma ConsumingStep(s: State, r: Id, n: nat)
    requires r in s.requests && !s.requests[r].Accepted?
    ensures HasPassed(Apply(s, ConsumeStep(r), n), r) <==>
      s.requests[r].Holding? && s.lastStep < s.requests[r].step
  {
  }

  /** Exactly which codes are accepted, in every run: those of a step within one of the current
      one, when no step as late has been accepted since the last enrolment or reset, neither
      when the request read the state nor when it consumes the step. */
  lemma StepAcceptedIff(h: seq<Event>, l: nat, m: nat, r: Id, step: int)
    requires Reading(h, l, r) && Matching(h, l, m, r, step)
    ensures var current := TruncDiv(h[l].nowSeconds, 30);
      HasPassed(After(h + [ConsumeStep(r)]), r) <==>
        current - 1 <= step <= current + 1 && IsLatest(h, l, step) && IsLatest(h, |h|, step)
  {
    MatchedThen(h, l, m, r, step);
    var h' := Then(h, ConsumeStep(r));
    ConsumingStep(After(h), r, |h|);
    if step > 0 {
      FloorIsLatest(h, l, step);
      FloorIsLatest(h, |h|, step);
      assert h[..|h|] == h;
    } else {
      FloorNeverNegative(h[..l]);
    }
  }

  lemma {:induction false} FloorNeverNegative(h: seq<Event>)
    ensures After(h).lastStep >= 0
  {
    if h != [] {
      FloorNeverNegative(Front(h));
      FloorStep(After(Front(h)), Last(h), |h| - 1);
    }
  }

  // ------------------------------------------------------------ trusted devices

  /** Since the cookie's row was inserted no reset and no revocation has removed it. */
  ghost predicate Kept(h: seq<Event>, c: Cookie, end: nat)
    requires end <= |h|
  {
    forall k :: c.mintedAt < k < end ==> !h[k].Reset? && h[k] != RevokeDevice(c.device)
  }

  /** The cookie was minted as it says, and its row is there iff nothing has removed it since. */
  ghost predicate CookieIs(h: seq<Event>, c: Cookie, devices: map<Id, Device>) {
    && ReadAt(h, c.epoch, c.readAt) && c.readAt < c.mintedAt < |h|
    && h[c.mintedAt].RememberDevice? && h[c.mintedAt].device == c.device
    && (c.device in devices <==> Kept(h, c, |h|))
    && (c.device in devices ==> devices[c.device].epoch == c.epoch)
  }

  ghost predicate CookiesAre(h: seq<Event>, cookies: set<Cookie>, devices: map<Id, Device>) {
    && (forall c :: c in cookies ==> CookieIs(h, c, devices))
    && (forall c, c' :: c in cookies && c' in cookies && c.device == c'.device ==> c == c')
  }

  lemma KeptStep(h: seq<Event>, c: Cookie)
    requires h != [] && c.mintedAt < |h| - 1
    ensures Kept(h, c, |h|) <==> Kept(Front(h), c, |h| - 1) && !Last(h).Reset? && Last(h) != RevokeDevice(c.device)
  {
    assert forall k :: 0 <= k < |h| - 1 ==> Front(h)[k] == h[k];
  }

  /** What one event does to an old cookie's row. */
  lemma CookieStep(h: seq<Event>, c: Cookie, before: map<Id, Device>, after: map<Id, Device>)
    requires h != [] && CookieIs(Front(h), c, before)
    requires Last(h).Reset? ==> after == map[]
    requires Last(h).RevokeDevice? ==> after == before - {Last(h).device}
    requires !Last(h).Reset? && !Last(h).RevokeDevice? ==> Get(after, c.device) == Get(before, c.device)
    ensures CookieIs(h, c, after)
  {
    ReadAtLater(h, c.epoch, c.readAt);
    KeptStep(h, c);
    assert Front(h)[c.mintedAt] == h[c.mintedAt];
  }

  lemma {:induction false} CookiesAreKept(h: seq<Event>)
    ensures CookiesAre(h, After(h).cookies, After(h).devices)
  {
    if h != [] {
      var s, t := After(Front(h)), After(h);
      CookiesAreKept(Front(h));
      DeviceStep(s, Last(h), |h| - 1);
      forall c | c in s.cookies
        ensures CookieIs(h, c, t.devices)
      {
        CookieStep(h, c, s.devices, t.devices);
      }
      if t.cookies != s.cookies {
        NewCookie(h);
      }
    }
  }

  /** What an event does to the rows and cookies. */
  lemma DeviceStep(s: State, e: Event, n: nat)
    ensures var t := Apply(s, e, n);
      && (e.Reset? ==> t.devices == map[]) && (e.RevokeDevice? ==> t.devices == s.devices - {e.device})
      && (t.cookies == s.cookies || e.RememberDevice?)
      && (t.cookies == s.cookies && !e.Reset? && !e.RevokeDevice? ==> t.devices == s.devices)
      && (t.cookies != s.cookies ==>
            e.r in s.requests && s.requests[e.r].Accepted? && (forall c :: c in s.cookies ==> c.device != e.device) &&
            var q := s.requests[e.r];
            t.cookies == s.cookies + {Cookie(e.device, q.epoch, q.readAt, n)} &&
            t.devices == s.devices[e.device := Device(q.epoch)])
  {
  }

  lemma NewCookie(h: seq<Event>)
    requires h != [] && After(h).cookies != After(Front(h)).cookies
    ensures forall c :: c in After(h).cookies && c !in After(Front(h)).cookies ==> CookieIs(h, c, After(h).devices)
  {
    var s, e, n := After(Front(h)), Last(h), |h| - 1;
    DeviceStep(s, e, n);
    RequestsAreRead(Front(h));
    var q := s.requests[e.r];
    ReadAtLater(h, q.epoch, q.readAt);
  }

  /** No reset falls between two reads. */
  ghost predicate SameGeneration(h: seq<Event>, a: nat, b: nat)
    requires a <= |h| && b <= |h|
  {
    forall k :: (a <= k < b || b <= k < a) ==> !h[k].Reset?
  }

  lemma SameEpoch(h: seq<Event>, epoch: nat, a: nat, epoch': nat, b: nat)
    requires ReadAt(h, epoch, a) && ReadAt(h, epoch', b)
    ensures epoch == epoch' <==> SameGeneration(h, a, b)
  {
    if a <= b {
      ResetsBetween(h, a, b);
    } else {
      ResetsBetween(h, b, a);
    }
  }

  /** Issued, of the generation the login read, and its row never removed. */
  ghost predicate Honourable(h: seq<Event>, cookie: Cookie, l: nat) {
    && cookie in After(h).cookies && cookie.readAt <= |h| && l <= |h|
    && SameGeneration(h, cookie.readAt, l) && Kept(h, cookie, |h|)
  }

  lemma TrustsIff(h: seq<Event>, r: Id, cookie: Cookie, unexpired: bool)
    requires r in After(h).requests && After(h).requests[r].LoginRead?
    ensures Trusts(After(h), After(h).requests[r], cookie, unexpired) <==>
      unexpired && Honourable(h, cookie, After(h).requests[r].readAt)
  {
    var s := After(h);
    RequestsAreRead(h);
    CookiesAreKept(h);
    assert RequestRead(h, s.requests[r]);
    if cookie in s.cookies {
      assert CookieIs(h, cookie, s.devices);
      SameEpoch(h, cookie.epoch, cookie.readAt, s.requests[r].epoch, s.requests[r].readAt);
    }
  }

  lemma TryStep(s: State, r: Id, cookie: Cookie, unexpired: bool, n: nat)
    requires r in s.requests && s.requests[r].LoginRead?
    ensures Apply(s, TryCookie(r, cookie, unexpired), n).honoured ==
      s.honoured +
      if Trusts(s, s.requests[r], cookie, unexpired) then [Honour(cookie, s.requests[r].readAt, n)] else []
  {
    Regroup(s.honoured, [], []);
  }

  /** Exactly when a cookie lets a login through: it and its row have not expired, no reset came
      between the read of the request that minted it and the login's own read, and neither a
      reset nor a revocation came after its row was inserted. */
  lemma HonouredIff(h: seq<Event>, r: Id, cookie: Cookie, unexpired: bool)
    requires r in After(h).requests && After(h).requests[r].LoginRead?
    ensures var l := After(h).requests[r].readAt;
      After(h + [TryCookie(r, cookie, unexpired)]).honoured ==
        After(h).honoured + if unexpired && Honourable(h, cookie, l) then [Honour(cookie, l, |h|)] else []
  {
    var h' := Then(h, TryCookie(r, cookie, unexpired));
    TryStep(After(h), r, cookie, unexpired, |h|);
    TrustsIff(h, r, cookie, unexpired);
  }

  /** What is on record of a login that a cookie let through. */
  ghost predicate HonourIs(h: seq<Event>, o: Honour) {
    && o.cookie.readAt < o.cookie.mintedAt < o.at < |h| && o.readAt < o.at
    && h[o.readAt].ReadForLogin? && h[o.cookie.mintedAt].RememberDevice? && h[o.at].TryCookie?
    && SameGeneration(h, o.cookie.readAt, o.readAt) && Kept(h, o.cookie, o.at)
  }

  lemma {:induction false} HonoursAre(h: seq<Event>)
    ensures forall i :: 0 <= i < |After(h).honoured| ==> HonourIs(h, After(h).honoured[i])
  {
    if h != [] {
      var s, t, e := After(Front(h)), After(h), Last(h);
      HonoursAre(Front(h));
      forall i | 0 <= i < |s.honoured|
        ensures HonourIs(h, s.honoured[i])
      {
        assert forall k :: 0 <= k < |h| - 1 ==> Front(h)[k] == h[k];
      }
      HonourStep(s, e, |h| - 1);
      if t.honoured != s.honoured {
        NewHonour(h);
      }
    }
  }

  lemma HonourStep(s: State, e: Event, n: nat)
    ensures var t := Apply(s, e, n);
      t.honoured == s.honoured ||
      (e.TryCookie? && e.r in s.requests && s.requests[e.r].LoginRead? &&
       Trusts(s, s.requests[e.r], e.cookie, e.unexpired) &&
       t.honoured == s.honoured + [Honour(e.cookie, s.requests[e.r].readAt, n)])
  {
  }

  lemma NewHonour(h: seq<Event>)
    requires h != [] && After(h).honoured != After(Front(h)).honoured
    ensures After(h).honoured != [] && HonourIs(h, Last(After(h).honoured))
  {
    var g, s, e := Front(h), After(Front(h)), Last(h);
    HonourStep(s, e, |g|);
    RequestsAreRead(g);
    CookiesAreKept(g);
    var q := s.requests[e.r];
    assert RequestRead(g, q) && CookieIs(g, e.cookie, s.devices);
    SameEpoch(g, e.cookie.epoch, e.cookie.readAt, q.epoch, q.readAt);
    assert forall k :: 0 <= k < |g| ==> g[k] == h[k];
  }

  /** A cookie minted from a read before a reset can still let a login through after it: but
      only a login that had read the user's state before the reset too, and only if the
      cookie's row was inserted after it, by a request that raced with it. */
  lemma ResetsRevokeDevices(h: seq<Event>, i: int, k: nat)
    requires 0 <= i < |After(h).honoured| && k < |h| && h[k].Reset?
    requires After(h).honoured[i].cookie.readAt < k < After(h).honoured[i].at
    ensures After(h).honoured[i].readAt < k < After(h).honoured[i].cookie.mintedAt
  {
    HonoursAre(h);
    assert HonourIs(h, After(h).honoured[i]);
  }

  /** So no login that reads the state after a reset is let through by a cookie whose minting
      request had read it before, and the other way round, whatever rows a race leaves. */
  lemma ReadsShareAGeneration(h: seq<Event>, i: int, k: nat)
    requires 0 <= i < |After(h).honoured|
    ensures var minted, used := After(h).honoured[i].cookie.readAt, After(h).honoured[i].readAt;
      (minted <= k < used || used <= k < minted) ==> k < |h| && !h[k].Reset?
  {
    HonoursAre(h);
    assert HonourIs(h, After(h).honoured[i]);
  }

  // ------------------------------------------------------------------ the races

  lemma Then(h: seq<Event>, e: Event) returns (h': seq<Event>)
    ensures h' == h + [e] && After(h') == Apply(After(h), e, |h|)
  {
    h' := h + [e];
    assert Front(h') == h;
  }

  /** A second factor accepted while the user is being reset: r read the state before. */
  function RaceStart(): seq<Event> {
    [Activate({}, 3000, 100), ReadState("r", 3000), Match("r", 100)]
  }

  lemma Started()
    ensures After(RaceStart()).requests == map["r" := Holding(100, 100, 0, 1)]
    ensures After(RaceStart()) ==
      INITIAL.(enabled := true, confirmed := 100, requests := map["r" := Holding(100, 100, 0, 1)])
  {
    var h1 := Then([], Activate({}, 3000, 100));
    assert After(h1) == INITIAL.(enabled := true, confirmed := 100);
    var h2 := Then(h1, ReadState("r", 3000));
    assert After(h2) == INITIAL.(enabled := true, confirmed := 100, requests := map["r" := Read(100, 0, 0, 1)]);
    var h3 := Then(h2, Match("r", 100));
    assert h3 == RaceStart();
  }

  /** Confirmed and logged in with one and the same code. */
  lemma EnrolmentCodeTwice()
    ensures var s := After(RaceStart() + [ConsumeStep("r")]);
      s.confirmed == 100 && s.accepted == [Acceptance(100, 100)] && s.requests == map["r" := Accepted(0, 1)]
  {
    Started();
    var h := Then(RaceStart(), ConsumeStep("r"));
  }

  /** The epoch test is needed: deleting the rows is not enough, since a request that
      read the state before a reset can insert its device afterwards. */
  lemma StaleDeviceRow()
    ensures var h := RaceStart() + [Reset, ConsumeStep("r"), RememberDevice("r", "d")];
      "d" in After(h).devices && After(h).devices["d"].epoch < After(h).epoch
  {
    Started();
    var h4 := Then(RaceStart(), Reset);
    var h5 := Then(h4, ConsumeStep("r"));
    assert After(h5).requests == map["r" := Accepted(0, 1)] && After(h5).devices == map[];
    var h6 := Then(h5, RememberDevice("r", "d"));
    assert h6 == RaceStart() + [Reset, ConsumeStep("r"), RememberDevice("r", "d")];
  }

  /** The same race, with a login that had read the state before the reset too. */
  lemma RaceWithLogin() returns (h: seq<Event>)
    ensures h == RaceStart() + [ReadForLogin("l"), Reset, ConsumeStep("r")]
    ensures After(h).requests == map["r" := Accepted(0, 1), "l" := LoginRead(0, 3)]
    ensures After(h).cookies == {} && After(h).honoured == [] && After(h).epoch == 1
  {
    Started();
    var h4 := Then(RaceStart(), ReadForLogin("l"));
    assert After(h4).requests == map["r" := Holding(100, 100, 0, 1), "l" := LoginRead(0, 3)];
    var h5 := Then(h4, Reset);
    h := Then(h5, ConsumeStep("r"));
    assert h == RaceStart() + [ReadForLogin("l"), Reset, ConsumeStep("r")];
  }

  /** The one way left: that login lets the racing cookie through, after the reset. */
  lemma LateHonour()
    ensures var h := RaceStart() + [ReadForLogin("l"), Reset, ConsumeStep("r")] +
                     [RememberDevice("r", "d"), TryCookie("l", Cookie("d", 0, 1, 6), true)];
      After(h).honoured == [Honour(Cookie("d", 0, 1, 6), 3, 7)] && h[4].Reset? && After(h).epoch == 1
  {
    var h6 := RaceWithLogin();
    var h7 := Then(h6, RememberDevice("r", "d"));
    assert After(h7).requests == map["r" := Finished, "l" := LoginRead(0, 3)];
    var h8 := Then(h7, TryCookie("l", Cookie("d", 0, 1, 6), true));
    assert h8 == h6 + [RememberDevice("r", "d"), TryCookie("l", Cookie("d", 0, 1, 6), true)];
  }
}
