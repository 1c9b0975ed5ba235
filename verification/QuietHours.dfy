/** Quiet hours: the weekly schedule inside which deliveries are deferred
    (internal/notifications/policy.go). */
module QuietHours {
  import opened Common

  const DAY := 1440
  const WEEK := 10080

  /** Local wall-clock position; Sunday is day 0. */
  datatype LocalTime = LocalTime(day: int, minute: int)

  predicate ValidLocal(t: LocalTime) {
    0 <= t.day < 7 && 0 <= t.minute < DAY
  }

  /** What a clock can show. */
  type Clock = t: LocalTime | ValidLocal(t) witness LocalTime(0, 0)

  datatype Window = Window(days: seq<int>, start: string, end: string)

  // ---------------------------------------------------------------- "HH:MM"

  predicate IsDigit(c: char) {
    '0' <= c <= '9'
  }

  /** The value of a run of decimal digits, or None if some character is not one. */
  function Digits(s: string): Option<nat> {
    if s == [] then Some(0)
    else
      var front := Digits(Front(s));
      if front.Some? && IsDigit(Last(s)) then Some(front.value * 10 + (Last(s) as int - '0' as int)) else None
  }

  /** strconv.Atoi: an optional sign and at least one digit. */
  function Atoi(s: string): Option<int> {
    var signed := s != [] && (s[0] == '+' || s[0] == '-');
    var body := if signed then s[1..] else s;
    var n := Digits(body);
    if body == [] || n.None? then None
    else
      var v: int := n.value;
      Some(if signed && s[0] == '-' then -v else v)
  }

  /** The sign counts, and an unsigned run of digits is its value. */
  lemma SignsMean(body: string)
    ensures body == "" || Digits(body).None? ==> Atoi("+" + body) == None && Atoi("-" + body) == None
    ensures body != "" && Digits(body).Some? ==>
      var n: int := Digits(body).value;
      Atoi(body) == Some(n) && Atoi("+" + body) == Some(n) && Atoi("-" + body) == Some(-n)
  {
    assert ("+" + body)[1..] == body && ("-" + body)[1..] == body;
    if body != "" && Digits(body).Some? {
      FirstIsDigit(body);
    }
  }

  lemma {:induction false} FirstIsDigit(s: string)
    requires s != "" && Digits(s).Some?
    ensures IsDigit(s[0])
  {
    if |s| > 1 {
      FirstIsDigit(Front(s));
    }
  }

  /** Minutes since midnight, with "24:00" accepted as end of day. */
  function ParseHHMM(s: string): (r: Option<int>)
    ensures r.Some? ==> 0 <= r.value <= DAY
  {
    var i := IndexOf(':', s);
    if i == |s| then None
    else
      var h, m := Atoi(s[..i]), Atoi(s[i + 1..]);
      if h.None? || m.None? then None
      else if h.value < 0 || m.value < 0 || m.value > 59 || h.value > 24 || (h.value == 24 && m.value != 0) then None
      else Some(h.value * 60 + m.value)
  }

  lemma {:induction false} DigitsHaveNoColon(s: string)
    requires Digits(s).Some?
    ensures ':' !in s
  {
    if s != [] {
      DigitsHaveNoColon(Front(s));
      assert s == Front(s) + [Last(s)];
    }
  }

  lemma AtoiHasNoColon(s: string)
    requires Atoi(s).Some?
    ensures ':' !in s
  {
    var signed := s[0] == '+' || s[0] == '-';
    DigitsHaveNoColon(if signed then s[1..] else s);
    assert signed ==> s == [s[0]] + s[1..];
  }

  /** A time of day, midnight at its end included. */
  predicate TimeOfDay(h: int, m: int) {
    0 <= h && 0 <= m <= 59 && (h < 24 || (h == 24 && m == 0))
  }

  /** s is two numbers with a colon between them. */
  predicate Spells(s: string, i: int, h: int, m: int) {
    0 <= i < |s| && s[i] == ':' && Atoi(s[..i]) == Some(h) && Atoi(s[i + 1..]) == Some(m)
  }

  lemma FirstColon(s: string, i: int)
    requires 0 <= i < |s| && s[i] == ':' && ':' !in s[..i]
    ensures IndexOf(':', s) == i
  {
    var at := IndexOf(':', s);
    assert at == i;
  }

  lemma SpelledIsRead(s: string, i: int, h: int, m: int)
    requires Spells(s, i, h, m) && TimeOfDay(h, m)
    ensures ParseHHMM(s) == Some(60 * h + m)
  {
    AtoiHasNoColon(s[..i]);
    FirstColon(s, i);
  }

  /** s is two numbers around a colon that are a time of day, n minutes after midnight. */
  ghost predicate Tells(s: string, n: int) {
    exists i, h, m :: Spells(s, i, h, m) && TimeOfDay(h, m) && n == 60 * h + m
  }

  lemma ReadIsSpelled(s: string)
    requires ParseHHMM(s).Some?
    ensures Tells(s, ParseHHMM(s).value)
  {
    var i := IndexOf(':', s);
    assert Spells(s, i, Atoi(s[..i]).value, Atoi(s[i + 1..]).value);
  }

  /** Exactly what is read, and as what. */
  lemma ParseIff(s: string, n: int)
    ensures ParseHHMM(s) == Some(n) <==> Tells(s, n)
  {
    if ParseHHMM(s) == Some(n) {
      ReadIsSpelled(s);
    }
    if Tells(s, n) {
      var i, h, m :| Spells(s, i, h, m) && TimeOfDay(h, m) && n == 60 * h + m;
      SpelledIsRead(s, i, h, m);
    }
  }

  function TwoDigits(n: nat): string
    requires n < 100
  {
    [('0' as int + n / 10) as char, ('0' as int + n % 10) as char]
  }

  /** The two-digit rendering of every minute of the day, 24:00 included, is read back. */
  lemma ParseReadsBack(n: nat)
    requires n <= DAY
    ensures ParseHHMM(TwoDigits(n / 60) + ":" + TwoDigits(n % 60)) == Some(n)
  {
    var h, m := TwoDigits(n / 60), TwoDigits(n % 60);
    var s := h + ":" + m;
    assert s == [h[0], h[1], ':', m[0], m[1]];
    assert IndexOf(':', s) == 2 by {
      assert s[1..][0] == h[1] && s[1..][1..][0] == ':';
    }
    assert s[..2] == h && s[3..] == m;
    AtoiTwoDigits(n / 60);
    AtoiTwoDigits(n % 60);
  }

  lemma AtoiTwoDigits(n: nat)
    requires n < 100
    ensures Atoi(TwoDigits(n)) == Some(n)
  {
    var s := TwoDigits(n);
    assert Front(s) == [s[0]] && Front(Front(s)) == [];
    assert Digits([s[0]]) == Some(n / 10) by {
      assert Digits([]) == Some(0);
    }
  }

  // ------------------------------------------------- the meaning of a schedule

  /** The window's bounds in minutes; None for one the evaluator passes over. */
  function Bounds(w: Window): Option<(int, int)> {
    var s, e := ParseHHMM(w.start), ParseHHMM(w.end);
    if s.Some? && e.Some? && s.value != e.value then Some((s.value, e.value)) else None
  }

  /** How long a window lasts; one that ends no later than it starts runs into the next day. */
  function Length(start: int, end: int): int {
    if start < end then end - start else end + DAY - start
  }

  predicate Covers(w: Window, day: int) {
    w.days == [] || day in w.days
  }

  /** t lies on the arc of the cyclic week that begins at from and lasts len minutes. */
  predicate OnArc(t: int, from: int, len: int) {
    (t - from) % WEEK < len
  }

  /** w, started on some covered day of the cyclic week, contains t. */
  predicate Contains(w: Window, t: LocalTime) {
    var b := Bounds(w);
    b.Some? &&
    exists d :: 0 <= d < 7 && Covers(w, d) &&
      OnArc(DAY * t.day + t.minute, DAY * d + b.value.0, Length(b.value.0, b.value.1))
  }

  /** Some window contains t: the schedule as a union of arcs on the 10080-minute week. */
  predicate Quiet(windows: seq<Window>, t: LocalTime) {
    exists i :: 0 <= i < |windows| && Contains(windows[i], t)
  }

  // ------------------------------------------------------------ the evaluator

  method DayCovered(days: seq<int>, d: int) returns (covered: bool)
    ensures covered == (days == [] || d in days)
  {
    if |days| == 0 {
      return true;
    }
    for i := 0 to |days|
      invariant d !in days[..i]
    {
      if days[i] == d {
        return true;
      }
    }
    return false;
  }

  function PrevDay(d: int): int {
    (d + 6) % 7
  }

  /** One window tested as the evaluator tests it, by today and yesterday only. */
  predicate TestedHits(w: Window, start: int, end: int, t: LocalTime) {
    if start < end then Covers(w, t.day) && start <= t.minute < end
    else (Covers(w, t.day) && start <= t.minute) || (Covers(w, PrevDay(t.day)) && t.minute < end)
  }

  /** Testing today and yesterday finds every arc, across midnight and across the Saturday-Sunday seam. */
  lemma WindowIsArc(w: Window, t: LocalTime)
    requires ValidLocal(t) && Bounds(w).Some?
    ensures Contains(w, t) == TestedHits(w, Bounds(w).value.0, Bounds(w).value.1, t)
  {
    var (start, end) := Bounds(w).value;
    forall d | 0 <= d < 7
      ensures OnArc(DAY * t.day + t.minute, DAY * d + start, Length(start, end)) ==
        if start < end then d == t.day && start <= t.minute < end
        else (d == t.day && start <= t.minute) || (d == PrevDay(t.day) && t.minute < end)
    {
      ArcFromDay(d, start, end, t);
    }
    assert 0 <= PrevDay(t.day) < 7;
  }

  lemma ArcFromDay(d: int, start: int, end: int, t: LocalTime)
    requires ValidLocal(t) && 0 <= d < 7 && 0 <= start <= DAY && 0 <= end <= DAY && start != end
    ensures OnArc(DAY * t.day + t.minute, DAY * d + start, Length(start, end)) ==
      if start < end then d == t.day && start <= t.minute < end
      else (d == t.day && start <= t.minute) || (d == PrevDay(t.day) && t.minute < end)
  {
    var x := DAY * t.day + t.minute - (DAY * d + start);
    assert -WEEK <= x < WEEK;
    assert x % WEEK == if x < 0 then x + WEEK else x;
  }

  predicate Hits(w: Window, t: LocalTime) {
    var b := Bounds(w);
    b.Some? && TestedHits(w, b.value.0, b.value.1, t)
  }

  /** None of the first n windows contains t. */
  predicate Misses(windows: seq<Window>, n: nat, t: LocalTime)
    requires n <= |windows|
  {
    forall i :: 0 <= i < n ==> !Hits(windows[i], t)
  }

  lemma OneMoreMiss(windows: seq<Window>, n: nat, t: LocalTime)
    requires n < |windows| && Misses(windows, n, t) && !Hits(windows[n], t)
    ensures Misses(windows, n + 1, t)
  {
  }

  lemma QuietIsHit(windows: seq<Window>, t: LocalTime)
    requires ValidLocal(t)
    ensures Quiet(windows, t) <==> !Misses(windows, |windows|, t)
  {
    forall i | 0 <= i < |windows|
      ensures Contains(windows[i], t) <==> Hits(windows[i], t)
    {
      if Bounds(windows[i]).Some? {
        WindowIsArc(windows[i], t);
      }
    }
  }

  /** The schedule without arcs: a window from s to e on the same day silences those minutes
      of its days; one that ends no later than it starts silences the end of its days and the
      beginning of the days after. No days are all days; day 0 comes after day 6. */
  predicate SilencesFrom(days: seq<int>, s: int, e: int, t: LocalTime) {
    var yesterday := if t.day == 0 then 6 else t.day - 1;
    if s < e then (days == [] || t.day in days) && s <= t.minute < e
    else ((days == [] || t.day in days) && s <= t.minute) || ((days == [] || yesterday in days) && t.minute < e)
  }

  ghost predicate Silences(w: Window, t: LocalTime) {
    exists s, e :: Tells(w.start, s) && Tells(w.end, e) && s != e && SilencesFrom(w.days, s, e, t)
  }

  lemma TestedMeans(w: Window, s: int, e: int, t: LocalTime)
    requires ValidLocal(t)
    ensures TestedHits(w, s, e, t) <==> SilencesFrom(w.days, s, e, t)
  {
    assert PrevDay(t.day) == if t.day == 0 then 6 else t.day - 1;
  }

  lemma BoundsMean(w: Window, s: int, e: int)
    ensures Bounds(w) == Some((s, e)) <==> Tells(w.start, s) && Tells(w.end, e) && s != e
  {
    ParseIff(w.start, s);
    ParseIff(w.end, e);
  }

  lemma ContainsSilences(w: Window, t: LocalTime)
    requires ValidLocal(t) && Contains(w, t)
    ensures Silences(w, t)
  {
    var (s, e) := Bounds(w).value;
    BoundsMean(w, s, e);
    WindowIsArc(w, t);
    TestedMeans(w, s, e, t);
  }

  lemma SilencesContains(w: Window, t: LocalTime)
    requires ValidLocal(t) && Silences(w, t)
    ensures Contains(w, t)
  {
    var s, e :| Tells(w.start, s) && Tells(w.end, e) && s != e && SilencesFrom(w.days, s, e, t);
    BoundsMean(w, s, e);
    WindowIsArc(w, t);
    TestedMeans(w, s, e, t);
  }

  lemma SilencesIff(w: Window, t: LocalTime)
    requires ValidLocal(t)
    ensures Contains(w, t) <==> Silences(w, t)
  {
    if Contains(w, t) {
      ContainsSilences(w, t);
    }
    if Silences(w, t) {
      SilencesContains(w, t);
    }
  }

  ghost predicate SomeSilences(windows: seq<Window>, t: LocalTime) {
    exists i :: 0 <= i < |windows| && Silences(windows[i], t)
  }

  /** What quiet hours are, in those terms. */
  lemma QuietMeans(windows: seq<Window>, t: LocalTime)
    requires ValidLocal(t)
    ensures Quiet(windows, t) <==> SomeSilences(windows, t)
  {
    if Quiet(windows, t) {
      var i :| 0 <= i < |windows| && Contains(windows[i], t);
      ContainsSilences(windows[i], t);
    }
    if SomeSilences(windows, t) {
      var i :| 0 <= i < |windows| && Silences(windows[i], t);
      SilencesContains(windows[i], t);
    }
  }

  /** The window is for some days, and neither today nor yesterday is one of them. */
  predicate OtherDays(w: Window, t: LocalTime) {
    w.days != [] && t.day !in w.days && (if t.day == 0 then 6 else t.day - 1) !in w.days
  }

  lemma OtherDaysSilenceNothing(w: Window, t: LocalTime)
    requires OtherDays(w, t)
    ensures !Silences(w, t)
  {
  }

  /** So windows of other days never silence now. */
  lemma OtherDaysAreLoud(windows: seq<Window>, t: LocalTime)
    requires ValidLocal(t) && forall i :: 0 <= i < |windows| ==> OtherDays(windows[i], t)
    ensures !Quiet(windows, t)
  {
    forall i | 0 <= i < |windows|
      ensures !Silences(windows[i], t)
    {
      OtherDaysSilenceNothing(windows[i], t);
    }
    QuietMeans(windows, t);
  }

  method InQuietHours(windows: seq<Window>, t: LocalTime) returns (quiet: bool)
    requires ValidLocal(t)
    ensures quiet == Quiet(windows, t) && (quiet <==> SomeSilences(windows, t))
  {
    QuietIsHit(windows, t);
    QuietMeans(windows, t);
    for i := 0 to |windows|
      invariant Misses(windows, i, t)
    {
      var w := windows[i];
      var start, end := ParseHHMM(w.start), ParseHHMM(w.end);
      if start.None? || end.None? || start.value == end.value {
        OneMoreMiss(windows, i, t);
        continue;
      }
      var today := DayCovered(w.days, t.day);
      if start.value < end.value {
        if today && t.minute >= start.value && t.minute < end.value {
          return true;
        }
        OneMoreMiss(windows, i, t);
        continue;
      }
      if today && t.minute >= start.value {
        return true;
      }
      var yesterday := DayCovered(w.days, PrevDay(t.day));
      if yesterday && t.minute < end.value {
        return true;
      }
      OneMoreMiss(windows, i, t);
    }
    return false;
  }

  // -------------------------------------------------------------- validation

  predicate ValidWindow(w: Window) {
    Bounds(w).Some? && forall i :: 0 <= i < |w.days| ==> 0 <= w.days[i] < 7
  }

  /** Policy.Validate's pass over the windows. */
  method ValidateWindows(windows: seq<Window>) returns (ok: bool)
    ensures ok == forall i :: 0 <= i < |windows| ==> ValidWindow(windows[i])
  {
    for i := 0 to |windows|
      invariant forall j :: 0 <= j < i ==> ValidWindow(windows[j])
    {
      var w := windows[i];
      var start, end := ParseHHMM(w.start), ParseHHMM(w.end);
      if start.None? || end.None? || start.value == end.value {
        return false;
      }
      for k := 0 to |w.days|
        invariant forall j :: 0 <= j < k ==> 0 <= w.days[j] < 7
      {
        if w.days[k] < 0 || w.days[k] > 6 {
          return false;
        }
      }
    }
    return true;
  }

  lemma NextDay(d: int)
    requires 0 <= d < 7
    ensures 0 <= (d + 1) % 7 < 7 && PrevDay((d + 1) % 7) == d
  {
  }

  /** A minute at which w begins, or the midnight at which a window from "24:00" does. */
  lemma BeginsAt(w: Window) returns (t: LocalTime)
    requires ValidWindow(w) && Bounds(w).value != (DAY, 0)
    ensures ValidLocal(t) && Contains(w, t)
  {
    var (start, end) := Bounds(w).value;
    var d := if w.days == [] then 0 else w.days[0];
    NextDay(d);
    t := if start < DAY then LocalTime(d, start) else LocalTime((d + 1) % 7, 0);
    assert Covers(w, d);
    WindowIsArc(w, t);
  }

  /** A validated window silences some minute of the week, unless it is the degenerate "24:00" to "00:00". */
  lemma ValidWindowIsLive(w: Window)
    requires ValidWindow(w)
    ensures (exists t :: ValidLocal(t) && Contains(w, t)) <==> Bounds(w).value != (DAY, 0)
  {
    if Bounds(w).value != (DAY, 0) {
      var t := BeginsAt(w);
    } else {
      forall t | ValidLocal(t)
        ensures !Contains(w, t)
      {
        WindowIsArc(w, t);
      }
    }
  }
}
