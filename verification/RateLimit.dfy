/** The fixed-window counter of presenter/middleware/ratelimit.go and of the
    automation budget (infra/automationrules/budget.go): INCR, arm the expiry on the
    first hit, refuse above the limit, and let the call through on a Redis error. */
module RateLimit {
  import opened Results
  import opened Redis

  const BUDGET_MAX: int := 100
  const BUDGET_WINDOW: int := 600_000   // milliseconds

  method Allow(server: Server, key: string, limit: int, window: int, incrOk: bool, expireOk: bool)
    returns (allowed: bool)
    modifies server
    ensures !incrOk ==> allowed && server.db == old(server.db)
    ensures incrOk ==>
      var (counter, ok) := Hit(CounterOf(old(server.db), key), old(server.db).now, limit, window, expireOk);
      allowed == ok && server.db == WithCounter(old(server.db), key, counter)
  {
    if !incrOk {
      return true;
    }
    ghost var before := server.db;
    var count := server.Incr(key);
    if count == 1 && expireOk {
      server.Expire(key, window);
    }
    OneKeyChanged(before, server.db, key);
    allowed := count <= limit;
  }

  /** AllowAutomationMessage, once the tenant is known: a hundred in ten minutes. */
  method AllowAutomationMessage(server: Server, key: string, incrOk: bool, expireOk: bool) returns (allowed: bool)
    modifies server
    ensures !incrOk ==> allowed && server.db == old(server.db)
    ensures incrOk ==>
      var (counter, ok) := Hit(CounterOf(old(server.db), key), old(server.db).now, 100, 600_000, expireOk);
      allowed == ok && server.db == WithCounter(old(server.db), key, counter)
  {
    allowed := Allow(server, key, BUDGET_MAX, BUDGET_WINDOW, incrOk, expireOk);
  }

  // ---- one key's counter -------------------------------------------------

  /** expires is None when the key was left without a time to live. */
  datatype Counter = Counter(count: int, expires: Option<int>)

  predicate Running(c: Option<Counter>, t: int) {
    c.Some? && (c.value.expires.Some? ==> t < c.value.expires.value)
  }

  function CounterOf(db: Db, key: string): Option<Counter> {
    if db.Alive(key) then Some(Counter(db.Incremented(key) - 1, db.keys[key].expires)) else None
  }

  function WithCounter(db: Db, key: string, c: Counter): Db {
    db.(keys := db.keys[key := Entry(Number(c.count), c.expires)])
  }

  /** A call at time t: the counter it leaves and whether it is let through. */
  function Hit(c: Option<Counter>, t: int, limit: int, window: int, expireOk: bool): (Counter, bool) {
    var count := if Running(c, t) then c.value.count + 1 else 1;
    var expires := if Running(c, t) then c.value.expires else None;
    (Counter(count, if count == 1 && expireOk then Some(t + window) else expires), count <= limit)
  }

  /** A counter reads back as it was written for as long as it runs, and not after. */
  lemma CounterReadsBack(db: Db, key: string, c: Counter, dt: nat)
    ensures CounterOf(WithCounter(db, key, c).Pass(dt), key) == if Running(Some(c), db.now + dt) then Some(c) else None
  {
  }

  /** A call after a pause meets the counter the last one left: the first call of a window
      starts it, a later one counts on, and the limit-th is the last to pass. */
  lemma HitReads(c: Counter, t: int, limit: int, window: int, expireOk: bool)
    ensures var first := Hit(None, t, limit, window, expireOk);
      first == (Counter(1, if expireOk then Some(t + window) else None), 1 <= limit)
    ensures !Running(Some(c), t) ==> Hit(Some(c), t, limit, window, expireOk) == Hit(None, t, limit, window, expireOk)
    ensures Running(Some(c), t) && c.count >= 1 ==>
      Hit(Some(c), t, limit, window, expireOk) == (Counter(c.count + 1, c.expires), c.count < limit)
  {
  }

  // ---- runs --------------------------------------------------------------

  predicate Chronological(times: seq<int>) {
    forall i, j :: 0 <= i < j < |times| ==> times[i] <= times[j]
  }

  /** The times at which a run's calls were let through. */
  function Admitted(c: Option<Counter>, times: seq<int>, limit: int, window: int): seq<int>
    decreases |times|
  {
    if times == [] then []
    else
      var (counter, ok) := Hit(c, times[0], limit, window, true);
      (if ok then [times[0]] else []) + Admitted(Some(counter), times[1..], limit, window)
  }

  function CountIn(times: seq<int>, a: int, b: int): nat {
    if times == [] then 0 else (if a <= times[0] < b then 1 else 0) + CountIn(times[1..], a, b)
  }

  /** The number of windows that fit in a length, rounded up. */
  function Windows(length: int, window: int): nat
    requires window > 0
    decreases length
  {
    if length <= 0 then 0 else 1 + Windows(length - window, window)
  }

  lemma {:induction false} WindowsIsCeiling(length: int, window: int)
    requires window > 0 && length >= 0
    ensures (Windows(length, window) - 1) * window < length || length == 0
    ensures length <= Windows(length, window) * window
    decreases length
  {
    if length > window {
      WindowsIsCeiling(length - window, window);
    } else if length > 0 {
      assert Windows(length - window, window) == 0;
    }
  }

  lemma {:induction false} WindowsMonotone(a: int, b: int, window: int)
    requires window > 0 && a <= b
    ensures Windows(a, window) <= Windows(b, window)
    decreases b
  {
    if a > 0 {
      WindowsMonotone(a - window, b - window, window);
    }
  }

  function Times(k: nat, n: nat): nat { k * n }

  lemma TimesSucc(k: nat, n: nat)
    ensures Times(k, n + 1) == Times(k, n) + k
  {
  }

  lemma NoneOfZero(n: nat)
    ensures Times(0, n) == 0
  {
  }

  lemma TimesMonotone(k: nat, a: nat, b: nat)
    requires a <= b
    ensures Times(k, a) <= Times(k, b)
  {
  }

  /** A run of n windows lets through the limit in each, and one window that began
      earlier lets through what its first hit left. */
  function AtMost(limit: nat, n: nat): nat {
    if limit == 0 then 0 else Times(limit, n + 1) - 1
  }

  /** What may still be let through in [a, b) from a counter. */
  function Allowance(c: Option<Counter>, a: int, b: int, limit: nat, window: int): int
    requires window > 0
  {
    if c.Some? && c.value.expires.Some? && a < c.value.expires.value then
      (if c.value.count < limit then limit - c.value.count else 0)
      + Times(limit, Windows(b - c.value.expires.value, window))
    else AtMost(limit, Windows(b - a, window))
  }

  lemma AllowanceNonNegative(c: Option<Counter>, a: int, b: int, limit: nat, window: int)
    requires window > 0
    ensures Allowance(c, a, b, limit, window) >= 0
  {
  }

  /** Every counter of a run whose commands succeed has an expiry and a first hit. */
  predicate Armed(c: Option<Counter>) {
    c.Some? ==> c.value.expires.Some? && c.value.count >= 1
  }

  lemma {:induction false} NoneLater(c: Option<Counter>, times: seq<int>, limit: int, window: int, a: int, b: int)
    requires forall i :: 0 <= i < |times| ==> b <= times[i]
    ensures CountIn(Admitted(c, times, limit, window), a, b) == 0
    decreases |times|
  {
    if times != [] {
      var (counter, ok) := Hit(c, times[0], limit, window, true);
      NoneLater(Some(counter), times[1..], limit, window, a, b);
      CountInAppend(if ok then [times[0]] else [], Admitted(Some(counter), times[1..], limit, window), a, b);
    }
  }

  lemma CountInAppend(s: seq<int>, t: seq<int>, a: int, b: int)
    requires |s| <= 1
    ensures CountIn(s + t, a, b) == (if s != [] && a <= s[0] < b then 1 else 0) + CountIn(t, a, b)
  {
    if s != [] {
      assert (s + t)[1..] == t;
    } else {
      assert s + t == t;
    }
  }

  /** One call spends what the allowance drops by. */
  lemma HitSpends(c: Option<Counter>, t: int, limit: nat, window: int, a: int, b: int)
    requires window > 0 && Armed(c) && t < b
    ensures var (counter, ok) := Hit(c, t, limit, window, true);
      && Armed(Some(counter))
      && (if ok && a <= t then 1 else 0) + Allowance(Some(counter), a, b, limit, window)
         <= Allowance(c, a, b, limit, window)
  {
    hide Times, Windows;
    if !Running(c, t) && a < t + window {
      var e := t + window;
      TimesSucc(limit, Windows(b - e, window));
      if c.Some? && a < c.value.expires.value {
        OneMoreWindow(b - c.value.expires.value, b - t, window);
        TimesMonotone(limit, 1 + Windows(b - e, window), Windows(b - c.value.expires.value, window));
      } else {
        NoneOfZero(Windows(b - e, window));
        TimesSucc(limit, Windows(b - a, window));
        WindowsMonotone(b - e, b - a, window);
        TimesMonotone(limit, Windows(b - e, window), Windows(b - a, window));
        if a <= t {
          OneMoreWindow(b - a, b - t, window);
          TimesMonotone(limit, 1 + Windows(b - e, window), Windows(b - a, window));
        }
      }
    }
  }

  /** A window that starts inside a range uses up one of the range's windows. */
  lemma OneMoreWindow(length: int, rest: int, window: int)
    requires window > 0 && 0 < rest <= length
    ensures 1 + Windows(rest - window, window) <= Windows(length, window)
  {
    WindowsMonotone(rest - window, length - window, window);
  }

  lemma {:induction false} AdmittedWithinAllowance(
    c: Option<Counter>, times: seq<int>, limit: nat, window: int, a: int, b: int)
    requires window > 0 && Armed(c) && Chronological(times)
    ensures CountIn(Admitted(c, times, limit, window), a, b) <= Allowance(c, a, b, limit, window)
    decreases |times|
  {
    hide Allowance, Hit;
    AllowanceNonNegative(c, a, b, limit, window);
    if times != [] {
      var t := times[0];
      if b <= t {
        NoneLater(c, times, limit, window, a, b);
      } else {
        var (counter, ok) := Hit(c, t, limit, window, true);
        HitSpends(c, t, limit, window, a, b);
        AdmittedWithinAllowance(Some(counter), times[1..], limit, window, a, b);
        CountInAppend(if ok then [t] else [], Admitted(Some(counter), times[1..], limit, window), a, b);
      }
    }
  }

  /** Whatever the traffic, an interval of length L lets through fewer than
      limit * (ceil(L / window) + 1) calls. */
  lemma LimitHolds(times: seq<int>, limit: nat, window: int, a: int, length: nat)
    requires window > 0 && Chronological(times)
    ensures CountIn(Admitted(None, times, limit, window), a, a + length) <= AtMost(limit, Windows(length, window))
  {
    hide Admitted;
    AdmittedWithinAllowance(None, times, limit, window, a, a + length);
  }

  /** So any one window's length sees at most one less than twice the limit ... */
  lemma LessThanTwiceTheLimit(times: seq<int>, limit: nat, window: int, a: int)
    requires window > 0 && Chronological(times)
    ensures CountIn(Admitted(None, times, limit, window), a, a + window) <= if limit == 0 then 0 else 2 * limit - 1
  {
    LimitHolds(times, limit, window, a, window);
    TimesSucc(limit, 1);
    assert Windows(0, window) == 0 && Windows(window, window) == 1;
  }

  // ---- the two commands apart -----------------------------------------------

  /** An increment, and the expiry the first one of a window arms at any time after it, or
      never: other calls may come in between. */
  datatype Event = Call(at: int) | Arm(at: int)

  predicate InOrder(events: seq<Event>) {
    forall i, j :: 0 <= i < j < |events| ==> events[i].at <= events[j].at
  }

  /** The counter after an event. Only the call that started a window arms it. */
  function Next(c: Option<Counter>, e: Event, limit: int, window: int): Option<Counter> {
    match e
    case Call(t) => Some(Hit(c, t, limit, window, false).0)
    case Arm(t) =>
      if c.Some? && c.value.expires.None? then Some(c.value.(expires := Some(t + window))) else c
  }

  predicate LetThrough(c: Option<Counter>, e: Event, limit: int, window: int) {
    e.Call? && Hit(c, e.at, limit, window, false).1
  }

  /** The times at which a run's calls were let through. */
  function AdmittedApart(c: Option<Counter>, events: seq<Event>, limit: int, window: int): seq<int>
    decreases |events|
  {
    if events == [] then []
    else
      (if LetThrough(c, events[0], limit, window) then [events[0].at] else [])
      + AdmittedApart(Next(c, events[0], limit, window), events[1..], limit, window)
  }

  /** A counter whose window is not armed yet ends no earlier than if it were armed now. */
  function Earliest(c: Option<Counter>, now: int, window: int): Option<Counter> {
    if c.Some? && c.value.expires.None? then Some(c.value.(expires := Some(now + window))) else c
  }

  /** Waiting for the expiry to be armed allows no more. */
  lemma AllowanceLater(c: Counter, e: int, f: int, a: int, b: int, limit: nat, window: int)
    requires window > 0 && e <= f && c.count >= 1
    ensures Allowance(Some(c.(expires := Some(f))), a, b, limit, window)
         <= Allowance(Some(c.(expires := Some(e))), a, b, limit, window)
  {
    hide Times, Windows;
    WindowsMonotone(b - f, b - e, window);
    TimesMonotone(limit, Windows(b - f, window), Windows(b - e, window));
    if e <= a < f {
      WindowsMonotone(b - f, b - a, window);
      TimesMonotone(limit, Windows(b - f, window), Windows(b - a, window));
      TimesSucc(limit, Windows(b - a, window));
      NoneOfZero(Windows(b - f, window));
    }
  }

  /** One event spends what the allowance drops by. */
  lemma EventSpends(c: Option<Counter>, e: Event, now: int, limit: nat, window: int, a: int, b: int)
    requires window > 0 && Armed(Earliest(c, now, window)) && now <= e.at < b
    ensures Armed(Earliest(Next(c, e, limit, window), e.at, window))
    ensures (if LetThrough(c, e, limit, window) && a <= e.at then 1 else 0)
         + Allowance(Earliest(Next(c, e, limit, window), e.at, window), a, b, limit, window)
         <= Allowance(Earliest(c, now, window), a, b, limit, window)
  {
    hide Allowance;
    if c.Some? && c.value.expires.None? {
      AllowanceLater(c.value, now + window, e.at + window, a, b, limit, window);
    }
    if e.Call? {
      HitSpends(Earliest(c, e.at, window), e.at, limit, window, a, b);
    }
  }

  lemma {:induction false} ApartWithinAllowance(
    c: Option<Counter>, events: seq<Event>, now: int, limit: nat, window: int, a: int, b: int)
    requires window > 0 && Armed(Earliest(c, now, window)) && InOrder(events)
    requires forall i :: 0 <= i < |events| ==> now <= events[i].at
    ensures CountIn(AdmittedApart(c, events, limit, window), a, b)
         <= Allowance(Earliest(c, now, window), a, b, limit, window)
    decreases |events|
  {
    hide Allowance, Next, LetThrough, Earliest;
    AllowanceNonNegative(Earliest(c, now, window), a, b, limit, window);
    if events != [] {
      var e, rest := events[0], events[1..];
      if b <= e.at {
        NoneApartLater(c, events, limit, window, a, b);
      } else {
        var admitted := if LetThrough(c, e, limit, window) then [e.at] else [];
        EventSpends(c, e, now, limit, window, a, b);
        ApartWithinAllowance(Next(c, e, limit, window), rest, e.at, limit, window, a, b);
        CountInAppend(admitted, AdmittedApart(Next(c, e, limit, window), rest, limit, window), a, b);
      }
    }
  }

  lemma {:induction false} NoneApartLater(
    c: Option<Counter>, events: seq<Event>, limit: int, window: int, a: int, b: int)
    requires forall i :: 0 <= i < |events| ==> b <= events[i].at
    ensures CountIn(AdmittedApart(c, events, limit, window), a, b) == 0
    decreases |events|
  {
    hide Next, LetThrough;
    if events != [] {
      var e, rest := events[0], events[1..];
      NoneApartLater(Next(c, e, limit, window), rest, limit, window, a, b);
      CountInAppend(if LetThrough(c, e, limit, window) then [e.at] else [],
                    AdmittedApart(Next(c, e, limit, window), rest, limit, window), a, b);
    }
  }

  /** The bound survives any calls between an increment and its expiry, and expiries that
      are never armed. */
  lemma LimitHoldsApart(events: seq<Event>, limit: nat, window: int, a: int, length: nat)
    requires window > 0 && InOrder(events)
    ensures CountIn(AdmittedApart(None, events, limit, window), a, a + length)
         <= AtMost(limit, Windows(length, window))
  {
    hide AdmittedApart;
    var now := if events == [] then a else events[0].at;
    ApartWithinAllowance(None, events, now, limit, window, a, a + length);
  }

  /** Each call followed at once by its expiry. */
  function Paired(times: seq<int>): seq<Event> {
    if times == [] then [] else [Call(times[0]), Arm(times[0])] + Paired(times[1..])
  }

  /** Without anything in between, the two commands are one hit. */
  lemma {:induction false} PairedIsAdmitted(c: Option<Counter>, times: seq<int>, limit: int, window: int)
    requires Armed(c) && window > 0
    ensures AdmittedApart(c, Paired(times), limit, window) == Admitted(c, times, limit, window)
    decreases |times|
  {
    if times != [] {
      var t, rest := times[0], times[1..];
      var events := Paired(times);
      assert events[1..][1..] == Paired(rest) && events[0] == Call(t) && events[1..][0] == Arm(t);
      var called := Next(c, Call(t), limit, window);
      var armed := Next(called, Arm(t), limit, window);
      assert armed == Some(Hit(c, t, limit, window, true).0);
      assert AdmittedApart(called, events[1..], limit, window) == AdmittedApart(armed, Paired(rest), limit, window);
      PairedIsAdmitted(armed, rest, limit, window);
    }
  }

  // ---- bursts --------------------------------------------------------------

  lemma AdmittedStep(c: Option<Counter>, t: int, rest: seq<int>, limit: int, window: int)
    ensures var (counter, ok) := Hit(c, t, limit, window, true);
      && Admitted(c, [t] + rest, limit, window)
         == (if ok then [t] else []) + Admitted(Some(counter), rest, limit, window)
      && After(c, [t] + rest, limit, window) == After(Some(counter), rest, limit, window)
  {
    hide Hit;
    assert ([t] + rest)[1..] == rest;
  }

  function Repeat(t: int, n: nat): seq<int> {
    seq(n, i => t)
  }

  /** The counter a run of calls leaves. */
  function After(c: Option<Counter>, times: seq<int>, limit: int, window: int): Option<Counter>
    decreases |times|
  {
    if times == [] then c else After(Some(Hit(c, times[0], limit, window, true).0), times[1..], limit, window)
  }

  lemma {:induction false} AdmittedSplit(c: Option<Counter>, s: seq<int>, t: seq<int>, limit: int, window: int)
    ensures Admitted(c, s + t, limit, window)
         == Admitted(c, s, limit, window) + Admitted(After(c, s, limit, window), t, limit, window)
    ensures After(c, s + t, limit, window) == After(After(c, s, limit, window), t, limit, window)
    decreases |s|
  {
    if s == [] {
      assert s + t == t;
    } else {
      hide Hit, Admitted, After;
      var counter := Hit(c, s[0], limit, window, true).0;
      assert s + t == [s[0]] + (s[1..] + t) && s == [s[0]] + s[1..];
      AdmittedStep(c, s[0], s[1..] + t, limit, window);
      AdmittedStep(c, s[0], s[1..], limit, window);
      AdmittedSplit(Some(counter), s[1..], t, limit, window);
    }
  }

  /** Calls within the limit of a running window are all let through. */
  lemma {:induction false} Burst(c: Counter, t: int, n: nat, limit: int, window: int)
    requires c.expires.Some? && t < c.expires.value && c.count >= 1 && c.count + n <= limit
    ensures Admitted(Some(c), Repeat(t, n), limit, window) == Repeat(t, n)
    ensures After(Some(c), Repeat(t, n), limit, window) == Some(c.(count := c.count + n))
    decreases n
  {
    if n > 0 {
      assert Repeat(t, n)[0] == t && Repeat(t, n)[1..] == Repeat(t, n - 1);
      assert [t] + Repeat(t, n - 1) == Repeat(t, n);
      Burst(c.(count := c.count + 1), t, n - 1, limit, window);
    }
  }

  /** The same when the first of them starts the window. */
  lemma FreshBurst(c: Option<Counter>, t: int, n: nat, limit: int, window: int)
    requires !Running(c, t) && 1 <= n <= limit && window > 0
    ensures Admitted(c, Repeat(t, n), limit, window) == Repeat(t, n)
    ensures After(c, Repeat(t, n), limit, window) == Some(Counter(n, Some(t + window)))
  {
    assert Repeat(t, n)[0] == t && Repeat(t, n)[1..] == Repeat(t, n - 1);
    assert [t] + Repeat(t, n - 1) == Repeat(t, n);
    Burst(Counter(1, Some(t + window)), t, n - 1, limit, window);
  }

  lemma {:induction false} CountInConcat(s: seq<int>, t: seq<int>, a: int, b: int)
    ensures CountIn(s + t, a, b) == CountIn(s, a, b) + CountIn(t, a, b)
  {
    if s == [] {
      assert s + t == t;
    } else {
      assert (s + t)[1..] == s[1..] + t;
      CountInConcat(s[1..], t, a, b);
    }
  }

  lemma {:induction false} CountInRepeat(t: int, n: nat, a: int, b: int)
    ensures CountIn(Repeat(t, n), a, b) == if a <= t < b then n else 0
  {
    if n > 0 {
      assert Repeat(t, n)[1..] == Repeat(t, n - 1);
      CountInRepeat(t, n - 1, a, b);
    }
  }

  // ---- when an interval keeps to the limit ---------------------------------

  /** Calls from a on. */
  predicate From(times: seq<int>, a: int) {
    Chronological(times) && forall i :: 0 <= i < |times| ==> a <= times[i]
  }

  /** What a's counter needs for the window's length after a to keep to the limit:
      nothing running, or the limit spent, or no expiry inside. */
  predicate Settled(c: Option<Counter>, a: int, limit: int, window: int)
    requires Armed(c)
  {
    Running(c, a) ==> c.value.count >= limit || a + window <= c.value.expires.value
  }

  lemma SettledHolds(c: Option<Counter>, a: int, limit: nat, window: int, times: seq<int>)
    requires window > 0 && Armed(c) && Settled(c, a, limit, window) && From(times, a)
    ensures CountIn(Admitted(c, times, limit, window), a, a + window) <= limit
  {
    hide Admitted, Hit;
    var b := a + window;
    NoneOfZero(limit);
    TimesSucc(limit, 0);
    if Running(c, a) {
      AdmittedWithinAllowance(c, times, limit, window, a, b);
      WindowsMonotone(b - c.value.expires.value, window, window);
      assert Windows(0, window) == 0 && Windows(window, window) == 1;
      TimesMonotone(limit, Windows(b - c.value.expires.value, window), 1);
    } else if times == [] {
      NoneLater(c, times, limit, window, a, b);
    } else {
      StartedHolds(c, a, limit, window, times);
    }
  }

  /** The first call after a starts a window that reaches past the interval. */
  lemma StartedHolds(c: Option<Counter>, a: int, limit: nat, window: int, times: seq<int>)
    requires window > 0 && !Running(c, a) && Armed(c) && From(times, a) && times != []
    ensures CountIn(Admitted(c, times, limit, window), a, a + window) <= limit
  {
    var t, b := times[0], a + window;
    var counter := Counter(1, Some(t + window));
    assert [t] + times[1..] == times;
    AdmittedStep(c, t, times[1..], limit, window);
    AdmittedWithinAllowance(Some(counter), times[1..], limit, window, a, b);
    NoneOfZero(limit);
    var rest := Admitted(Some(counter), times[1..], limit, window);
    CountInAppend(if 1 <= limit then [t] else [], rest, a, b);
    assert Windows(b - (t + window), window) == 0;
    assert Times(limit, 0) == 0;
  }

  /** A window's length from a keeps to the limit, whatever comes, if and only if a's
      counter is settled. */
  lemma IntervalHoldsIff(c: Option<Counter>, a: int, limit: nat, window: int)
    requires window > 0 && Armed(c)
    ensures (forall times :: From(times, a) ==> CountIn(Admitted(c, times, limit, window), a, a + window) <= limit)
       <==> Settled(c, a, limit, window)
  {
    hide Admitted, CountIn;
    if Settled(c, a, limit, window) {
      forall times | From(times, a) ensures CountIn(Admitted(c, times, limit, window), a, a + window) <= limit {
        SettledHolds(c, a, limit, window, times);
      }
    } else {
      var times := Overrun(c, a, limit, window);
      assert From(times, a);
    }
  }

  /** The rest of the running window, then a fresh one: more than the limit in between. */
  lemma Overrun(c: Option<Counter>, a: int, limit: nat, window: int) returns (times: seq<int>)
    requires window > 0 && Armed(c) && !Settled(c, a, limit, window)
    ensures From(times, a)
    ensures CountIn(Admitted(c, times, limit, window), a, a + window) == 2 * limit - c.value.count > limit
  {
    hide Admitted, CountIn;
    var left, e := limit - c.value.count, c.value.expires.value;
    times := Repeat(a, left) + Repeat(e, limit);
    AdmittedSplit(c, Repeat(a, left), Repeat(e, limit), limit, window);
    Burst(c.value, a, left, limit, window);
    FreshBurst(After(c, Repeat(a, left), limit, window), e, limit, limit, window);
    CountInConcat(Repeat(a, left), Repeat(e, limit), a, a + window);
    CountInRepeat(a, left, a, a + window);
    CountInRepeat(e, limit, a, a + window);
  }

  /** In any run, the window's length after the calls so far keeps to the limit, whatever
      calls follow, if and only if the counter they left is settled. */
  lemma WindowHoldsIff(before: seq<int>, a: int, limit: nat, window: int)
    requires window > 0 && Chronological(before) && forall i :: 0 <= i < |before| ==> before[i] < a
    ensures Armed(After(None, before, limit, window))
    ensures (forall times :: From(times, a) ==>
               CountIn(Admitted(None, before + times, limit, window), a, a + window) <= limit)
       <==> Settled(After(None, before, limit, window), a, limit, window)
  {
    hide Admitted, CountIn, After, Settled;
    var c := After(None, before, limit, window);
    AfterIsArmed(None, before, limit, window);
    IntervalHoldsIff(c, a, limit, window);
    forall times
      ensures CountIn(Admitted(None, before + times, limit, window), a, a + window)
           == CountIn(Admitted(c, times, limit, window), a, a + window)
    {
      AdmittedSplit(None, before, times, limit, window);
      CountInConcat(Admitted(None, before, limit, window), Admitted(c, times, limit, window), a, a + window);
      NoneEarlier(None, before, limit, window, a, a + window);
    }
  }

  lemma {:induction false} AfterIsArmed(c: Option<Counter>, times: seq<int>, limit: int, window: int)
    requires Armed(c)
    ensures Armed(After(c, times, limit, window))
    decreases |times|
  {
    if times != [] {
      AfterIsArmed(Some(Hit(c, times[0], limit, window, true).0), times[1..], limit, window);
    }
  }

  lemma {:induction false} NoneEarlier(c: Option<Counter>, times: seq<int>, limit: int, window: int, a: int, b: int)
    requires forall i :: 0 <= i < |times| ==> times[i] < a
    ensures CountIn(Admitted(c, times, limit, window), a, b) == 0
    decreases |times|
  {
    if times != [] {
      var (counter, ok) := Hit(c, times[0], limit, window, true);
      NoneEarlier(Some(counter), times[1..], limit, window, a, b);
      CountInAppend(if ok then [times[0]] else [], Admitted(Some(counter), times[1..], limit, window), a, b);
    }
  }

  /** For every limit and window, a burst at each side of a window's end reaches one less
      than twice the limit within a window's length. */
  lemma BoundIsReached(limit: nat, window: int) returns (times: seq<int>)
    requires limit >= 1 && window >= 2
    ensures From(times, 0)
    ensures CountIn(Admitted(None, times, limit, window), 1, 1 + window) == 2 * limit - 1
  {
    hide Admitted, CountIn, After;
    var first, second, third := Repeat(0, 1), Repeat(window - 1, limit - 1), Repeat(window, limit);
    times := first + second + third;
    FreshBurst(None, 0, 1, limit, window);
    Burst(Counter(1, Some(window)), window - 1, limit - 1, limit, window);
    FreshBurst(Some(Counter(limit, Some(window))), window, limit, limit, window);
    AdmittedSplit(None, first, second, limit, window);
    AdmittedSplit(None, first + second, third, limit, window);
    CountInConcat(first + second, third, 1, 1 + window);
    CountInConcat(first, second, 1, 1 + window);
    CountInRepeat(0, 1, 1, 1 + window);
    CountInRepeat(window - 1, limit - 1, 1, 1 + window);
    CountInRepeat(window, limit, 1, 1 + window);
  }

  // ---- a failed expiry -------------------------------------------------------

  /** When arming the expiry failed, the window never ends: once the limit is spent,
      no later call is let through. */
  lemma {:induction false} UnarmedNeverRecovers(c: Counter, times: seq<int>, limit: int, window: int)
    requires c.expires.None? && c.count >= limit && c.count >= 1
    ensures Admitted(Some(c), times, limit, window) == []
    decreases |times|
  {
    if times != [] {
      var (counter, ok) := Hit(Some(c), times[0], limit, window, true);
      UnarmedNeverRecovers(counter, times[1..], limit, window);
    }
  }

  /** A spent counter ever lets a call through again if and only if its expiry is armed. */
  lemma RecoversIff(c: Counter, limit: int, window: int)
    requires c.count >= limit >= 1
    ensures (exists times :: Admitted(Some(c), times, limit, window) != []) <==> c.expires.Some?
  {
    hide Admitted;
    if c.expires.Some? {
      var t := c.expires.value;
      AdmittedStep(Some(c), t, [], limit, window);
      assert Admitted(Some(c), [t] + [], limit, window) != [];
    } else {
      forall times ensures Admitted(Some(c), times, limit, window) == [] {
        UnarmedNeverRecovers(c, times, limit, window);
      }
    }
  }
}
