/** A clock change that skips a midnight: the walk's step can then return the same day. */
module RepeatedMidnight {
  import opened Results
  import opened OpeningHours
  import opened Calendar
  import opened Counting
  import opened BusinessClock
  import opened ClockLaws

  /** From a day's midnight the walk's step returns that same midnight exactly when the
      instant time.Date picks for the next one is still on that day. The midnight of
      another day is only assumed not to be taken for one of this day, so days may be
      skipped whole. */
  lemma StepRepeatsIff(z: Zone, d: int, day: int)
    requires z.local(day) == WallAt(d, 0) && z.at(WallAt(d, 0)) == day
    requires var next := DayOf(z.local(z.at(WallAt(d + 1, 0))));
      next != d ==> DayOf(z.local(z.at(WallAt(next, 0)))) != d
    ensures NextDay(z, day) == day <==> DayOf(z.local(z.at(WallAt(d + 1, 0)))) == d
  {
    assert WallAt(d, 0) + WallAt(1, 0) == WallAt(d + 1, 0);
    DayOfWall(WallAt(d, 0), d);
  }

  /** What one step of the walk adds on a day. */
  function DayTotal(r: Resolved, d: int, from: int, to: int): nat {
    if r.HolidayOn(d) then 0 else SumClipped(DaySpans(r, d), from, to)
  }

  // ---- Between ---------------------------------------------------------------

  /** A repeated day is counted again at every remaining step of the walk. */
  lemma {:induction false} RepeatedDayIsRecounted(r: Resolved, day: int, from: int, to: int, n: nat)
    requires NextDay(r.zone, day) == day && day <= to
    ensures WalkBetween(r, day, from, to, n) == n * DayTotal(r, LocalDay(r, day), from, to)
  {
    hide DaySpans, NextDay, SumClipped;
    if n > 0 {
      RepeatedDayIsRecounted(r, day, from, to, n - 1);
      var once: int := DayTotal(r, LocalDay(r, day), from, to);
      assert n * once == (n - 1) * once + once;
    }
  }

  lemma {:induction false} WalkSplit(r: Resolved, d: int, from: int, to: int, n: nat, k: nat)
    requires k <= n && Sound(r, d, d + k) && Mid(r, d + k) <= to
    ensures WalkBetween(r, Mid(r, d), from, to, n)
         == WalkBetween(r, Mid(r, d), from, to, k) + WalkBetween(r, Mid(r, d + k), from, to, n - k)
    decreases k
  {
    hide SoundHours, DaySpans, RegularDay, WallAt, SumClipped;
    if k > 0 {
      NextMid(r, d);
      MidIsStart(r, d);
      MidMonotone(r, d + 1, d + k);
      WalkSplit(r, d + 1, from, to, n - 1, k - 1);
    }
  }

  /** The walk meets a repeated midnight after k regular days, inside the range. */
  ghost predicate MeetsRepeat(r: Resolved, from: int, to: int, k: nat) {
    var d := LocalDay(r, from);
    && k < MAX_DAYS_WALK && Sound(r, d, d + k) && from < to
    && Mid(r, d + k) <= to && NextDay(r.zone, Mid(r, d + k)) == Mid(r, d + k)
  }

  /** Then the result is the open time before that midnight, plus the repeated day's once
      for every remaining step. */
  lemma BetweenMeetsRepeat(r: Resolved, from: int, to: int, k: nat)
    requires MeetsRepeat(r, from, to, k)
    ensures var d := LocalDay(r, from) + k;
      Between(r, from, to)
      == OpenCount(r, from, Max(from, Mid(r, d))) + (MAX_DAYS_WALK - k) * DayTotal(r, d, from, to)
  {
    hide SoundHours, WalkBetween, DayTotal, OpenCount, NextDay, MAX_DAYS_WALK;
    var first := LocalDay(r, from);
    DayOfWall(r.zone.local(from), first);
    assert RegularDay(r, first) && RegularDay(r, first + k);
    assert Mid(r, first) <= from;
    MidIsStart(r, first + k);
    if k > 0 {
      assert RegularDay(r, first + 1);
      DayRange(r, first, from);
    }
    hide RegularDay, StartOfDay;
    if k > 0 {
      MidMonotone(r, first + 1, first + k);
    }
    WalkSplit(r, first, from, to, MAX_DAYS_WALK, k);
    WalkBetweenCounts(r, first, from, to, k);
    RepeatedDayIsRecounted(r, Mid(r, first + k), from, to, MAX_DAYS_WALK - k);
    OpenSplit(r, from, from, from);
    NothingInReverse(r, from, Mid(r, first));
    OnlyIfStarted(r, from, to);
  }

  lemma NothingInReverse(r: Resolved, a: int, b: int)
    ensures b <= a ==> OpenCount(r, a, b) == 0
  {
  }

  lemma OnlyIfStarted(r: Resolved, from: int, to: int)
    requires r.sched.configured && from < to
    ensures Between(r, from, to) == WalkBetween(r, Mid(r, LocalDay(r, from)), from, to, MAX_DAYS_WALK)
  {
    hide WalkBetween;
  }

  /** On one regular day, the day's total is its open time from its midnight on. */
  lemma DayTotalCounts(r: Resolved, d: int, from: int, to: int)
    requires r.sched.configured && SoundHours(r.sched) && RegularDay(r, d)
    requires forall x :: Mid(r, d) <= x < to ==> LocalDay(r, x) == d
    ensures DayTotal(r, d, from, to) == OpenCount(r, Max(from, Mid(r, d)), to)
  {
    hide SoundHours, RegularDay, WallAt, DaySpans, SumClipped;
    var spans, m := DaySpans(r, d), Mid(r, d);
    SpansFromMidnight(r, d);
    var inside := (x: int) => InSpans(spans, x);
    var open := (x: int) => r.Open(x);
    var a := Max(from, m);
    forall x | a <= x < to ensures open(x) <==> !r.HolidayOn(d) && inside(x) {
      OpenInDay(r, d, x);
    }
    SumIsCount(spans, from, to);
    CountSame(x => InSpans(spans, x), inside, from, to);
    CountNone(inside, from, Min(a, to));
    if from <= a <= to {
      CountSplit(inside, from, a, to);
    } else {
      CountNone(inside, from, to);
      CountNone(open, a, to);
    }
    if r.HolidayOn(d) {
      CountNone(open, a, to);
    } else {
      CountSame(open, inside, a, to);
    }
    CountSame(x => r.Open(x), open, a, to);
  }

  /** When the range ends on the repeated day, the result is exact if and only if nothing
      is open on that day, or the cap is about to stop the walk anyway. */
  lemma BetweenAtRepeatIff(r: Resolved, from: int, to: int, k: nat)
    requires MeetsRepeat(r, from, to, k)
    requires var d := LocalDay(r, from) + k; forall x :: Mid(r, d) <= x < to ==> LocalDay(r, x) == d
    ensures var m := Mid(r, LocalDay(r, from) + k);
      Between(r, from, to) == OpenCount(r, from, to)
      <==> (k == MAX_DAYS_WALK - 1 || forall x :: Max(from, m) <= x < to ==> !r.Open(x))
  {
    var d := LocalDay(r, from) + k;
    BetweenMeetsRepeat(r, from, to, k);
    assert RegularDay(r, d);
    hide SoundHours, RegularDay, NextDay, DayTotal, OpenCount, Between;
    DayTotalCounts(r, d, from, to);
    OpenSplit(r, from, Max(from, Mid(r, d)), to);
    NoneOpen(r, Max(from, Mid(r, d)), to);
    hide MAX_DAYS_WALK;
    OnceIff(MAX_DAYS_WALK - k, DayTotal(r, d, from, to));
  }

  lemma OnceIff(n: nat, once: nat)
    requires n > 0
    ensures n * once == once <==> n == 1 || once == 0
  {
    if n > 1 && once > 0 {
      assert n * once == (n - 1) * once + once;
      assert (n - 1) * once >= once;
    }
  }

  // ---- Add -------------------------------------------------------------------

  /** Restarted from the repeated midnight, the walk finds a duration if and only if its
      steps hold enough of that one day, and never leaves the day. */
  lemma {:induction false} RepeatedDayIsRescanned(r: Resolved, d: int, remaining: int, stop: int, n: nat)
    requires RegularDay(r, d) && SoundHours(r.sched) && remaining > 0
    requires NextDay(r.zone, Mid(r, d)) == Mid(r, d)
    requires forall i :: 0 <= i < |DaySpans(r, d)| ==> DaySpans(r, d)[i].end <= stop
    ensures match WalkAdd(r, Mid(r, d), remaining, n)
      case Some(t) => remaining <= n * DayTotal(r, d, Mid(r, d), stop) && Mid(r, d) < t <= stop
      case None => remaining > n * DayTotal(r, d, Mid(r, d), stop)
    decreases n
  {
    hide SoundHours, RegularDay, NextDay, DaySpans, DayTotal, ScanAt, StartOfDay, WallAt;
    var once := DayTotal(r, d, Mid(r, d), stop);
    if n > 0 {
      OnceMore(n, once);
      RescanFromMidnight(r, d, remaining, stop);
      assert StartOfDay(r.zone, Mid(r, d)) == Mid(r, d) by { MidIsStart(r, d); }
      var scan := ScanAt(r, Mid(r, d), remaining);
      if scan.Left? {
        RepeatedDayIsRescanned(r, d, scan.remaining, stop, n - 1);
      }
    }
  }

  lemma OnceMore(n: nat, once: nat)
    requires n > 0
    ensures n * once == (n - 1) * once + once && (n - 1) * once >= 0
  {
  }

  lemma RescanFromMidnight(r: Resolved, d: int, remaining: int, stop: int)
    requires RegularDay(r, d) && SoundHours(r.sched) && remaining > 0
    requires forall i :: 0 <= i < |DaySpans(r, d)| ==> DaySpans(r, d)[i].end <= stop
    ensures match ScanAt(r, Mid(r, d), remaining)
      case Reached(t) => Mid(r, d) < t <= stop && remaining <= DayTotal(r, d, Mid(r, d), stop)
      case Left(rest) => rest > 0 && rest == remaining - DayTotal(r, d, Mid(r, d), stop)
  {
    MidIsStart(r, d);
    hide SoundHours, RegularDay, DaySpans, SumClipped, ScanDay, StartOfDay, WallAt;
    RescanStep(r, d, Mid(r, d), remaining, stop);
  }

  /** One scan of the day either lands on it, or leaves what its total does not cover. */
  lemma RescanStep(r: Resolved, d: int, cursor: int, remaining: int, stop: int)
    requires RegularDay(r, d) && SoundHours(r.sched) && remaining > 0
    requires forall i :: 0 <= i < |DaySpans(r, d)| ==> DaySpans(r, d)[i].end <= stop
    ensures match ScanDay(DaySpans(r, d), cursor, remaining)
      case Reached(t) => cursor < t <= stop && remaining <= SumClipped(DaySpans(r, d), cursor, stop)
      case Left(rest) => rest > 0 && rest == remaining - SumClipped(DaySpans(r, d), cursor, stop)
  {
    hide SoundHours, RegularDay, DaySpans, ScanDay;
    var spans := DaySpans(r, d);
    SpansFromMidnight(r, d);
    ScanDayMeets(spans, cursor, remaining, stop);
    var scan := ScanDay(spans, cursor, remaining);
    if scan.Reached? {
      SumIsCount(spans, cursor, scan.at);
      SumIsCount(spans, cursor, stop);
      CountMonotone(x => InSpans(spans, x), cursor, scan.at, stop);
    }
  }

  lemma StepOfAdd(r: Resolved, cursor: int, remaining: int, n: nat)
    requires n > 0
    ensures WalkAdd(r, cursor, remaining, n)
         == match ScanAt(r, cursor, remaining)
            case Reached(at) => Some(at)
            case Left(rest) => WalkAdd(r, NextDay(r.zone, StartOfDay(r.zone, cursor)), rest, n - 1)
  {
    hide ScanAt, NextDay, StartOfDay;
  }

  /** One scan from anywhere on a day whose midnight repeats, and the restart after it. */
  lemma RestartOnDay(r: Resolved, cursor: int, d: int, stop: int, n: nat)
    requires SoundHours(r.sched) && RegularDay(r, LocalDay(r, cursor)) && d > 0
    requires NextDay(r.zone, Mid(r, LocalDay(r, cursor))) == Mid(r, LocalDay(r, cursor))
    requires var spans := DaySpans(r, LocalDay(r, cursor)); forall i :: 0 <= i < |spans| ==> spans[i].end <= stop
    ensures var day := LocalDay(r, cursor); var first := DayTotal(r, day, cursor, stop);
      match WalkAdd(r, cursor, d, n + 1)
      case Some(t) => if d <= first then cursor < t <= stop
        else WalkAdd(r, Mid(r, day), d - first, n) == Some(t)
      case None => d > first && WalkAdd(r, Mid(r, day), d - first, n).None?
  {
    var day := LocalDay(r, cursor);
    MidIsStart(r, day);
    assert StartOfDay(r.zone, cursor) == Mid(r, day);
    hide SoundHours, RegularDay, NextDay, DaySpans, SumClipped, ScanDay, StartOfDay, WallAt, WalkAdd;
    StepOfAdd(r, cursor, d, n + 1);
    if !r.HolidayOn(day) {
      RescanStep(r, day, cursor, d, stop);
    }
  }

  /** Starting on a day whose midnight repeats, Add lands on that day for as long as its
      4000 scans of it last, even before its own start, and then falls back. */
  lemma AddOnRepeatedDay(r: Resolved, from: int, d: int, stop: int)
    requires r.sched.configured && SoundHours(r.sched) && RegularDay(r, LocalDay(r, from)) && d > 0
    requires NextDay(r.zone, Mid(r, LocalDay(r, from))) == Mid(r, LocalDay(r, from))
    requires var spans := DaySpans(r, LocalDay(r, from)); forall i :: 0 <= i < |spans| ==> spans[i].end <= stop
    ensures var day := LocalDay(r, from);
      var first, again := DayTotal(r, day, from, stop), DayTotal(r, day, Mid(r, day), stop);
      && (d <= first ==> from < Add(r, from, d) <= stop)
      && (first < d <= first + (MAX_DAYS_WALK - 1) * again ==> Mid(r, day) < Add(r, from, d) <= stop)
      && (d > first + (MAX_DAYS_WALK - 1) * again ==> Add(r, from, d) == from + d)
  {
    hide SoundHours, RegularDay, NextDay, DaySpans, DayTotal, WalkAdd, MAX_DAYS_WALK;
    var day := LocalDay(r, from);
    var first := DayTotal(r, day, from, stop);
    CapIsPositive();
    RestartOnDay(r, from, d, stop, MAX_DAYS_WALK - 1);
    NoNegative(MAX_DAYS_WALK - 1, DayTotal(r, day, Mid(r, day), stop));
    if d > first {
      RepeatedDayIsRescanned(r, day, d - first, stop, MAX_DAYS_WALK - 1);
    }
  }

  lemma NoNegative(n: nat, once: nat)
    ensures n * once >= 0
  {
  }

  /** While the days ahead hold less than is asked for, the walk crosses them all and
      carries the rest on. */
  lemma {:induction false} AddCrosses(r: Resolved, day: int, cursor: int, remaining: int, n: nat, k: nat)
    requires 0 < k <= n && Sound(r, day, day + k) && Mid(r, day) <= cursor < Mid(r, day + 1)
    requires OpenCount(r, cursor, Mid(r, day + k)) < remaining
    ensures WalkAdd(r, cursor, remaining, n)
         == WalkAdd(r, Mid(r, day + k), remaining - OpenCount(r, cursor, Mid(r, day + k)), n - k)
    decreases k
  {
    hide SoundHours, RegularDay, ScanAt, NextDay, StartOfDay, WallAt, WalkAdd, OpenCount;
    var next, end := Mid(r, day + 1), Mid(r, day + k);
    MidMonotone(r, day + 1, day + k);
    OpenSplit(r, cursor, next, end);
    ScanAtMeets(r, day, cursor, remaining);
    StepOfAdd(r, cursor, remaining, n);
    StartAndNext(r, day, cursor);
    ReachedNeedsOpen(r, day, cursor, remaining);
    var rest := remaining - OpenCount(r, cursor, next);
    if k == 1 {
      OpenSplit(r, next, next, next);
    } else {
      NextMid(r, day + 1);
      AddCrosses(r, day + 1, next, rest, n - 1, k - 1);
    }
  }

  lemma StartAndNext(r: Resolved, day: int, cursor: int)
    requires Sound(r, day, day + 1) && Mid(r, day) <= cursor < Mid(r, day + 1)
    ensures NextDay(r.zone, StartOfDay(r.zone, cursor)) == Mid(r, day + 1)
  {
    assert RegularDay(r, day) && RegularDay(r, day + 1);
    hide SoundHours;
    DayRange(r, day, cursor);
    NextMid(r, day);
    hide RegularDay;
  }

  lemma ReachedNeedsOpen(r: Resolved, day: int, cursor: int, remaining: int)
    requires Sound(r, day, day + 1) && Mid(r, day) <= cursor < Mid(r, day + 1)
    requires OpenCount(r, cursor, Mid(r, day + 1)) < remaining
    ensures ScanAt(r, cursor, remaining).Left?
  {
    hide SoundHours, RegularDay, ScanAt, OpenCount;
    OpenSplit(r, cursor, cursor, Mid(r, day + 1));
    ScanAtMeets(r, day, cursor, remaining);
    var scan := ScanAt(r, cursor, remaining);
    if scan.Reached? {
      OpenMonotone(r, cursor, scan.at, Mid(r, day + 1));
    }
  }

  /** Add when the walk meets a repeated midnight after k regular days: right while those
      days hold the duration; then landing on the repeated day for as long as its scans
      last; and then falling back. */
  lemma AddMeetsRepeat(r: Resolved, from: int, d: int, k: nat, stop: int)
    requires 0 < k < MAX_DAYS_WALK && Sound(r, LocalDay(r, from), LocalDay(r, from) + k) && d > 0
    requires var m := Mid(r, LocalDay(r, from) + k); NextDay(r.zone, m) == m
    requires var spans := DaySpans(r, LocalDay(r, from) + k); forall i :: 0 <= i < |spans| ==> spans[i].end <= stop
    ensures var day := LocalDay(r, from) + k; var m := Mid(r, day);
      var before, again := OpenCount(r, from, m), DayTotal(r, day, m, stop);
      && (d <= before ==> FirstAfter(r, from, d, Add(r, from, d)))
      && (before < d <= before + (MAX_DAYS_WALK - k) * again ==> m < Add(r, from, d) <= stop)
      && (d > before + (MAX_DAYS_WALK - k) * again ==> Add(r, from, d) == from + d)
  {
    hide Sound, NextDay, DaySpans, DayTotal, WalkAdd, OpenCount, MAX_DAYS_WALK, Add, FirstAfter;
    var first := LocalDay(r, from);
    var m := Mid(r, first + k);
    NoNegative(MAX_DAYS_WALK - k, DayTotal(r, first + k, m, stop));
    if d <= OpenCount(r, from, m) {
      AddFindsLeastWithin(r, from, d, k);
    } else {
      AddPastDays(r, from, d, k, stop, MAX_DAYS_WALK);
      AddIsWalk(r, from, d, MAX_DAYS_WALK);
    }
  }

  lemma AddIsWalk(r: Resolved, from: int, d: int, n: nat)
    requires d > 0 && n == MAX_DAYS_WALK
    ensures Add(r, from, d) == if !r.sched.configured then from + d
      else if WalkAdd(r, from, d, n).Some? then WalkAdd(r, from, d, n).value else from + d
  {
    hide WalkAdd;
  }

  lemma AddPastDays(r: Resolved, from: int, d: int, k: nat, stop: int, n: nat)
    requires 0 < k < n && Sound(r, LocalDay(r, from), LocalDay(r, from) + k)
    requires var m := Mid(r, LocalDay(r, from) + k); NextDay(r.zone, m) == m && d > OpenCount(r, from, m)
    requires var spans := DaySpans(r, LocalDay(r, from) + k); forall i :: 0 <= i < |spans| ==> spans[i].end <= stop
    ensures r.sched.configured
    ensures var day := LocalDay(r, from) + k; var m := Mid(r, day);
      var rest, held := d - OpenCount(r, from, m), (n - k) * DayTotal(r, day, m, stop);
      match WalkAdd(r, from, d, n)
      case Some(t) => rest <= held && m < t <= stop
      case None => rest > held
  {
    hide Sound, SoundHours, RegularDay, NextDay, DaySpans, DayTotal, WalkAdd, OpenCount, LocalDay, Mid;
    var first := LocalDay(r, from);
    SoundDay(r, first, first + k, first);
    SoundDay(r, first, first + k, first + 1);
    SoundDay(r, first, first + k, first + k);
    DayRange(r, first, from);
    var m := Mid(r, first + k);
    var rest := d - OpenCount(r, from, m);
    AddCrosses(r, first, from, d, n, k);
    RepeatedDayIsRescanned(r, first + k, rest, stop, n - k);
  }

  lemma SoundDay(r: Resolved, lo: int, hi: int, d: int)
    requires Sound(r, lo, hi) && lo <= d <= hi
    ensures r.sched.configured && SoundHours(r.sched) && RegularDay(r, d)
  {
    hide SoundHours, RegularDay;
  }

  lemma CapIsPositive()
    ensures MAX_DAYS_WALK >= 1
  {
  }

  /** After the day's hours are over, Add returns an instant no later than its start if
      and only if the duration fits in the day's remaining scans. */
  lemma AddAfterHoursIff(r: Resolved, from: int, d: int)
    requires r.sched.configured && SoundHours(r.sched) && RegularDay(r, LocalDay(r, from)) && d > 0
    requires NextDay(r.zone, Mid(r, LocalDay(r, from))) == Mid(r, LocalDay(r, from))
    requires var spans := DaySpans(r, LocalDay(r, from)); forall i :: 0 <= i < |spans| ==> spans[i].end <= from
    ensures var day := LocalDay(r, from);
      Add(r, from, d) <= from <==> d <= (MAX_DAYS_WALK - 1) * DayTotal(r, day, Mid(r, day), from)
  {
    hide SoundHours, RegularDay, NextDay, DaySpans, Add, MAX_DAYS_WALK;
    AddOnRepeatedDay(r, from, d, from);
    NoneClipped(DaySpans(r, LocalDay(r, from)), from);
  }

  lemma {:induction false} NoneClipped(spans: seq<Span>, a: int)
    ensures SumClipped(spans, a, a) == 0
  {
    if spans != [] {
      NoneClipped(spans[1..], a);
    }
  }

  // ---- a zone that skips a midnight --------------------------------------------

  const HOUR: int := 3_600_000_000_000

  /** Three hours behind UTC, then two, from what would have been day 1's midnight. */
  function GapOffset(t: int): int {
    if t < 97_200_000_000_000 then -10_800_000_000_000 else -7_200_000_000_000
  }

  /** time.Date guesses the offset from the reading itself, then looks it up. */
  const GAP_ZONE: Zone := Zone(t => t + GapOffset(t), w => w - GapOffset(w - GapOffset(w)))

  /** Open from 09:00 to 10:00 on day 0's weekday. */
  const GAP_HOURS: Resolved :=
    Resolved(Schedule("", map[4 := [Interval(540, 600)]], true), GAP_ZONE,
             d => CivilDate(1970, 1, d), [], "")

  lemma GapLocal(t: int)
    requires t < 27 * HOUR
    ensures GAP_ZONE.local(t) == t - 3 * HOUR
  {
  }

  lemma GapAt(wall: int)
    requires wall <= 24 * HOUR
    ensures GAP_ZONE.at(wall) == if wall < 24 * HOUR then wall + 3 * HOUR else 26 * HOUR
  {
  }

  lemma GapLocalDay(t: int)
    requires 3 * HOUR <= t < 27 * HOUR
    ensures DayOf(GAP_ZONE.local(t)) == 0
  {
    hide GAP_ZONE;
    GapLocal(t);
    DayOfWall(t - 3 * HOUR, 0);
    hide DayOf;
  }

  lemma StartFromDay(z: Zone, t: int)
    requires DayOf(z.local(t)) == 0
    ensures StartOfDay(z, t) == z.at(0)
  {
    hide DayOf;
  }

  lemma GapDayStart(t: int)
    requires 3 * HOUR <= t < 27 * HOUR
    ensures DayOf(GAP_ZONE.local(t)) == 0 && StartOfDay(GAP_ZONE, t) == 3 * HOUR
  {
    hide GAP_ZONE, DayOf, StartOfDay;
    GapLocalDay(t);
    StartFromDay(GAP_ZONE, t);
    GapAt(0);
  }

  /** Stepping from the first day's midnight, 03:00 UTC, aims at 24:00, lands at 23:00
      and returns. */
  lemma GapStep()
    ensures NextDay(GAP_ZONE, 3 * HOUR) == 3 * HOUR
  {
    hide GAP_ZONE, StartOfDay, WallAt;
    GapLocal(3 * HOUR);
    GapAt(24 * HOUR);
    GapDayStart(26 * HOUR);
    WholeDay();
  }

  lemma WholeDay()
    ensures WallAt(1, 0) == 24 * HOUR
  {
  }

  lemma GapSpans()
    ensures DaySpans(GAP_HOURS, 0) == [Span(12 * HOUR, 13 * HOUR)] && !GAP_HOURS.HolidayOn(0)
  {
    var iv := Interval(540, 600);
    assert GAP_HOURS.IntervalsOn(0) == [iv] && GAP_HOURS.zone == GAP_ZONE;
    GapAt(9 * HOUR);
    GapAt(10 * HOUR);
    assert WallAt(0, 540) == 9 * HOUR && WallAt(0, 600) == 10 * HOUR;
    hide GAP_ZONE, HOUR, WallAt;
    assert SpanOf(GAP_ZONE, 0, iv) == Span(12 * HOUR, 13 * HOUR);
    assert SortByStart([iv]) == [iv];
    hide SpanOf, SortByStart, Weekday;
  }

  lemma GapScans(d: int)
    requires 0 < d <= HOUR
    ensures SumClipped([Span(12 * HOUR, 13 * HOUR)], 3 * HOUR, 15 * HOUR) == HOUR
    ensures ScanDay([Span(12 * HOUR, 13 * HOUR)], 15 * HOUR, d) == Left(d)
    ensures ScanDay([Span(12 * HOUR, 13 * HOUR)], 3 * HOUR, d) == Reached(12 * HOUR + d)
  {
    hide GAP_HOURS, GAP_ZONE;
    assert [Span(12 * HOUR, 13 * HOUR)][1..] == [];
  }

  lemma GapWalk(n: nat)
    ensures WalkBetween(GAP_HOURS, 3 * HOUR, 3 * HOUR, 15 * HOUR, n) == n * HOUR
  {
    hide DaySpans, NextDay, GAP_ZONE, StartOfDay, SumClipped, WalkBetween;
    GapDayStart(3 * HOUR);
    GapStep();
    GapSpans();
    GapScans(HOUR);
    assert GAP_HOURS.zone == GAP_ZONE;
    hide GAP_HOURS;
    RepeatedDayIsRecounted(GAP_HOURS, 3 * HOUR, 3 * HOUR, 15 * HOUR, n);
  }

  lemma GapHoursAreSound()
    ensures SoundHours(GAP_HOURS.sched) && GAP_HOURS.sched.configured
  {
    hide GAP_ZONE;
  }

  lemma GapDayIsIrregular()
    ensures !RegularDay(GAP_HOURS, 1)
  {
    assert GAP_HOURS.zone == GAP_ZONE;
    hide GAP_HOURS, GAP_ZONE, WallAt;
    GapAt(24 * HOUR);
    GapLocal(26 * HOUR);
    WholeDay();
  }

  lemma GapZoneOf()
    ensures GAP_HOURS.zone == GAP_ZONE
  {
  }

  lemma GapBetween(n: nat)
    requires n == MAX_DAYS_WALK
    ensures Between(GAP_HOURS, 3 * HOUR, 15 * HOUR) == n * HOUR
  {
    hide WalkBetween, StartOfDay, GAP_ZONE, SoundHours, GAP_HOURS;
    GapZoneOf();
    GapHoursAreSound();
    GapDayStart(3 * HOUR);
    GapWalk(n);
  }

  /** Where the clocks skip a midnight, stepping to the next day can return the
      same day: this twelve-hour range is measured as 4000 hours of business time. */
  lemma MissingMidnightRepeatsADay()
    ensures SoundHours(GAP_HOURS.sched) && GAP_HOURS.sched.configured
    ensures StartOfDay(GAP_HOURS.zone, 3 * HOUR) == 3 * HOUR == NextDay(GAP_HOURS.zone, 3 * HOUR)
    ensures Between(GAP_HOURS, 3 * HOUR, 15 * HOUR) == 4000 * HOUR
    ensures OpenCount(GAP_HOURS, 3 * HOUR, 15 * HOUR) <= 12 * HOUR
    ensures !RegularDay(GAP_HOURS, 1)
  {
    hide StartOfDay, NextDay, GAP_ZONE, SoundHours, RegularDay, Between, GAP_HOURS;
    GapZoneOf();
    GapHoursAreSound();
    GapDayStart(3 * HOUR);
    GapStep();
    GapDayIsIrregular();
    GapBetween(MAX_DAYS_WALK);
  }

  /** A walk of two steps or more finds the day over, returns to its midnight and lands
      before its own start. */
  lemma GapAdd(d: int, n: nat)
    requires 0 < d <= HOUR && n >= 2
    ensures WalkAdd(GAP_HOURS, 15 * HOUR, d, n) == Some(12 * HOUR + d)
  {
    hide GAP_HOURS, GAP_ZONE, NextDay, StartOfDay, HOUR, ScanAt;
    GapScanAt(d);
    assert WalkAdd(GAP_HOURS, 3 * HOUR, d, n - 1) == Some(12 * HOUR + d);
  }

  lemma GapScanAt(d: int)
    requires 0 < d <= HOUR
    ensures ScanAt(GAP_HOURS, 15 * HOUR, d) == Left(d)
    ensures NextDay(GAP_HOURS.zone, StartOfDay(GAP_HOURS.zone, 15 * HOUR)) == 3 * HOUR
    ensures ScanAt(GAP_HOURS, 3 * HOUR, d) == Reached(12 * HOUR + d)
  {
    hide GAP_HOURS, GAP_ZONE, NextDay, StartOfDay, DaySpans, ScanDay, DayOf, HOUR;
    GapZoneOf();
    GapStarts();
    GapStep();
    GapSpans();
    GapScans(d);
  }

  lemma GapStarts()
    ensures StartOfDay(GAP_ZONE, 3 * HOUR) == 3 * HOUR == StartOfDay(GAP_ZONE, 15 * HOUR)
    ensures DayOf(GAP_ZONE.local(3 * HOUR)) == 0
  {
    hide GAP_ZONE, StartOfDay, DayOf;
    GapDayStart(3 * HOUR);
    GapDayStart(15 * HOUR);
  }

  /** In the same zone, adding an hour or less after closing gives an instant that morning,
      before the start. */
  lemma MissingMidnightAddsBackwards(d: int)
    requires 0 < d <= HOUR
    ensures Add(GAP_HOURS, 15 * HOUR, d) == 12 * HOUR + d < 15 * HOUR
  {
    GapHoursAreSound();
    hide GAP_HOURS, GAP_ZONE, WalkAdd, SoundHours;
    GapAdd(d, MAX_DAYS_WALK);
  }
}
