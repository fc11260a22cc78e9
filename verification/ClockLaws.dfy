/** What the capped day walks of BusinessClock compute, stated against the
    pointwise specification Resolved.Open. */
module ClockLaws {
  import opened Text
  import opened OpeningHours
  import opened Calendar
  import opened Counting
  import opened BusinessClock

  // ---- hypotheses --------------------------------------------------------

  /** time.Date finds the instant at which the wall clock passes the reading, and
      it passes it once: no clock change straddles it. */
  ghost predicate Crosses(z: Zone, wall: int) {
    forall t :: z.at(wall) <= t <==> wall <= z.local(t)
  }

  /** The day has a local midnight, and the edges of its hours are unambiguous. */
  ghost predicate RegularDay(r: Resolved, d: int) {
    && Crosses(r.zone, WallAt(d, 0))
    && r.zone.local(r.zone.at(WallAt(d, 0))) == WallAt(d, 0)
    && forall iv :: iv in r.IntervalsOn(d) ==>
         Crosses(r.zone, WallAt(d, iv.startMin)) && Crosses(r.zone, WallAt(d, iv.endMin))
  }

  ghost predicate Regular(r: Resolved, lo: int, hi: int) {
    forall d :: lo <= d <= hi ==> RegularDay(r, d)
  }

  /** A configured, validated schedule whose days lo to hi are regular. */
  ghost predicate Sound(r: Resolved, lo: int, hi: int) {
    r.sched.configured && SoundHours(r.sched) && Regular(r, lo, hi)
  }

  /** A fixed offset makes every day of every schedule regular. */
  lemma FixedOffsetIsRegular(r: Resolved, offset: int, lo: int, hi: int)
    requires forall t :: r.zone.local(t) == t + offset
    requires forall w :: r.zone.at(w) == w - offset
    ensures Regular(r, lo, hi)
  {
    forall d | lo <= d <= hi ensures RegularDay(r, d) {
      forall w ensures Crosses(r.zone, w) {
      }
    }
  }

  // ---- days as ranges of instants ----------------------------------------

  function Mid(r: Resolved, d: int): int { r.zone.at(WallAt(d, 0)) }

  function LocalDay(r: Resolved, t: int): int { DayOf(r.zone.local(t)) }

  lemma CrossMonotone(z: Zone, a: int, b: int)
    requires Crosses(z, a) && Crosses(z, b) && a <= b
    ensures z.at(a) <= z.at(b)
  {
    assert b <= z.local(z.at(b));
  }

  lemma DayRange(r: Resolved, d: int, t: int)
    requires RegularDay(r, d) && RegularDay(r, d + 1)
    ensures LocalDay(r, t) == d <==> Mid(r, d) <= t < Mid(r, d + 1)
  {
    DayOfWall(r.zone.local(t), d);
  }

  lemma MidIsStart(r: Resolved, d: int)
    requires RegularDay(r, d)
    ensures LocalDay(r, Mid(r, d)) == d
    ensures StartOfDay(r.zone, Mid(r, d)) == Mid(r, d)
  {
    DayOfWall(WallAt(d, 0), d);
  }

  /** The walk's step really reaches the next day. */
  lemma NextMid(r: Resolved, d: int)
    requires RegularDay(r, d) && RegularDay(r, d + 1)
    ensures NextDay(r.zone, Mid(r, d)) == Mid(r, d + 1)
    ensures Mid(r, d) < Mid(r, d + 1)
  {
    assert WallAt(d, 0) + WallAt(1, 0) == WallAt(d + 1, 0);
    MidIsStart(r, d + 1);
  }

  lemma {:induction false} MidMonotone(r: Resolved, lo: int, hi: int)
    requires lo <= hi && Regular(r, lo, hi)
    ensures Mid(r, lo) <= Mid(r, hi)
    decreases hi - lo
  {
    if lo < hi {
      NextMid(r, lo);
      MidMonotone(r, lo + 1, hi);
    }
  }

  // ---- one day's spans ---------------------------------------------------

  ghost predicate InSpans(spans: seq<Span>, x: int) {
    exists i :: 0 <= i < |spans| && spans[i].start <= x < spans[i].end
  }

  ghost predicate Ordered(spans: seq<Span>) {
    && (forall i :: 0 <= i < |spans| ==> spans[i].start <= spans[i].end)
    && (forall i, j :: 0 <= i < j < |spans| ==> spans[i].end <= spans[j].start)
  }

  ghost predicate Within(spans: seq<Span>, lo: int, hi: int) {
    forall i :: 0 <= i < |spans| ==> lo <= spans[i].start && spans[i].end <= hi
  }

  lemma IntervalsSound(r: Resolved, d: int)
    requires SoundHours(r.sched)
    ensures forall iv :: iv in r.IntervalsOn(d) ==> iv.startMin < iv.endMin <= 1440
    ensures PairwiseDisjoint(r.IntervalsOn(d))
  {
  }

  /** A day's spans are in order from its midnight on. */
  lemma SpansFromMidnight(r: Resolved, d: int)
    requires SoundHours(r.sched) && RegularDay(r, d)
    ensures Ordered(DaySpans(r, d)) && forall i :: 0 <= i < |DaySpans(r, d)| ==> Mid(r, d) <= DaySpans(r, d)[i].start
  {
    hide Weekday, SoundHours, SortByStart;
    var ivs := SortByStart(r.IntervalsOn(d));
    IntervalsSound(r, d);
    SortKeepsDisjointness(r.IntervalsOn(d));
    assert forall i :: 0 <= i < |ivs| ==> ivs[i] in r.IntervalsOn(d);
    AdjacentIsPairwise(ivs);
    hide PairwiseDisjoint, RegularDay, Crosses;
    forall i | 0 <= i < |ivs|
      ensures Mid(r, d) <= SpanOf(r.zone, d, ivs[i]).start <= SpanOf(r.zone, d, ivs[i]).end
    {
      EdgesAfter(r, d, ivs[i]);
    }
    forall i, j | 0 <= i < j < |ivs|
      ensures SpanOf(r.zone, d, ivs[i]).end <= SpanOf(r.zone, d, ivs[j]).start
    {
      EdgesCross(r, d, ivs[i]);
      EdgesCross(r, d, ivs[j]);
      CrossMonotone(r.zone, WallAt(d, ivs[i].endMin), WallAt(d, ivs[j].startMin));
    }
  }

  lemma SpansOrdered(r: Resolved, d: int)
    requires SoundHours(r.sched) && RegularDay(r, d) && RegularDay(r, d + 1)
    ensures Ordered(DaySpans(r, d)) && Within(DaySpans(r, d), Mid(r, d), Mid(r, d + 1))
  {
    hide Weekday, SoundHours, SortByStart, RegularDay, Crosses;
    var ivs := SortByStart(r.IntervalsOn(d));
    SpansFromMidnight(r, d);
    forall i | 0 <= i < |ivs| ensures SpanOf(r.zone, d, ivs[i]).end <= Mid(r, d + 1) {
      assert ivs[i] in r.IntervalsOn(d);
      EdgeBefore(r, d, ivs[i]);
    }
  }

  lemma EdgesCross(r: Resolved, d: int, iv: Interval)
    requires RegularDay(r, d) && iv in r.IntervalsOn(d)
    ensures Crosses(r.zone, WallAt(d, iv.startMin)) && Crosses(r.zone, WallAt(d, iv.endMin))
  {
  }

  lemma EdgesAfter(r: Resolved, d: int, iv: Interval)
    requires SoundHours(r.sched) && RegularDay(r, d) && iv in r.IntervalsOn(d)
    ensures Mid(r, d) <= SpanOf(r.zone, d, iv).start <= SpanOf(r.zone, d, iv).end
  {
    IntervalsSound(r, d);
    CrossMonotone(r.zone, WallAt(d, 0), WallAt(d, iv.startMin));
    CrossMonotone(r.zone, WallAt(d, iv.startMin), WallAt(d, iv.endMin));
  }

  lemma EdgeBefore(r: Resolved, d: int, iv: Interval)
    requires SoundHours(r.sched) && RegularDay(r, d) && RegularDay(r, d + 1) && iv in r.IntervalsOn(d)
    ensures SpanOf(r.zone, d, iv).end <= Mid(r, d + 1)
  {
    IntervalsSound(r, d);
    CrossMonotone(r.zone, WallAt(d, iv.endMin), WallAt(d + 1, 0));
  }

  /** An interval contains an instant's local minute exactly when its span
      contains the instant. */
  lemma SpanContains(r: Resolved, d: int, iv: Interval, x: int)
    requires SoundHours(r.sched) && RegularDay(r, d) && iv in r.IntervalsOn(d) && LocalDay(r, x) == d
    ensures var s := SpanOf(r.zone, d, iv); s.start <= x < s.end <==> iv.Contains(MinuteOf(r.zone.local(x)))
  {
    IntervalsSound(r, d);
    EdgesCross(r, d, iv);
    hide RegularDay, SoundHours;
    MinuteOfWall(r.zone.local(x), iv.startMin, iv.endMin);
  }

  lemma OpenInDay(r: Resolved, d: int, x: int)
    requires r.sched.configured && SoundHours(r.sched) && RegularDay(r, d) && LocalDay(r, x) == d
    ensures r.Open(x) <==> !r.HolidayOn(d) && InSpans(DaySpans(r, d), x)
  {
    hide SoundHours, RegularDay, Weekday, MinuteOf, WallAt, SortByStart;
    var ivs := r.IntervalsOn(d);
    var sorted := SortByStart(ivs);
    var minute := MinuteOf(r.zone.local(x));
    forall iv | iv in ivs
      ensures var s := SpanOf(r.zone, d, iv); s.start <= x < s.end <==> iv.Contains(minute)
    {
      SpanContains(r, d, iv, x);
    }
    if InSpans(DaySpans(r, d), x) {
      var i :| 0 <= i < |sorted| && SpanOf(r.zone, d, sorted[i]).start <= x < SpanOf(r.zone, d, sorted[i]).end;
      assert sorted[i] in ivs;
      var k :| 0 <= k < |ivs| && ivs[k] == sorted[i];
      assert ivs[k].Contains(minute);
    }
    if r.sched.IsOpenAt(Weekday(d), minute) {
      var k :| 0 <= k < |ivs| && ivs[k].Contains(minute);
      assert ivs[k] in sorted;
      var i :| 0 <= i < |sorted| && sorted[i] == ivs[k];
      assert DaySpans(r, d)[i] == SpanOf(r.zone, d, ivs[k]);
    }
  }

  lemma {:induction false} SumIsCount(spans: seq<Span>, a: int, b: int)
    requires Ordered(spans)
    ensures SumClipped(spans, a, b) == Count(x => InSpans(spans, x), a, b)
  {
    if spans == [] {
      CountNone(x => InSpans(spans, x), a, b);
    } else {
      var rest := spans[1..];
      SumIsCount(rest, a, b);
      forall x ensures InSpans(spans, x) <==> InSpans(rest, x) || spans[0].start <= x < spans[0].end {
        if InSpans(rest, x) {
          var i :| 0 <= i < |rest| && rest[i].start <= x < rest[i].end;
          assert spans[i + 1] == rest[i];
        }
      }
      CountBlock(x => InSpans(spans, x), x => InSpans(rest, x), spans[0].start, spans[0].end, a, b);
    }
  }

  ghost function OpenCount(r: Resolved, a: int, b: int): nat {
    Count(x => r.Open(x), a, b)
  }

  lemma OpenSplit(r: Resolved, a: int, m: int, b: int)
    requires a <= m <= b
    ensures OpenCount(r, a, b) == OpenCount(r, a, m) + OpenCount(r, m, b)
  {
    CountSplit(x => r.Open(x), a, m, b);
  }

  lemma OpenMonotone(r: Resolved, a: int, b: int, c: int)
    requires b <= c
    ensures OpenCount(r, a, b) <= OpenCount(r, a, c)
  {
    CountMonotone(x => r.Open(x), a, b, c);
  }

  /** Within one day, the clipped spans add up to the open instants. */
  lemma DayCount(r: Resolved, d: int, a: int, b: int)
    requires Sound(r, d, d + 1) && Mid(r, d) <= a <= b <= Mid(r, d + 1)
    ensures OpenCount(r, a, b) == if r.HolidayOn(d) then 0 else SumClipped(DaySpans(r, d), a, b)
  {
    SpansOrdered(r, d);
    forall x | a <= x < b ensures r.Open(x) <==> !r.HolidayOn(d) && InSpans(DaySpans(r, d), x) {
      DayRange(r, d, x);
      OpenInDay(r, d, x);
    }
    hide DaySpans, SoundHours, Regular;
    if r.HolidayOn(d) {
      CountNone(x => r.Open(x), a, b);
    } else {
      SumIsCount(DaySpans(r, d), a, b);
      CountSame(x => r.Open(x), x => InSpans(DaySpans(r, d), x), a, b);
    }
  }

  /** Spans inside [lo, hi) only see the part of the range inside it. */
  lemma {:induction false} SumWithin(spans: seq<Span>, lo: int, hi: int, a: int, b: int)
    requires Within(spans, lo, hi) && Ordered(spans)
    ensures SumClipped(spans, a, b) == SumClipped(spans, Max(a, lo), Min(b, hi))
    ensures b <= a || b <= lo || hi <= a ==> SumClipped(spans, a, b) == 0
  {
    if spans != [] {
      SumWithin(spans[1..], lo, hi, a, b);
    }
  }

  // ---- Between -----------------------------------------------------------

  lemma {:induction false} WalkBetweenCounts(r: Resolved, d: int, from: int, to: int, n: nat)
    requires Sound(r, d, d + n)
    ensures WalkBetween(r, Mid(r, d), from, to, n) == OpenCount(r, Max(from, Mid(r, d)), Min(to, Mid(r, d + n)))
    decreases n
  {
    hide SoundHours, DaySpans, RegularDay, WallAt;
    if n > 0 {
      MidMonotone(r, d + 1, d + n);
      NextMid(r, d);
      MidIsStart(r, d);
      if Mid(r, d) <= to {
        WalkBetweenCounts(r, d + 1, from, to, n - 1);
        var a, b := Max(from, Mid(r, d)), Min(to, Mid(r, d + 1));
        SpansOrdered(r, d);
        SumWithin(DaySpans(r, d), Mid(r, d), Mid(r, d + 1), from, to);
        if a <= b {
          DayCount(r, d, a, b);
          if Mid(r, d + 1) < to {
            OpenSplit(r, a, b, Min(to, Mid(r, d + n)));
          }
        }
      }
    }
  }

  /** The last instant the walk from a day can see. */
  function Horizon(r: Resolved, from: int): int {
    Mid(r, LocalDay(r, from) + MAX_DAYS_WALK)
  }

  ghost predicate SoundFrom(r: Resolved, from: int) {
    Sound(r, LocalDay(r, from), LocalDay(r, from) + MAX_DAYS_WALK)
  }

  lemma FromWithin(r: Resolved, from: int)
    requires SoundFrom(r, from)
    ensures Mid(r, LocalDay(r, from)) <= from < Mid(r, LocalDay(r, from) + 1) <= Horizon(r, from)
  {
    hide RegularDay, SoundHours;
    DayRange(r, LocalDay(r, from), from);
    MidMonotone(r, LocalDay(r, from) + 1, LocalDay(r, from) + MAX_DAYS_WALK);
  }

  /** The walk refines the pointwise specification: it is the number of open
      instants, up to the cap. */
  lemma BetweenCountsOpenInstants(r: Resolved, from: int, to: int)
    requires SoundFrom(r, from)
    ensures Between(r, from, to) == OpenCount(r, from, Min(to, Horizon(r, from)))
  {
    hide RegularDay, SoundHours, WalkBetween;
    if from < to {
      FromWithin(r, from);
      WalkBetweenCounts(r, LocalDay(r, from), from, to, MAX_DAYS_WALK);
    }
  }

  /** Past the end of the range the walk adds nothing. */
  lemma {:induction false} WalkStops(r: Resolved, d: int, from: int, to: int, n: nat, k: nat)
    requires k <= n && Sound(r, d, d + k) && to < Mid(r, d + k)
    ensures WalkBetween(r, Mid(r, d), from, to, n) == WalkBetween(r, Mid(r, d), from, to, k)
    decreases k
  {
    hide SoundHours, DaySpans, RegularDay, WallAt, SumClipped;
    if k > 0 {
      NextMid(r, d);
      MidIsStart(r, d);
      WalkStops(r, d + 1, from, to, n - 1, k - 1);
    }
  }

  /** Within the cap, the walk is exact as soon as the days it crosses are regular,
      whatever the zone does elsewhere. */
  lemma BetweenIsExactWithin(r: Resolved, from: int, to: int, k: nat)
    requires 0 < k <= MAX_DAYS_WALK && Sound(r, LocalDay(r, from), LocalDay(r, from) + k)
    requires to < Mid(r, LocalDay(r, from) + k)
    ensures Between(r, from, to) == OpenCount(r, from, to)
  {
    hide RegularDay, SoundHours, WalkBetween;
    if from < to {
      var d := LocalDay(r, from);
      DayRange(r, d, from);
      WalkStops(r, d, from, to, MAX_DAYS_WALK, k);
      WalkBetweenCounts(r, d, from, to, k);
    }
  }

  /** The cap is harmless exactly when nothing is open between it and the end. */
  lemma BetweenIsExactIff(r: Resolved, from: int, to: int)
    requires SoundFrom(r, from)
    ensures Between(r, from, to) == OpenCount(r, from, to)
       <==> forall x :: Horizon(r, from) <= x < to ==> !r.Open(x)
  {
    hide SoundFrom, Between;
    BetweenCountsOpenInstants(r, from, to);
    if Horizon(r, from) < to {
      FromWithin(r, from);
      OpenSplit(r, from, Horizon(r, from), to);
      NoneOpen(r, Horizon(r, from), to);
    }
  }

  lemma NoneOpen(r: Resolved, a: int, b: int)
    ensures OpenCount(r, a, b) == 0 <==> forall x :: a <= x < b ==> !r.Open(x)
  {
    var open := (x: int) => r.Open(x);
    CountNone(open, a, b);
    assert forall x :: open(x) <==> r.Open(x);
  }

  /** For an unconfigured schedule the clock counts every instant while Status
      still honours holidays; they agree exactly when no holiday falls inside. */
  lemma UnconfiguredIsExactIff(r: Resolved, from: int, to: int)
    requires !r.sched.configured && from <= to && to - from <= MAX_INT64
    ensures Between(r, from, to) == OpenCount(r, from, to)
       <==> forall x :: from <= x < to ==> !r.HolidayOn(LocalDay(r, x))
  {
    var open := (x: int) => r.Open(x);
    CountAll(open, from, to);
    assert forall x :: open(x) <==> !r.HolidayOn(LocalDay(r, x));
  }

  // ---- Add ---------------------------------------------------------------

  lemma {:induction false} SumNone(spans: seq<Span>, a: int, b: int)
    requires forall i :: 0 <= i < |spans| ==> b <= spans[i].start
    ensures SumClipped(spans, a, b) == 0
  {
    if spans != [] {
      SumNone(spans[1..], a, b);
    }
  }

  /** Scanning a day either stops just after the open instant that uses up the
      duration, or uses up the whole rest of the day. */
  lemma {:induction false} ScanDayMeets(spans: seq<Span>, cursor: int, remaining: int, stop: int)
    requires Ordered(spans) && remaining > 0 && forall i :: 0 <= i < |spans| ==> spans[i].end <= stop
    ensures match ScanDay(spans, cursor, remaining)
      case Reached(t) =>
        cursor < t <= stop && SumClipped(spans, cursor, t) == remaining && InSpans(spans, t - 1)
      case Left(rest) => rest > 0 && rest == remaining - SumClipped(spans, cursor, stop)
  {
    if spans != [] {
      var iv, tail := spans[0], spans[1..];
      var start := Max(iv.start, cursor);
      var rest := if iv.end <= cursor then remaining else remaining - (iv.end - start);
      if rest <= 0 {
        var t := start + remaining;
        SumNone(tail, cursor, t);
        assert spans[0].start <= t - 1 < spans[0].end;
      } else {
        ScanDayMeets(tail, cursor, rest, stop);
        var scan := ScanDay(tail, cursor, rest);
        if scan.Reached? {
          var i :| 0 <= i < |tail| && tail[i].start <= scan.at - 1 < tail[i].end;
          assert spans[i + 1] == tail[i];
        }
      }
    }
  }

  /** r is the first instant by which d open instants have passed since from. */
  ghost predicate FirstAfter(r: Resolved, from: int, d: int, t: int) {
    from < t && OpenCount(r, from, t) == d && r.Open(t - 1)
  }

  lemma FirstAfterShift(r: Resolved, from: int, m: int, d: int, t: int)
    requires from <= m && FirstAfter(r, m, d, t)
    ensures FirstAfter(r, from, OpenCount(r, from, m) + d, t)
  {
    hide OpenCount;
    OpenSplit(r, from, m, t);
  }

  lemma ScanAtMeets(r: Resolved, d: int, cursor: int, remaining: int)
    requires Sound(r, d, d + 1) && Mid(r, d) <= cursor < Mid(r, d + 1) && remaining > 0
    ensures match ScanAt(r, cursor, remaining)
      case Reached(t) => FirstAfter(r, cursor, remaining, t) && t <= Mid(r, d + 1)
      case Left(rest) => rest > 0 && rest == remaining - OpenCount(r, cursor, Mid(r, d + 1))
  {
    hide SoundHours, DaySpans, OpenCount;
    DayRange(r, d, cursor);
    MidIsStart(r, d);
    DayCount(r, d, cursor, Mid(r, d + 1));
    if !r.HolidayOn(d) {
      SpansOrdered(r, d);
      ScanDayMeets(DaySpans(r, d), cursor, remaining, Mid(r, d + 1));
      var scan := ScanDay(DaySpans(r, d), cursor, remaining);
      if scan.Reached? {
        DayCount(r, d, cursor, scan.at);
        DayRange(r, d, scan.at - 1);
        OpenInDay(r, d, scan.at - 1);
      }
    }
  }

  lemma {:induction false} WalkAddMeets(r: Resolved, d: int, cursor: int, remaining: int, n: nat)
    requires n > 0 && Sound(r, d, d + n) && Mid(r, d) <= cursor < Mid(r, d + 1) && remaining > 0
    ensures match WalkAdd(r, cursor, remaining, n)
      case Some(t) => FirstAfter(r, cursor, remaining, t) && t <= Mid(r, d + n)
      case None => OpenCount(r, cursor, Mid(r, d + n)) < remaining
    decreases n
  {
    hide SoundHours, RegularDay, ScanAt, FirstAfter, OpenCount, WallAt;
    DayRange(r, d, cursor);
    NextMid(r, d);
    MidMonotone(r, d + 1, d + n);
    ScanAtMeets(r, d, cursor, remaining);
    var scan := ScanAt(r, cursor, remaining);
    if scan.Left? && n > 1 {
      NextMid(r, d + 1);
      WalkAddMeets(r, d + 1, Mid(r, d + 1), scan.remaining, n - 1);
      OpenSplit(r, cursor, Mid(r, d + 1), Mid(r, d + n));
      var walk := WalkAdd(r, Mid(r, d + 1), scan.remaining, n - 1);
      if walk.Some? {
        FirstAfterShift(r, cursor, Mid(r, d + 1), scan.remaining, walk.value);
      }
    }
  }

  /** There is enough open time ahead for the walk to find d of it. */
  ghost predicate Reaches(r: Resolved, from: int, d: int) {
    d <= OpenCount(r, from, Horizon(r, from))
  }

  /** Add lands on the least instant that d open instants precede, and falls back
      to the plain sum exactly when the days it may walk hold less than d. */
  lemma AddFindsLeast(r: Resolved, from: int, d: int)
    requires SoundFrom(r, from) && d > 0
    ensures Reaches(r, from, d) ==>
      FirstAfter(r, from, d, Add(r, from, d)) && Add(r, from, d) <= Horizon(r, from)
    ensures !Reaches(r, from, d) ==> Add(r, from, d) == from + d
    ensures WalkAdd(r, from, d, MAX_DAYS_WALK).Some? <==> Reaches(r, from, d)
  {
    hide SoundHours, RegularDay, WalkAdd;
    FromWithin(r, from);
    WalkAddMeets(r, LocalDay(r, from), from, d, MAX_DAYS_WALK);
    var walk := WalkAdd(r, from, d, MAX_DAYS_WALK);
    if walk.Some? {
      OpenMonotone(r, from, walk.value, Horizon(r, from));
    }
  }

  lemma {:induction false} WalkAddMore(r: Resolved, cursor: int, remaining: int, k: nat, n: nat)
    requires k <= n && WalkAdd(r, cursor, remaining, k).Some?
    ensures WalkAdd(r, cursor, remaining, n) == WalkAdd(r, cursor, remaining, k)
    decreases k
  {
    hide ScanAt, NextDay, StartOfDay;
    var scan := ScanAt(r, cursor, remaining);
    if scan.Left? {
      WalkAddMore(r, NextDay(r.zone, StartOfDay(r.zone, cursor)), scan.remaining, k - 1, n - 1);
    }
  }

  /** Add is exact as soon as the regular days ahead hold d of open time, whatever the
      zone does after them. */
  lemma AddFindsLeastWithin(r: Resolved, from: int, d: int, k: nat)
    requires 0 < k <= MAX_DAYS_WALK && Sound(r, LocalDay(r, from), LocalDay(r, from) + k)
    requires 0 < d <= OpenCount(r, from, Mid(r, LocalDay(r, from) + k))
    ensures FirstAfter(r, from, d, Add(r, from, d))
  {
    hide SoundHours, RegularDay, WalkAdd;
    var day := LocalDay(r, from);
    DayRange(r, day, from);
    WalkAddMeets(r, day, from, d, k);
    WalkAddMore(r, from, d, k, MAX_DAYS_WALK);
  }

  /** Before it, less than d has passed; from it on, at least d. */
  lemma FirstAfterIsLeast(r: Resolved, from: int, d: int, t: int, s: int)
    requires FirstAfter(r, from, d, t) && from <= s
    ensures s < t <==> OpenCount(r, from, s) < d
  {
    var open := (x: int) => r.Open(x);
    if s < t {
      CountMonotone(open, from, s, t - 1);
      assert open(t - 1);
    } else {
      CountMonotone(open, from, t, s);
    }
  }

  lemma FirstAfterUnique(r: Resolved, from: int, d: int, s: int, t: int)
    requires FirstAfter(r, from, d, s) && FirstAfter(r, from, d, t)
    ensures s == t
  {
    hide OpenCount;
    FirstAfterIsLeast(r, from, d, t, s);
    FirstAfterIsLeast(r, from, d, s, t);
  }

  // ---- the laws ----------------------------------------------------------

  /** Add inverts Between. */
  lemma BetweenAfterAdd(r: Resolved, from: int, d: int)
    requires SoundFrom(r, from) && d > 0 && Reaches(r, from, d)
    ensures Between(r, from, Add(r, from, d)) == d
    ensures forall t :: from <= t < Add(r, from, d) ==> Between(r, from, t) < d
  {
    hide SoundFrom, Between, Add, OpenCount, Reaches;
    AddFindsLeast(r, from, d);
    var end := Add(r, from, d);
    BetweenCountsOpenInstants(r, from, end);
    forall t | from <= t < end ensures Between(r, from, t) < d {
      BetweenCountsOpenInstants(r, from, t);
      FirstAfterIsLeast(r, from, d, end, t);
    }
  }

  /** Adding back the open time before an instant lands on it, less the closed
      time that precedes it. */
  lemma AddAfterBetween(r: Resolved, from: int, to: int)
    requires SoundFrom(r, from) && to <= Horizon(r, from) && Between(r, from, to) > 0
    ensures var t := Add(r, from, Between(r, from, to));
      from < t <= to && forall x :: t <= x < to ==> !r.Open(x)
  {
    hide SoundFrom, Add;
    var d := Between(r, from, to);
    BetweenCountsOpenInstants(r, from, to);
    OpenMonotone(r, from, to, Horizon(r, from));
    AddFindsLeast(r, from, d);
    var t := Add(r, from, d);
    hide Between;
    FirstAfterIsLeast(r, from, d, t, to);
    OpenSplit(r, from, t, to);
    NoneOpen(r, t, to);
  }

  ghost predicate SoundOver(r: Resolved, from: int, days: nat) {
    Sound(r, LocalDay(r, from), LocalDay(r, from) + days)
  }

  /** A later start sees at least as far. */
  lemma HorizonGrows(r: Resolved, a: int, b: int)
    requires SoundOver(r, a, 2 * MAX_DAYS_WALK) && a <= b <= Horizon(r, a)
    ensures SoundFrom(r, a) && SoundFrom(r, b)
    ensures Horizon(r, a) <= Horizon(r, b)
  {
    hide SoundHours, RegularDay;
    var lo := LocalDay(r, a);
    var hi := lo + MAX_DAYS_WALK;
    FromWithin(r, a);
    DayAtMost(r, lo, hi, b);
    MidMonotone(r, lo + MAX_DAYS_WALK, LocalDay(r, b) + MAX_DAYS_WALK);
  }

  lemma {:induction false} DayAtMost(r: Resolved, lo: int, hi: int, t: int)
    requires lo <= hi && Regular(r, lo, hi + 1) && Mid(r, lo) <= t <= Mid(r, hi)
    ensures lo <= LocalDay(r, t) <= hi
    decreases hi - lo
  {
    hide RegularDay;
    NextMid(r, lo);
    if t < Mid(r, lo + 1) {
      DayRange(r, lo, t);
    } else if lo < hi {
      DayAtMost(r, lo + 1, hi, t);
    }
  }

  /** Business time over adjacent ranges adds up. */
  lemma BetweenComposes(r: Resolved, a: int, b: int, c: int)
    requires SoundOver(r, a, 2 * MAX_DAYS_WALK) && a <= b <= c <= Horizon(r, a)
    ensures Between(r, a, b) + Between(r, b, c) == Between(r, a, c)
  {
    hide SoundFrom, SoundOver, Between;
    HorizonGrows(r, a, b);
    BetweenCountsOpenInstants(r, a, b);
    BetweenCountsOpenInstants(r, b, c);
    BetweenCountsOpenInstants(r, a, c);
    OpenSplit(r, a, b, c);
  }

  lemma FirstAfterPasses(r: Resolved, from: int, d: int, t: int)
    requires FirstAfter(r, from, d, t)
    ensures from < t && OpenCount(r, from, t) == d
  {
  }

  /** Advancing twice is advancing by the sum. */
  lemma AddComposes(r: Resolved, from: int, d1: int, d2: int)
    requires SoundOver(r, from, 2 * MAX_DAYS_WALK) && d1 >= 0 && d2 >= 0
    requires Reaches(r, from, d1 + d2)
    ensures Add(r, Add(r, from, d1), d2) == Add(r, from, d1 + d2)
  {
    hide SoundOver, SoundHours, Regular, WalkAdd, OpenCount, FirstAfter;
    if d1 > 0 && d2 > 0 {
      AssertFrom(r, from);
      AddFindsLeast(r, from, d1);
      AddFindsLeast(r, from, d1 + d2);
      var mid, end := Add(r, from, d1), Add(r, from, d1 + d2);
      hide Add;
      FirstAfterPasses(r, from, d1, mid);
      HorizonGrows(r, from, mid);
      OpenSplit(r, from, mid, Horizon(r, from));
      OpenMonotone(r, mid, Horizon(r, from), Horizon(r, mid));
      AddFindsLeast(r, mid, d2);
      var last := Add(r, mid, d2);
      FirstAfterShift(r, from, mid, d2, last);
      FirstAfterUnique(r, from, d1 + d2, last, end);
    }
  }

  lemma AssertFrom(r: Resolved, from: int)
    requires SoundOver(r, from, 2 * MAX_DAYS_WALK)
    ensures SoundFrom(r, from)
  {
  }

  /** More time lands no earlier. */
  lemma AddMonotoneInDuration(r: Resolved, from: int, d1: int, d2: int)
    requires SoundFrom(r, from) && d1 <= d2 && Reaches(r, from, d2)
    ensures Add(r, from, d1) <= Add(r, from, d2)
  {
    hide SoundFrom, OpenCount;
    if d2 > 0 {
      AddFindsLeast(r, from, d2);
      if d1 > 0 {
        AddFindsLeast(r, from, d1);
        FirstAfterIsLeast(r, from, d1, Add(r, from, d1), Add(r, from, d2));
      }
    }
  }

  /** Starting later lands no earlier. */
  lemma AddMonotoneInStart(r: Resolved, a: int, b: int, d: int)
    requires SoundFrom(r, a) && SoundFrom(r, b) && a <= b && d > 0
    requires Reaches(r, a, d) && Reaches(r, b, d)
    ensures Add(r, a, d) <= Add(r, b, d)
  {
    hide SoundFrom;
    AddFindsLeast(r, a, d);
    AddFindsLeast(r, b, d);
    var end := Add(r, b, d);
    hide Add, Reaches;
    OpenSplit(r, a, b, end);
    FirstAfterIsLeast(r, a, d, Add(r, a, d), end);
  }
}
