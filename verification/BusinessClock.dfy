/** The business-time clock (domain/businesshours/service/businessclock.go): open
    time between two instants and an instant advanced by open time, both computed
    by a capped walk over local days. */
module BusinessClock {
  import opened Results
  import opened Text
  import opened OpeningHours
  import opened Calendar
  import opened Counting

  const MAX_DAYS_WALK: nat := 4000

  function Max(a: int, b: int): int { if a > b then a else b }
  function Min(a: int, b: int): int { if a < b then a else b }

  // ---- one day -----------------------------------------------------------

  /** startOfDay */
  function StartOfDay(z: Zone, t: int): int {
    z.at(WallAt(DayOf(z.local(t)), 0))
  }

  /** startOfDay(day.AddDate(0, 0, 1)) */
  function NextDay(z: Zone, day: int): int {
    StartOfDay(z, z.at(z.local(day) + WallAt(1, 0)))
  }

  datatype Span = Span(start: int, end: int)

  function SpanOf(z: Zone, d: int, iv: Interval): Span {
    Span(z.at(WallAt(d, iv.startMin)), z.at(WallAt(d, iv.endMin)))
  }

  function SpansOf(z: Zone, d: int, ivs: seq<Interval>): (spans: seq<Span>) {
    seq(|ivs|, i requires 0 <= i < |ivs| => SpanOf(z, d, ivs[i]))
  }

  /** dayIntervals of day number d */
  function DaySpans(r: Resolved, d: int): seq<Span> {
    SpansOf(r.zone, d, SortByStart(r.IntervalsOn(d)))
  }

  method DayIntervals(r: Resolved, day: int) returns (out: seq<Span>)
    ensures out == DaySpans(r, DayOf(r.zone.local(day)))
  {
    hide SortByStart, WallAt, Weekday, DayOf;
    var d := DayOf(r.zone.local(day));
    var ivs := SortByStart(r.IntervalsOn(d));
    out := [];
    for i := 0 to |ivs|
      invariant out == SpansOf(r.zone, d, ivs)[..i]
    {
      out := out + [SpanOf(r.zone, d, ivs[i])];
    }
  }

  /** isHoliday */
  method IsHoliday(r: Resolved, day: int) returns (b: bool)
    ensures b <==> r.HolidayOn(DayOf(r.zone.local(day)))
  {
    hide DayOf;
    var d := DayOf(r.zone.local(day));
    for i := 0 to |r.holidays|
      invariant forall j :: 0 <= j < i ==> !r.Closes(r.holidays[j], d)
    {
      if r.holidays[i].AppliesTo(r.channelId) && r.holidays[i].FallsOn(r.civil(d)) {
        assert r.Closes(r.holidays[i], d);
        return true;
      }
    }
    b := false;
  }

  // ---- the walks ---------------------------------------------------------

  function SumClipped(spans: seq<Span>, from: int, to: int): nat {
    if spans == [] then 0
    else Clip(spans[0].start, spans[0].end, from, to) + SumClipped(spans[1..], from, to)
  }

  function WalkBetween(r: Resolved, day: int, from: int, to: int, n: nat): nat
    decreases n, day
  {
    if n == 0 || day > to then 0
    else
      var d := DayOf(r.zone.local(day));
      (if r.HolidayOn(d) then 0 else SumClipped(DaySpans(r, d), from, to))
      + WalkBetween(r, NextDay(r.zone, day), from, to, n - 1)
  }

  datatype Scan = Reached(at: int) | Left(remaining: int)

  function ScanDay(spans: seq<Span>, cursor: int, remaining: int): Scan {
    if spans == [] then Left(remaining)
    else if spans[0].end <= cursor then ScanDay(spans[1..], cursor, remaining)
    else
      var start := Max(spans[0].start, cursor);
      if spans[0].end - start >= remaining then Reached(start + remaining)
      else ScanDay(spans[1..], cursor, remaining - (spans[0].end - start))
  }

  /** What one step of the advancing walk makes of the cursor's day. */
  function ScanAt(r: Resolved, cursor: int, remaining: int): Scan {
    var d := DayOf(r.zone.local(StartOfDay(r.zone, cursor)));
    if r.HolidayOn(d) then Left(remaining) else ScanDay(DaySpans(r, d), cursor, remaining)
  }

  /** None: the cap was reached first. */
  function WalkAdd(r: Resolved, cursor: int, remaining: int, n: nat): Option<int>
    decreases n, cursor
  {
    if n == 0 then None
    else
      match ScanAt(r, cursor, remaining)
      case Reached(at) => Some(at)
      case Left(rest) => WalkAdd(r, NextDay(r.zone, StartOfDay(r.zone, cursor)), rest, n - 1)
  }

  // ---- the two operations ------------------------------------------------

  datatype Failure = NoTenant | Unavailable

  /** Time.Sub saturates at the largest Duration. */
  function SubDuration(to: int, from: int): int {
    Max(MIN_INT64, Min(MAX_INT64, to - from))
  }

  function Between(r: Resolved, from: int, to: int): int {
    if to <= from then 0
    else if !r.sched.configured then SubDuration(to, from)
    else WalkBetween(r, StartOfDay(r.zone, from), from, to, MAX_DAYS_WALK)
  }

  function Add(r: Resolved, from: int, d: int): int {
    if d <= 0 then from
    else if !r.sched.configured then from + d
    else match WalkAdd(r, from, d, MAX_DAYS_WALK)
      case Some(at) => at
      case None => from + d
  }

  /** resolved stands for the repositories' answer, which is asked for only when
      the range is not empty. */
  method BusinessDurationBetween(tenant: bool, resolved: Result<Resolved, Failure>, from: int, to: int)
    returns (out: Result<int, Failure>)
    ensures out ==
      if !tenant then Err(NoTenant)
      else if to <= from then Ok(0)
      else if resolved.Err? then Err(resolved.error)
      else Ok(Between(resolved.value, from, to))
  {
    hide DaySpans, NextDay, StartOfDay, MAX_DAYS_WALK;
    if !tenant {
      return Err(NoTenant);
    }
    if to <= from {
      return Ok(0);
    }
    if resolved.Err? {
      return Err(resolved.error);
    }
    var r := resolved.value;
    if !r.sched.configured {
      return Ok(SubDuration(to, from));
    }
    var total, day, i := 0, StartOfDay(r.zone, from), 0;
    while i < MAX_DAYS_WALK && day <= to
      invariant 0 <= i <= MAX_DAYS_WALK
      invariant total + WalkBetween(r, day, from, to, MAX_DAYS_WALK - i)
             == WalkBetween(r, StartOfDay(r.zone, from), from, to, MAX_DAYS_WALK)
    {
      var holiday := IsHoliday(r, day);
      if !holiday {
        var spans := DayIntervals(r, day);
        ghost var before := total;
        var k := 0;
        while k < |spans|
          invariant 0 <= k <= |spans|
          invariant total + SumClipped(spans[k..], from, to) == before + SumClipped(spans, from, to)
        {
          var segStart, segEnd := Max(spans[k].start, from), Min(spans[k].end, to);
          if segEnd > segStart {
            total := total + (segEnd - segStart);
          }
          assert spans[k..][1..] == spans[k + 1..];
          k := k + 1;
        }
      }
      day := NextDay(r.zone, day);
      i := i + 1;
    }
    out := Ok(total);
  }

  /** The inner loop of AddBusinessDuration. */
  method ScanIntervals(spans: seq<Span>, cursor: int, d: int) returns (scan: Scan)
    ensures scan == ScanDay(spans, cursor, d)
  {
    var remaining := d;
    for k := 0 to |spans|
      invariant ScanDay(spans[k..], cursor, remaining) == ScanDay(spans, cursor, d)
    {
      assert spans[k..][1..] == spans[k + 1..];
      if spans[k].end <= cursor {
        continue;
      }
      var segStart := Max(spans[k].start, cursor);
      var avail := spans[k].end - segStart;
      if avail >= remaining {
        return Reached(segStart + remaining);
      }
      remaining := remaining - avail;
    }
    scan := Left(remaining);
  }

  method AddBusinessDuration(tenant: bool, resolved: Result<Resolved, Failure>, from: int, d: int)
    returns (out: Result<int, Failure>)
    ensures out ==
      if !tenant then Err(NoTenant)
      else if d <= 0 then Ok(from)
      else if resolved.Err? then Err(resolved.error)
      else Ok(Add(resolved.value, from, d))
  {
    hide DaySpans, NextDay, StartOfDay, ScanDay, MAX_DAYS_WALK;
    if !tenant {
      return Err(NoTenant);
    }
    if d <= 0 {
      return Ok(from);
    }
    if resolved.Err? {
      return Err(resolved.error);
    }
    var r := resolved.value;
    if !r.sched.configured {
      return Ok(from + d);
    }
    var remaining, cursor := d, from;
    for i := 0 to MAX_DAYS_WALK
      invariant WalkAdd(r, cursor, remaining, MAX_DAYS_WALK - i) == WalkAdd(r, from, d, MAX_DAYS_WALK)
    {
      var day := StartOfDay(r.zone, cursor);
      var holiday := IsHoliday(r, day);
      if !holiday {
        var spans := DayIntervals(r, day);
        var scanned := ScanIntervals(spans, cursor, remaining);
        if scanned.Reached? {
          return Ok(scanned.at);
        }
        remaining := scanned.remaining;
      }
      cursor := NextDay(r.zone, day);
    }
    out := Ok(from + d);
  }
}
