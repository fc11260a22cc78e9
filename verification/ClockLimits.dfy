/** How far the capped walk reaches. */
module ClockLimits {
  import opened Results
  import opened Text
  import opened OpeningHours
  import opened Calendar
  import opened Counting
  import opened BusinessClock
  import opened ClockLaws

  // ---- weekly open time --------------------------------------------------

  function OpenMinutes(ivs: seq<Interval>): int {
    if ivs == [] then 0 else ivs[0].endMin - ivs[0].startMin + OpenMinutes(ivs[1..])
  }

  function WeekMinutes(s: Schedule): int {
    OpenMinutes(s.IntervalsOn(0)) + OpenMinutes(s.IntervalsOn(1)) + OpenMinutes(s.IntervalsOn(2))
    + OpenMinutes(s.IntervalsOn(3)) + OpenMinutes(s.IntervalsOn(4)) + OpenMinutes(s.IntervalsOn(5))
    + OpenMinutes(s.IntervalsOn(6))
  }

  /** W, in nanoseconds */
  function WeekOpenTime(s: Schedule): int { WeekMinutes(s) * 60_000_000_000 }

  lemma {:induction false} InsertMinutes(x: Interval, ivs: seq<Interval>)
    requires SortedByStart(ivs)
    ensures OpenMinutes(InsertByStart(x, ivs)) == x.endMin - x.startMin + OpenMinutes(ivs)
  {
    if ivs != [] && x.startMin > ivs[0].startMin {
      InsertMinutes(x, ivs[1..]);
    }
  }

  lemma {:induction false} SortMinutes(ivs: seq<Interval>)
    ensures OpenMinutes(SortByStart(ivs)) == OpenMinutes(ivs)
  {
    if ivs != [] {
      SortMinutes(ivs[1..]);
      InsertMinutes(ivs[0], SortByStart(ivs[1..]));
    }
  }

  ghost predicate FixedOffset(z: Zone, offset: int) {
    (forall t :: z.local(t) == t + offset) && (forall w :: z.at(w) == w - offset)
  }

  /** Some holiday of the channel has the day's month and date, and its year or every year. */
  predicate DayOff(r: Resolved, d: int) {
    exists h :: h in r.holidays && (h.scope == Channels ==> r.channelId in h.channelIds)
      && h.date.Some? && h.date.value.month == r.civil(d).month && h.date.value.day == r.civil(d).day
      && (!h.recurring ==> h.date.value.year == r.civil(d).year)
  }

  lemma DayOffIsHoliday(r: Resolved, d: int)
    ensures DayOff(r, d) <==> r.HolidayOn(d)
  {
    if DayOff(r, d) {
      var h :| h in r.holidays && (h.scope == Channels ==> r.channelId in h.channelIds)
        && h.date.Some? && h.date.value.month == r.civil(d).month && h.date.value.day == r.civil(d).day
        && (!h.recurring ==> h.date.value.year == r.civil(d).year);
      assert r.Closes(h, d);
      var i :| 0 <= i < |r.holidays| && r.holidays[i] == h;
      assert r.Closes(r.holidays[i], d);
    }
    if r.HolidayOn(d) {
      var i :| 0 <= i < |r.holidays| && r.Closes(r.holidays[i], d);
      assert r.holidays[i] in r.holidays;
    }
  }

  /** The hours of the weekday a day falls on, 1970-01-01 being a Thursday. */
  function HoursOf(r: Resolved, d: int): seq<Interval> {
    var weekday := (d + 4) % 7;
    if weekday in r.sched.weekly then r.sched.weekly[weekday] else []
  }

  /** Open at any moment of a minute of a local day, by that weekday's own hours. */
  lemma OpenAtIff(r: Resolved, offset: int, d: int, minute: int, within: int)
    requires FixedOffset(r.zone, offset) && 0 <= minute < 1440 && 0 <= within < 60_000_000_000
    ensures r.Open(d * 86_400_000_000_000 + minute * 60_000_000_000 + within - offset)
       <==> !DayOff(r, d)
            && (r.sched.configured ==> exists iv :: iv in HoursOf(r, d) && iv.startMin <= minute < iv.endMin)
  {
    DayOffIsHoliday(r, d);
    var wall := d * 86_400_000_000_000 + minute * 60_000_000_000 + within;
    assert r.zone.local(wall - offset) == wall;
    assert DayOf(wall) == d;
    assert MinuteOf(wall) == minute;
    assert r.sched.IntervalsOn(Weekday(d)) == HoursOf(r, d);
    hide DayOf, MinuteOf, Weekday, HoursOf, DayOff;
    var ivs := r.sched.IntervalsOn(Weekday(d));
    assert forall i :: 0 <= i < |ivs| ==> (ivs[i].Contains(minute) <==> ivs[i].startMin <= minute < ivs[i].endMin);
  }

  lemma {:induction false} SpansSum(z: Zone, offset: int, d: int, ivs: seq<Interval>)
    requires FixedOffset(z, offset)
    requires forall iv :: iv in ivs ==> iv.startMin < iv.endMin <= 1440
    ensures SumClipped(SpansOf(z, d, ivs), z.at(WallAt(d, 0)), z.at(WallAt(d + 1, 0)))
         == OpenMinutes(ivs) * 60_000_000_000
  {
    if ivs != [] {
      SpansSum(z, offset, d, ivs[1..]);
      assert SpansOf(z, d, ivs)[1..] == SpansOf(z, d, ivs[1..]);
      assert ivs[0] in ivs;
    }
  }

  ghost predicate NoHolidays(r: Resolved, lo: int, hi: int) {
    forall d :: lo <= d < hi ==> !r.HolidayOn(d)
  }

  /** A configured, validated schedule at a fixed offset with no holidays in range. */
  ghost predicate Plain(r: Resolved, offset: int, lo: int, hi: int) {
    r.sched.configured && SoundHours(r.sched) && FixedOffset(r.zone, offset) && NoHolidays(r, lo, hi)
  }

  lemma PlainDay(r: Resolved, offset: int, d: int)
    requires Plain(r, offset, d, d + 1)
    ensures OpenCount(r, Mid(r, d), Mid(r, d + 1)) == OpenMinutes(r.IntervalsOn(d)) * 60_000_000_000
  {
    hide OpenCount, OpenMinutes, SumClipped, SortByStart, SpansOf, Weekday;
    FixedOffsetIsRegular(r, offset, d, d + 1);
    NextMid(r, d);
    DayCount(r, d, Mid(r, d), Mid(r, d + 1));
    IntervalsSound(r, d);
    SortMinutes(r.IntervalsOn(d));
    SpansSum(r.zone, offset, d, SortByStart(r.IntervalsOn(d)));
  }

  /** From one midnight to the next Between measures that weekday's own hours. */
  lemma BetweenOneDay(r: Resolved, offset: int, d: int)
    requires Plain(r, offset, d, d + 1)
    ensures var midnight := d * 86_400_000_000_000 - offset;
      Between(r, midnight, midnight + 86_400_000_000_000) == OpenMinutes(HoursOf(r, d)) * 60_000_000_000
  {
    var from, to := Mid(r, d), Mid(r, d + 1);
    assert from == d * 86_400_000_000_000 - offset && to == from + 86_400_000_000_000;
    assert LocalDay(r, from) == d && LocalDay(r, to) == d + 1;
    assert r.IntervalsOn(d) == HoursOf(r, d);
    hide OpenMinutes, Between, OpenCount, HoursOf, Mid, LocalDay, RegularDay, SoundHours;
    FixedOffsetIsRegular(r, offset, d, d + 2);
    BetweenIsExactWithin(r, from, to, 2);
    PlainDay(r, offset, d);
  }

  lemma {:induction false} PlainDays(r: Resolved, offset: int, d: int, n: nat)
    requires Plain(r, offset, d, d + n)
    ensures Mid(r, d) <= Mid(r, d + n)
    ensures OpenCount(r, Mid(r, d), Mid(r, d + n)) == 60_000_000_000 * DaysMinutes(r, d, n)
  {
    hide OpenCount, OpenMinutes, Weekday;
    if n == 0 {
      OpenSplit(r, Mid(r, d), Mid(r, d), Mid(r, d));
    } else {
      PlainDays(r, offset, d, n - 1);
      PlainDay(r, offset, d + n - 1);
      OpenSplit(r, Mid(r, d), Mid(r, d + n - 1), Mid(r, d + n));
    }
  }

  function DaysMinutes(r: Resolved, d: int, n: nat): int {
    if n == 0 then 0 else DaysMinutes(r, d, n - 1) + OpenMinutes(r.IntervalsOn(d + n - 1))
  }

  /** Any seven days in a row hold each weekday once. */
  lemma SevenDays(r: Resolved, d: int)
    ensures DaysMinutes(r, d, 7) == WeekMinutes(r.sched)
  {
    hide OpenMinutes;
    var w := (d + 4) % 7;
    assert w in {0, 1, 2, 3, 4, 5, 6};
    assert Weekday(d) == w;
    assert Weekday(d + 1) == (w + 1) % 7 && Weekday(d + 2) == (w + 2) % 7 && Weekday(d + 3) == (w + 3) % 7;
    assert Weekday(d + 4) == (w + 4) % 7 && Weekday(d + 5) == (w + 5) % 7 && Weekday(d + 6) == (w + 6) % 7;
    assert DaysMinutes(r, d, 1) == OpenMinutes(r.IntervalsOn(d));
    assert DaysMinutes(r, d, 2) == DaysMinutes(r, d, 1) + OpenMinutes(r.IntervalsOn(d + 1));
    assert DaysMinutes(r, d, 4)
        == DaysMinutes(r, d, 2) + OpenMinutes(r.IntervalsOn(d + 2)) + OpenMinutes(r.IntervalsOn(d + 3));
    assert DaysMinutes(r, d, 6)
        == DaysMinutes(r, d, 4) + OpenMinutes(r.IntervalsOn(d + 4)) + OpenMinutes(r.IntervalsOn(d + 5));
  }

  lemma {:induction false} Weeks(r: Resolved, offset: int, d: int, k: nat)
    requires Plain(r, offset, d, d + 7 * k)
    ensures Mid(r, d) <= Mid(r, d + 7 * k)
    ensures OpenCount(r, Mid(r, d), Mid(r, d + 7 * k)) == k * WeekOpenTime(r.sched)
  {
    hide OpenCount, WeekMinutes, DaysMinutes;
    if k == 0 {
      OpenSplit(r, Mid(r, d), Mid(r, d), Mid(r, d));
    } else {
      var m := d + 7 * (k - 1);
      Weeks(r, offset, d, k - 1);
      PlainDays(r, offset, m, 7);
      SevenDays(r, m);
      OpenSplit(r, Mid(r, d), Mid(r, m), Mid(r, m + 7));
      assert k * WeekOpenTime(r.sched) == (k - 1) * WeekOpenTime(r.sched) + WeekOpenTime(r.sched);
    }
  }

  /** Beyond the first, partial day the walk covers 3999 whole days, hence 571
      whole weeks: no shorter wait ever falls back to wall-clock time. */
  lemma NoFallbackWithin571Weeks(r: Resolved, offset: int, from: int, d: int)
    requires Plain(r, offset, LocalDay(r, from), LocalDay(r, from) + MAX_DAYS_WALK)
    requires 0 < d <= 571 * WeekOpenTime(r.sched)
    ensures Reaches(r, from, d)
    ensures FirstAfter(r, from, d, Add(r, from, d))
  {
    hide OpenCount, Reaches, WeekOpenTime, Add;
    var first := LocalDay(r, from);
    FixedOffsetIsRegular(r, offset, first, first + MAX_DAYS_WALK);
    FromWithin(r, from);
    Weeks(r, offset, first + 1, 571);
    MidMonotone(r, first + 1 + 3997, first + MAX_DAYS_WALK);
    OpenSplit(r, from, Mid(r, first + 1), Horizon(r, from));
    OpenMonotone(r, Mid(r, first + 1), Mid(r, first + 1 + 3997), Horizon(r, from));
    AssertReaches(r, from, d);
    AddFindsLeast(r, from, d);
  }

  lemma AssertReaches(r: Resolved, from: int, d: int)
    requires d <= OpenCount(r, from, Horizon(r, from))
    ensures Reaches(r, from, d)
  {
  }

  /** Without hours every moment counts, and nothing is asked of a duration that is not positive. */
  lemma UnconfiguredAdds(r: Resolved, from: int, d: int)
    ensures d <= 0 ==> Add(r, from, d) == from
    ensures d > 0 && !r.sched.configured ==> Add(r, from, d) == from + d
    ensures 0 < d <= MAX_INT64 && !r.sched.configured ==> Between(r, from, Add(r, from, d)) == d
  {
    hide WalkAdd, WalkBetween;
  }

  /** A Duration holds no more than 2^63 - 1 nanoseconds. */
  lemma UnconfiguredSaturates(r: Resolved, from: int, to: int)
    requires !r.sched.configured && to - from > 0x7FFF_FFFF_FFFF_FFFF
    ensures Between(r, from, to) == 0x7FFF_FFFF_FFFF_FFFF
  {
  }

  // ---- inputs past the limits ----------------------------------------------

  const UTC: Zone := Zone(t => t, wall => wall)

  /** Without hours, a holiday is closed for Status and counted by the clock. */
  const HOLIDAY_ONLY: Resolved :=
    Resolved(Schedule("UTC", map[], false), UTC, d => CivilDate(1970, 1, d + 1),
             [Holiday("New Year", Some(CivilDate(1970, 1, 1)), AllChannels, [], true)], "")

  lemma HolidayIsCounted()
    ensures Between(HOLIDAY_ONLY, 0, 1) == 1 && OpenCount(HOLIDAY_ONLY, 0, 1) == 0
  {
    var r := HOLIDAY_ONLY;
    assert r.Closes(r.holidays[0], 0);
    assert !r.Open(0);
    NoneOpen(r, 0, 1);
  }

  /** Open all day on THURSDAYS, days 0, 7, 14 and so on. */
  const THURSDAYS: Resolved :=
    Resolved(Schedule("UTC", map[4 := [Interval(0, 1440)]], true), UTC, d => CivilDate(1970, 1, 1), [], "")

  lemma ThursdaysAreSound()
    ensures THURSDAYS.sched.configured && SoundHours(THURSDAYS.sched) && THURSDAYS.zone == UTC
    ensures THURSDAYS.IntervalsOn(4004) == [Interval(0, 1440)]
    ensures forall d :: !THURSDAYS.HolidayOn(d)
  {
    assert (4004 + 4) % 7 == 4;
  }

  lemma ThursdaysFromStart()
    ensures SoundFrom(THURSDAYS, 0) && LocalDay(THURSDAYS, 0) == 0
    ensures Horizon(THURSDAYS, 0) == WallAt(MAX_DAYS_WALK, 0)
  {
    ThursdaysAreSound();
    assert DayOf(UTC.local(0)) == 0;
    assert UTC.at(WallAt(MAX_DAYS_WALK, 0)) == WallAt(MAX_DAYS_WALK, 0);
    hide THURSDAYS, SoundHours, DayOf, WallAt, MAX_DAYS_WALK, RegularDay;
    FixedOffsetIsRegular(THURSDAYS, 0, 0, MAX_DAYS_WALK);
  }

  lemma OpenOnThursday()
    ensures WallAt(4000, 0) <= WallAt(4004, 0) < WallAt(4005, 0) && THURSDAYS.Open(WallAt(4004, 0))
  {
    ThursdaysAreSound();
    var x := WallAt(4004, 0);
    DayOfWall(x, 4004);
    MinuteOfWall(x, 0, 1440);
    hide WallAt, DayOf, MinuteOf, Weekday, THURSDAYS;
    assert UTC.local(x) == x;
    assert Interval(0, 1440).Contains(MinuteOf(x));
    assert THURSDAYS.IntervalsOn(4004)[0].Contains(MinuteOf(x));
  }

  /** Day 4004 is a Thursday past the cap: its hours are lost. */
  lemma CapLosesOpenTime()
    ensures Between(THURSDAYS, 0, WallAt(4005, 0)) != OpenCount(THURSDAYS, 0, WallAt(4005, 0))
  {
    hide THURSDAYS, SoundFrom, Horizon, Between, OpenCount, WallAt;
    ThursdaysFromStart();
    CapReading();
    BetweenIsExactIff(THURSDAYS, 0, WallAt(4005, 0));
    OpenOnThursday();
  }

  /** More than the walked days can hold: the result is the plain sum, most of it closed. */
  lemma FallbackIgnoresHours(d: int)
    requires d > WallAt(4000, 0)
    ensures Add(THURSDAYS, 0, d) == d && !FirstAfter(THURSDAYS, 0, d, d)
  {
    hide THURSDAYS, SoundFrom, Horizon, Add, WallAt, OpenCount;
    ThursdaysFromStart();
    CapReading();
    OpenAtMost(THURSDAYS, 0, WallAt(4000, 0));
    AddFindsLeast(THURSDAYS, 0, d);
    ClosedOnFriday(d);
  }

  lemma CapReading()
    ensures WallAt(4000, 0) >= WallAt(1, 0) > 0 && WallAt(MAX_DAYS_WALK, 0) == WallAt(4000, 0)
  {
  }

  lemma ClosedOnFriday(d: int)
    requires d > WallAt(1, 0) > 0
    ensures OpenCount(THURSDAYS, 0, d) < d
  {
    ThursdaysAreSound();
    var x := WallAt(1, 0);
    DayOfWall(x, 1);
    assert THURSDAYS.IntervalsOn(1) == [];
    hide WallAt, DayOf, MinuteOf, Weekday, THURSDAYS;
    assert UTC.local(x) == x;
    var open := (t: int) => THURSDAYS.Open(t);
    assert !open(x);
    CountAll(open, 0, d);
  }

  lemma OpenAtMost(r: Resolved, a: int, b: int)
    requires a <= b
    ensures OpenCount(r, a, b) <= b - a
  {
  }
}
