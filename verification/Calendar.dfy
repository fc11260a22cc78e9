/** Instants, wall clocks and the pointwise answer to "is the channel open?"
    (domain/businesshours/entity/holiday.go and
    domain/businesshours/service/businesshours_service.go). Instants and wall
    clocks are integer nanoseconds since the epoch; a day is an integer day number. */
module Calendar {
  import opened Results
  import opened OpeningHours

  // ---- wall clock arithmetic ---------------------------------------------

  /** The wall clock reading at a minute of a day; minute 1440 is the next midnight. */
  function WallAt(day: int, minute: int): int {
    day * 86_400_000_000_000 + minute * 60_000_000_000
  }

  function DayOf(wall: int): int { wall / 86_400_000_000_000 }

  /** Hour() * 60 + Minute() */
  function MinuteOf(wall: int): int { wall % 86_400_000_000_000 / 60_000_000_000 }

  /** Day 0 is a Thursday; 0 is Sunday. */
  function Weekday(day: int): int { (day + 4) % 7 }

  lemma WeekdaysInOrder(day: int)
    ensures Weekday(0) == 4 && Weekday(day + 1) == (Weekday(day) + 1) % 7
  {
  }

  lemma DayOfWall(wall: int, day: int)
    ensures DayOf(wall) == day <==> WallAt(day, 0) <= wall < WallAt(day + 1, 0)
  {
  }

  lemma MinuteOfWall(wall: int, s: int, e: int)
    requires 0 <= s < e <= 1440
    ensures s <= MinuteOf(wall) < e <==> WallAt(DayOf(wall), s) <= wall < WallAt(DayOf(wall), e)
  {
    assert wall == 86_400_000_000_000 * DayOf(wall) + wall % 86_400_000_000_000;
  }

  /** A location: its wall clock at an instant, and the instant time.Date picks
      for a wall clock reading. Nothing is assumed of the two functions. */
  datatype Zone = Zone(local: int -> int, at: int -> int)

  // ---- holidays ----------------------------------------------------------

  datatype CivilDate = CivilDate(year: int, month: int, day: int)

  datatype Scope = AllChannels | Channels

  /** date is None when the stored text does not parse. */
  datatype Holiday = Holiday(
    name: string, date: Option<CivilDate>, scope: Scope, channelIds: seq<string>, recurring: bool)
  {
    predicate AppliesTo(channelId: string) {
      scope == AllChannels || channelId in channelIds
    }

    predicate FallsOn(on: CivilDate) {
      && date.Some?
      && date.value.month == on.month && date.value.day == on.day
      && (recurring || date.value.year == on.year)
    }
  }

  lemma HolidayLaws(h: Holiday, on: CivilDate, year: int, channel: string)
    ensures h.date.None? ==> !h.FallsOn(on)
    ensures h.date.Some? ==> h.FallsOn(h.date.value)
    ensures h.FallsOn(on) && !h.recurring ==> h.date == Some(on)
    ensures h.FallsOn(on) && h.recurring ==> h.date == Some(on.(year := h.date.value.year))
    ensures h.recurring ==> (h.FallsOn(on.(year := year)) <==> h.FallsOn(on))
    ensures h.AppliesTo(channel) <==> (h.scope == Channels ==> channel in h.channelIds)
  {
  }

  /** Everything needed to reason about a channel's open time. civil turns a day
      number into its date. */
  datatype Resolved = Resolved(
    sched: Schedule, zone: Zone, civil: int -> CivilDate, holidays: seq<Holiday>, channelId: string)
  {
    predicate Closes(h: Holiday, day: int) {
      h.AppliesTo(channelId) && h.FallsOn(civil(day))
    }

    predicate HolidayOn(day: int) {
      exists i :: 0 <= i < |holidays| && Closes(holidays[i], day)
    }

    function IntervalsOn(day: int): seq<Interval> {
      sched.IntervalsOn(Weekday(day))
    }

    /** The specification every clock result is measured against. */
    predicate Open(x: int) {
      var wall := zone.local(x);
      !HolidayOn(DayOf(wall)) && sched.IsOpenAt(Weekday(DayOf(wall)), MinuteOf(wall))
    }
  }

  // ---- Status ------------------------------------------------------------

  datatype Reason = OnHoliday | Unconfigured | WithinHours | OutsideHours

  datatype BusinessStatus = BusinessStatus(
    open: bool, reason: Reason, holidayName: string, todayIntervals: seq<string>)

  /** One "HH:MM-HH:MM" per interval, in order. */
  predicate Formatted(intervals: seq<Interval>, out: seq<string>) {
    && |out| == |intervals|
    && forall i :: 0 <= i < |out| ==>
         out[i] == HHMM(intervals[i].startMin) + "-" + HHMM(intervals[i].endMin)
  }

  method FormatIntervals(intervals: seq<Interval>) returns (out: seq<string>)
    ensures Formatted(intervals, out)
  {
    hide HHMM;
    out := [];
    for i := 0 to |intervals|
      invariant |out| == i
      invariant forall k :: 0 <= k < i ==>
        out[k] == HHMM(intervals[k].startMin) + "-" + HHMM(intervals[k].endMin)
    {
      out := out + [HHMM(intervals[i].startMin) + "-" + HHMM(intervals[i].endMin)];
    }
  }

  /** The first closing holiday wins over the weekly hours, configured or not. */
  method Status(r: Resolved, at: int) returns (st: BusinessStatus)
    ensures st.open <==> r.Open(at)
    ensures st.reason == OnHoliday <==> r.HolidayOn(DayOf(r.zone.local(at)))
    ensures st.reason == Unconfigured <==> st.open && !r.sched.configured
    ensures st.reason == WithinHours <==> st.open && r.sched.configured
    ensures st.reason == OnHoliday ==> exists i ::
      && 0 <= i < |r.holidays| && r.Closes(r.holidays[i], DayOf(r.zone.local(at)))
      && st.holidayName == r.holidays[i].name
      && forall j :: 0 <= j < i ==> !r.Closes(r.holidays[j], DayOf(r.zone.local(at)))
    ensures Formatted(r.IntervalsOn(DayOf(r.zone.local(at))), st.todayIntervals)
  {
    var wall := r.zone.local(at);
    var day := DayOf(wall);
    var today := FormatIntervals(r.IntervalsOn(day));
    hide Weekday, MinuteOf, Formatted;
    for i := 0 to |r.holidays|
      invariant forall j :: 0 <= j < i ==> !r.Closes(r.holidays[j], day)
    {
      var h := r.holidays[i];
      if h.AppliesTo(r.channelId) && h.FallsOn(r.civil(day)) {
        assert r.Closes(r.holidays[i], day);
        return BusinessStatus(false, OnHoliday, h.name, today);
      }
    }
    if !r.sched.configured {
      st := BusinessStatus(true, Unconfigured, "", today);
    } else if r.sched.IsOpenAt(Weekday(day), MinuteOf(wall)) {
      st := BusinessStatus(true, WithinHours, "", today);
    } else {
      st := BusinessStatus(false, OutsideHours, "", today);
    }
  }
}
