/** A channel's weekly opening hours (domain/businesshours/entity/schedule.go):
    the lenient parser the read path uses and the strict validator of the write
    path. The model starts from the decoded document. */
module OpeningHours {
  import opened Results
  import opened Text

  /** Minutes from local midnight, end exclusive. */
  datatype Interval = Interval(startMin: nat, endMin: nat) {
    predicate Contains(m: int) { startMin <= m < endMin }

    predicate Disjoint(other: Interval) {
      endMin <= other.startMin || other.endMin <= startMin
    }
  }

  datatype RawInterval = RawInterval(start: string, end: string)
  datatype RawDay = RawDay(day: int, intervals: seq<RawInterval>)
  datatype RawSchedule = RawSchedule(timezone: string, weekly: seq<RawDay>)

  /** What decodeRaw makes of the free-form document. */
  datatype Document = Empty | Malformed | Decoded(raw: RawSchedule)

  datatype Schedule = Schedule(timezone: string, weekly: map<int, seq<Interval>>, configured: bool) {
    function IntervalsOn(weekday: int): seq<Interval> {
      if weekday in weekly then weekly[weekday] else []
    }

    /** Open at a minute of a weekday; an unconfigured schedule never closes. */
    predicate IsOpenAt(weekday: int, minute: int) {
      !configured || exists i :: 0 <= i < |IntervalsOn(weekday)| && IntervalsOn(weekday)[i].Contains(minute)
    }
  }

  // ---- "HH:MM" -----------------------------------------------------------

  function ParseHHMM(str: string): (r: Option<nat>)
    ensures r.Some? ==> r.value <= 1440
  {
    var parts := SplitN(TrimSpace(str), ':', 2);
    if |parts| != 2 then None
    else
      var h, m := ParseInt(parts[0]), ParseInt(parts[1]);
      if h.None? || m.None? || h.value < 0 || h.value > 24 || m.value < 0 || m.value > 59 then None
      else
        var total := h.value * 60 + m.value;
        if total > 24 * 60 then None else Some(total)
  }

  /** The text reads as h, a colon and m, in range and at most 24:00. */
  predicate Reads(str: string, h: string, m: string, total: nat) {
    && ':' !in h && TrimSpace(str) == h + [':'] + m
    && ParseInt(h).Some? && ParseInt(m).Some?
    && 0 <= ParseInt(h).value <= 24 && 0 <= ParseInt(m).value <= 59
    && total == ParseInt(h).value * 60 + ParseInt(m).value <= 1440
  }

  /** Exactly these texts parse, and to that minute: signs and leading zeros included. */
  lemma ParsesIff(str: string, total: nat)
    ensures ParseHHMM(str) == Some(total) <==> exists h, m :: Reads(str, h, m, total)
  {
    hide ParseInt, TrimSpace, SplitN;
    var s := TrimSpace(str);
    if ':' in s {
      var h, m := s[..IndexOf(s, ':')], s[IndexOf(s, ':') + 1..];
      assert s == h + [':'] + m;
      SplitNJoined(h, ':', m, 2);
      SplitNOne(m, ':');
      assert ParseHHMM(str) == Some(total) <==> Reads(str, h, m, total);
      forall g, n | Reads(str, g, n, total) ensures g == h && n == m {
        SplitNJoined(g, ':', n, 2);
        SplitNOne(n, ':');
        assert [g, n] == [h, m];
        assert [g, n][0] == [h, m][0] && [g, n][1] == [h, m][1];
      }
    } else {
      NoSeparator(s, ':');
      forall g, n ensures !Reads(str, g, n, total) {
        assert (g + [':'] + n)[|g|] == ':';
      }
    }
  }

  /** "%02d" */
  function TwoDigits(n: nat): string {
    if n < 10 then "0" + Digits(n) else Digits(n)
  }

  function HHMM(min: nat): string {
    TwoDigits(min / 60) + ":" + TwoDigits(min % 60)
  }

  /** "09:05": two digits, a colon, two digits. */
  lemma HHMMShape(m: nat)
    requires m < 6000
    ensures var s := HHMM(m);
      && |s| == 5 && s[2] == ':' && IsDigit(s[0]) && IsDigit(s[1]) && IsDigit(s[3]) && IsDigit(s[4])
      && DigitsValue(s[..2]) == m / 60 && DigitsValue(s[3..]) == m % 60
  {
    TwoDigitsParses(m / 60);
    TwoDigitsParses(m % 60);
    assert HHMM(m)[..2] == TwoDigits(m / 60) && HHMM(m)[3..] == TwoDigits(m % 60);
    assert IsDigit(TwoDigits(m / 60)[0]) && IsDigit(TwoDigits(m % 60)[0]);
  }

  lemma TwoDigitsParses(n: nat)
    requires n < 100
    ensures AllDigits(TwoDigits(n)) && |TwoDigits(n)| == 2
    ensures ParseInt(TwoDigits(n)) == Some(n)
  {
    DigitsRoundTrip(n);
    if n < 10 {
      assert TwoDigits(n) == ['0', DigitChar(n)];
      assert TwoDigits(n)[..1] == "0" && "0"[..0] == "";
      assert DigitsValue("0") == 0;
    } else {
      assert Digits(n) == [DigitChar(n / 10), DigitChar(n % 10)];
    }
  }

  /** Every minute of the day, 24:00 included, survives printing and parsing. */
  lemma HHMMRoundTrip(m: nat)
    requires m <= 1440
    ensures ParseHHMM(HHMM(m)) == Some(m)
  {
    hide TwoDigits, ParseInt, SplitN, TrimSpace;
    var h, k := TwoDigits(m / 60), TwoDigits(m % 60);
    TwoDigitsParses(m / 60);
    TwoDigitsParses(m % 60);
    var s := HHMM(m);
    assert s == h + [':'] + k;
    assert IsDigit(h[0]) && IsDigit(k[1]);
    NothingToTrim(s);
    SplitNJoined(h, ':', k, 2);
    SplitNOne(k, ':');
  }

  // ---- the lenient parser ------------------------------------------------

  /** An interval's minutes, when both ends parse and the end follows the start. */
  function KeptInterval(iv: RawInterval): (r: Option<Interval>)
    ensures r.Some? ==> 0 <= r.value.startMin < r.value.endMin <= 1440
  {
    var start, end := ParseHHMM(iv.start), ParseHHMM(iv.end);
    if start.None? || end.None? || end.value <= start.value then None
    else Some(Interval(start.value, end.value))
  }

  /** The intervals of a day that parse, in document order. */
  function Kept(ivs: seq<RawInterval>): (out: seq<Interval>)
    ensures |out| <= |ivs|
    ensures forall iv :: iv in out ==> 0 <= iv.startMin < iv.endMin <= 1440
  {
    if ivs == [] then []
    else
      var rest, last := Kept(ivs[..|ivs| - 1]), KeptInterval(ivs[|ivs| - 1]);
      if last.Some? then rest + [last.value] else rest
  }

  predicate Contributes(day: RawDay) {
    0 <= day.day <= 6 && Kept(day.intervals) != []
  }

  /** A later contributing entry for a weekday overwrites an earlier one. */
  function Weekly(days: seq<RawDay>): map<int, seq<Interval>> {
    if days == [] then map[]
    else
      var m, day := Weekly(days[..|days| - 1]), days[|days| - 1];
      if Contributes(day) then m[day.day := Kept(day.intervals)] else m
  }

  function Timezone(raw: RawSchedule): string {
    if TrimSpace(raw.timezone) == "" then "UTC" else TrimSpace(raw.timezone)
  }

  function Parsed(doc: Document): Schedule {
    if !doc.Decoded? then Schedule("UTC", map[], false)
    else Schedule(Timezone(doc.raw), Weekly(doc.raw.weekly), Weekly(doc.raw.weekly) != map[])
  }

  method ParseSchedule(doc: Document) returns (s: Schedule)
    ensures s == Parsed(doc)
  {
    hide ParseHHMM;
    s := Schedule("UTC", map[], false);
    if !doc.Decoded? {
      return;
    }
    var raw := doc.raw;
    var tz := TrimSpace(raw.timezone);
    if tz != "" {
      s := s.(timezone := tz);
    }
    for d := 0 to |raw.weekly|
      invariant s == Schedule(Timezone(raw), Weekly(raw.weekly[..d]), Weekly(raw.weekly[..d]) != map[])
    {
      var day := raw.weekly[d];
      assert raw.weekly[..d + 1][..d] == raw.weekly[..d];
      if day.day < 0 || day.day > 6 {
        continue;
      }
      var out := [];
      for i := 0 to |day.intervals|
        invariant out == Kept(day.intervals[..i])
      {
        assert day.intervals[..i + 1][..i] == day.intervals[..i];
        var start, end := ParseHHMM(day.intervals[i].start), ParseHHMM(day.intervals[i].end);
        if start.None? || end.None? || end.value <= start.value {
          continue;
        }
        out := out + [Interval(start.value, end.value)];
      }
      assert day.intervals[..|day.intervals|] == day.intervals;
      if |out| > 0 {
        s := s.(weekly := s.weekly[day.day := out], configured := true);
        assert day.day in s.weekly;
      }
    }
    assert raw.weekly[..|raw.weekly|] == raw.weekly;
  }

  /** What any document parses to: a weekday is open exactly when some entry
      contributes to it, and the last such entry decides its hours. */
  lemma {:induction false} WeeklyLastWins(days: seq<RawDay>, d: int)
    ensures d in Weekly(days) <==> exists i :: 0 <= i < |days| && days[i].day == d && Contributes(days[i])
    ensures forall i :: 0 <= i < |days| && days[i].day == d && Contributes(days[i])
                        && (forall j :: i < j < |days| && days[j].day == d ==> !Contributes(days[j]))
                        ==> Weekly(days)[d] == Kept(days[i].intervals)
  {
    hide Kept;
    if days != [] {
      var front, last := days[..|days| - 1], days[|days| - 1];
      WeeklyLastWins(front, d);
      assert forall i :: 0 <= i < |front| ==> front[i] == days[i];
      if last.day == d && Contributes(last) {
        assert days[|days| - 1].day == d;
      } else if d in Weekly(days) {
        var i :| 0 <= i < |front| && front[i].day == d && Contributes(front[i]);
        assert days[i].day == d;
      }
    }
  }

  lemma {:induction false} KeptAppends(a: seq<RawInterval>, b: seq<RawInterval>)
    ensures Kept(a + b) == Kept(a) + Kept(b)
  {
    hide KeptInterval;
    if b == [] {
      assert a + b == a;
    } else {
      var front, c := b[..|b| - 1], a + b;
      KeptAppends(a, front);
      assert c[..|c| - 1] == a + front && c[|c| - 1] == b[|b| - 1];
    }
  }

  /** Both ends parse, and the end comes after the start. */
  predicate Readable(iv: RawInterval) {
    ParseHHMM(iv.start).Some? && ParseHHMM(iv.end).Some? && ParseHHMM(iv.start).value < ParseHHMM(iv.end).value
  }

  /** Each interval is kept or dropped on its own: one bad entry costs no other. */
  lemma KeptOneByOne(a: seq<RawInterval>, iv: RawInterval, b: seq<RawInterval>)
    ensures Readable(iv) ==>
      Kept(a + [iv] + b) == Kept(a) + [Interval(ParseHHMM(iv.start).value, ParseHHMM(iv.end).value)] + Kept(b)
    ensures !Readable(iv) ==> Kept(a + [iv] + b) == Kept(a) + Kept(b)
  {
    hide ParseHHMM;
    KeptAppends(a + [iv], b);
    KeptAppends(a, [iv]);
    assert [iv][..0] == [];
    assert Kept([iv]) == if Readable(iv) then [KeptInterval(iv).value] else [];
  }

  lemma {:induction false} KeepsOneIff(ivs: seq<RawInterval>)
    ensures Kept(ivs) != [] <==> exists k :: 0 <= k < |ivs| && Readable(ivs[k])
  {
    hide ParseHHMM;
    if ivs != [] {
      KeepsOneIff(ivs[..|ivs| - 1]);
    }
  }

  predicate HasHours(day: RawDay) {
    0 <= day.day <= 6 && exists k :: 0 <= k < |day.intervals| && Readable(day.intervals[k])
  }

  /** Hours are configured exactly when some day has a readable interval; without
      them the channel never closes. */
  lemma ConfiguredIff(doc: Document)
    ensures Parsed(doc).configured
       <==> doc.Decoded? && exists i :: 0 <= i < |doc.raw.weekly| && HasHours(doc.raw.weekly[i])
    ensures !Parsed(doc).configured ==> forall weekday, minute :: Parsed(doc).IsOpenAt(weekday, minute)
  {
    if doc.Decoded? {
      var days := doc.raw.weekly;
      forall i | 0 <= i < |days| ensures Contributes(days[i]) <==> HasHours(days[i]) {
        KeepsOneIff(days[i].intervals);
      }
      hide Contributes, HasHours;
      if Parsed(doc).configured {
        assert (forall d :: d !in Weekly(days)) ==> Weekly(days) == map[];
        var d :| d in Weekly(days);
        WeeklyLastWins(days, d);
      }
      forall i | 0 <= i < |days| && Contributes(days[i]) ensures days[i].day in Weekly(days) {
        WeeklyLastWins(days, days[i].day);
      }
    }
  }

  lemma ZoneOfParsed(doc: Document)
    ensures doc.Decoded? ==> exists tz ::
      TrimmedTo(doc.raw.timezone, tz) && Parsed(doc).timezone == if tz == "" then "UTC" else tz
    ensures !doc.Decoded? ==> Parsed(doc).timezone == "UTC"
  {
    if doc.Decoded? {
      TrimSpaceTrims(doc.raw.timezone);
    }
  }

  // ---- the strict validator ----------------------------------------------

  predicate SortedByStart(ivs: seq<Interval>) {
    forall i, j :: 0 <= i < j < |ivs| ==> ivs[i].startMin <= ivs[j].startMin
  }

  predicate DisjointFrom(x: Interval, ivs: seq<Interval>) {
    forall y :: y in ivs ==> x.Disjoint(y)
  }

  predicate PairwiseDisjoint(ivs: seq<Interval>) {
    forall i, j :: 0 <= i < j < |ivs| ==> ivs[i].Disjoint(ivs[j])
  }

  function InsertByStart(x: Interval, ivs: seq<Interval>): (out: seq<Interval>)
    requires SortedByStart(ivs)
    ensures SortedByStart(out)
    ensures |out| == |ivs| + 1 && forall y :: y in out <==> y == x || y in ivs
  {
    if ivs == [] || x.startMin <= ivs[0].startMin then [x] + ivs
    else
      var rest := InsertByStart(x, ivs[1..]);
      assert ivs == [ivs[0]] + ivs[1..];
      assert forall y :: y in rest ==> ivs[0].startMin <= y.startMin;
      [ivs[0]] + rest
  }

  /** sort.Slice by start minute. */
  function SortByStart(ivs: seq<Interval>): (out: seq<Interval>)
    ensures SortedByStart(out)
    ensures |out| == |ivs| && forall y :: y in out <==> y in ivs
  {
    if ivs == [] then []
    else
      assert ivs == [ivs[0]] + ivs[1..];
      InsertByStart(ivs[0], SortByStart(ivs[1..]))
  }

  lemma {:induction false} InsertIsPermutation(x: Interval, ivs: seq<Interval>)
    requires SortedByStart(ivs)
    ensures multiset(InsertByStart(x, ivs)) == multiset(ivs) + multiset{x}
  {
    if ivs != [] && x.startMin > ivs[0].startMin {
      InsertIsPermutation(x, ivs[1..]);
      assert ivs == [ivs[0]] + ivs[1..];
    }
  }

  lemma {:induction false} SortIsPermutation(ivs: seq<Interval>)
    ensures multiset(SortByStart(ivs)) == multiset(ivs)
  {
    if ivs != [] {
      SortIsPermutation(ivs[1..]);
      InsertIsPermutation(ivs[0], SortByStart(ivs[1..]));
      assert ivs == [ivs[0]] + ivs[1..];
    }
  }

  lemma PairwiseCons(x: Interval, ivs: seq<Interval>)
    ensures PairwiseDisjoint([x] + ivs) <==> DisjointFrom(x, ivs) && PairwiseDisjoint(ivs)
  {
    var s := [x] + ivs;
    if PairwiseDisjoint(s) {
      forall y | y in ivs ensures x.Disjoint(y) {
        var j :| 0 <= j < |ivs| && ivs[j] == y;
        assert s[0].Disjoint(s[j + 1]);
      }
      forall i, j | 0 <= i < j < |ivs| ensures ivs[i].Disjoint(ivs[j]) {
        assert s[i + 1].Disjoint(s[j + 1]);
      }
    }
  }

  lemma {:induction false} InsertKeepsDisjointness(x: Interval, ivs: seq<Interval>)
    requires SortedByStart(ivs)
    ensures PairwiseDisjoint(InsertByStart(x, ivs)) <==> PairwiseDisjoint([x] + ivs)
  {
    if ivs == [] || x.startMin <= ivs[0].startMin {
      assert InsertByStart(x, ivs) == [x] + ivs;
    } else {
      assert InsertByStart(x, ivs) == [ivs[0]] + InsertByStart(x, ivs[1..]);
      assert DisjointFrom(x, ivs) <==> x.Disjoint(ivs[0]) && DisjointFrom(x, ivs[1..]) by {
        assert forall y :: y in ivs <==> y == ivs[0] || y in ivs[1..];
      }
      PairwiseCons(x, ivs);
      var rest := ivs[1..];
      assert ivs == [ivs[0]] + rest;
      InsertKeepsDisjointness(x, rest);
      hide PairwiseDisjoint, InsertByStart;
      PairwiseCons(x, rest);
      PairwiseCons(ivs[0], rest);
      PairwiseCons(ivs[0], InsertByStart(x, rest));
      assert DisjointFrom(ivs[0], InsertByStart(x, rest)) <==> ivs[0].Disjoint(x) && DisjointFrom(ivs[0], rest) by {
        assert x in InsertByStart(x, rest);
      }
    }
  }

  /** Sorting neither makes nor hides an overlap. */
  lemma {:induction false} SortKeepsDisjointness(ivs: seq<Interval>)
    ensures PairwiseDisjoint(SortByStart(ivs)) <==> PairwiseDisjoint(ivs)
  {
    if ivs != [] {
      var rest := ivs[1..];
      assert ivs == [ivs[0]] + rest;
      SortKeepsDisjointness(rest);
      InsertKeepsDisjointness(ivs[0], SortByStart(rest));
      PairwiseCons(ivs[0], rest);
      PairwiseCons(ivs[0], SortByStart(rest));
    }
  }

  predicate NonEmptyIntervals(ivs: seq<Interval>) {
    forall i :: 0 <= i < |ivs| ==> ivs[i].startMin < ivs[i].endMin
  }

  predicate AdjacentDisjoint(ivs: seq<Interval>) {
    forall i :: 0 < i < |ivs| ==> ivs[i - 1].endMin <= ivs[i].startMin
  }

  /** In sorted order the adjacent check sees every overlap. */
  lemma AdjacentIsPairwise(ivs: seq<Interval>)
    requires SortedByStart(ivs) && NonEmptyIntervals(ivs)
    ensures AdjacentDisjoint(ivs) <==> PairwiseDisjoint(ivs)
    ensures PairwiseDisjoint(ivs) ==> forall i, j :: 0 <= i < j < |ivs| ==> ivs[i].endMin <= ivs[j].startMin
  {
    if AdjacentDisjoint(ivs) {
      forall i, j | 0 <= i < j < |ivs| ensures ivs[i].endMin <= ivs[j].startMin {
        assert ivs[i + 1 - 1].endMin <= ivs[i + 1].startMin;
      }
    }
    if PairwiseDisjoint(ivs) {
      forall i, j | 0 <= i < j < |ivs| ensures ivs[i].endMin <= ivs[j].startMin {
        assert ivs[i].Disjoint(ivs[j]) && ivs[i].startMin <= ivs[j].startMin;
      }
    }
  }

  predicate ValidIntervals(ivs: seq<RawInterval>) {
    && (forall i :: 0 <= i < |ivs| ==> KeptInterval(ivs[i]).Some?)
    && PairwiseDisjoint(Kept(ivs))
  }

  /** The rules a stored document obeys, free of any order of checking. */
  predicate ValidWeekly(days: seq<RawDay>) {
    && (forall i :: 0 <= i < |days| ==> 0 <= days[i].day <= 6 && ValidIntervals(days[i].intervals))
    && (forall i, j :: 0 <= i < j < |days| ==> days[i].day != days[j].day)
  }

  predicate ValidDocument(doc: Document, known: string -> bool) {
    doc.Empty? || (doc.Decoded? && known(Timezone(doc.raw)) && ValidWeekly(doc.raw.weekly))
  }

  datatype ScheduleError =
    | MalformedDocument
    | UnknownTimezone(timezone: string)
    | DayOutOfRange(day: int)
    | DayRepeated(day: int)
    | InvalidStart(day: int, text: string)
    | InvalidEnd(day: int, text: string)
    | EndNotAfterStart(day: int)
    | Overlap(day: int)

  /** The fault an error names is really in the day's intervals. */
  ghost predicate FaultyDay(e: ScheduleError, day: RawDay) {
    match e
    case InvalidStart(d, text) =>
      d == day.day && ParseHHMM(text).None? && exists k :: 0 <= k < |day.intervals| && day.intervals[k].start == text
    case InvalidEnd(d, text) =>
      d == day.day && ParseHHMM(text).None? && exists k :: 0 <= k < |day.intervals| && day.intervals[k].end == text
    case EndNotAfterStart(d) => d == day.day && exists iv :: iv in day.intervals && EndsTooEarly(iv)
    case Overlap(d) => d == day.day && !PairwiseDisjoint(Kept(day.intervals))
    case _ => false
  }

  predicate EndsTooEarly(iv: RawInterval) {
    ParseHHMM(iv.start).Some? && ParseHHMM(iv.end).Some? && ParseHHMM(iv.end).value <= ParseHHMM(iv.start).value
  }

  ghost predicate Explains(e: ScheduleError, doc: Document, known: string -> bool) {
    match e
    case MalformedDocument => doc.Malformed?
    case UnknownTimezone(tz) => doc.Decoded? && tz == Timezone(doc.raw) && !known(tz)
    case DayOutOfRange(d) =>
      doc.Decoded? && !(0 <= d <= 6) && exists i :: 0 <= i < |doc.raw.weekly| && doc.raw.weekly[i].day == d
    case DayRepeated(d) =>
      doc.Decoded? && exists i, j ::
        0 <= i < j < |doc.raw.weekly| && doc.raw.weekly[i].day == d == doc.raw.weekly[j].day
    case _ => doc.Decoded? && exists day :: day in doc.raw.weekly && FaultyDay(e, day)
  }

  method ValidateSchedule(doc: Document, known: string -> bool) returns (err: Option<ScheduleError>)
    ensures err.None? <==> ValidDocument(doc, known)
    ensures err.Some? ==> Explains(err.value, doc, known)
  {
    hide KeptInterval, Kept, PairwiseDisjoint;
    if doc.Empty? {
      return None;
    }
    if doc.Malformed? {
      return Some(MalformedDocument);
    }
    var days := doc.raw.weekly;
    if !known(Timezone(doc.raw)) {
      return Some(UnknownTimezone(Timezone(doc.raw)));
    }
    var seen: set<int> := {};
    for d := 0 to |days|
      invariant ValidWeekly(days[..d])
      invariant forall x :: x in seen <==> exists i :: 0 <= i < d && days[i].day == x
    {
      var day := days[d];
      if day.day < 0 || day.day > 6 {
        return Some(DayOutOfRange(day.day));
      }
      if day.day in seen {
        return Some(DayRepeated(day.day));
      }
      seen := seen + {day.day};
      err := ValidateIntervals(day);
      if err.Some? {
        return;
      }
      assert days[..d + 1] == days[..d] + [day];
    }
    assert days[..|days|] == days;
    err := None;
  }

  /** The checks on one day's intervals. */
  method ValidateIntervals(day: RawDay) returns (err: Option<ScheduleError>)
    ensures err.None? <==> ValidIntervals(day.intervals)
    ensures err.Some? ==> FaultyDay(err.value, day)
  {
    hide ParseHHMM, Kept, PairwiseDisjoint, KeptInterval;
    var ivs;
    ivs, err := ParseIntervals(day);
    if err.None? {
      var overlap := HasOverlap(ivs);
      err := if overlap then Some(Overlap(day.day)) else None;
    }
  }

  method ParseIntervals(day: RawDay) returns (ivs: seq<Interval>, err: Option<ScheduleError>)
    ensures err.None? <==> forall k :: 0 <= k < |day.intervals| ==> KeptInterval(day.intervals[k]).Some?
    ensures err.None? ==> ivs == Kept(day.intervals)
    ensures err.Some? ==> !err.value.Overlap? && FaultyDay(err.value, day)
  {
    hide ParseHHMM, FaultyDay, KeptInterval;
    ivs := [];
    for i := 0 to |day.intervals|
      invariant ivs == Kept(day.intervals[..i])
      invariant forall k :: 0 <= k < i ==> KeptInterval(day.intervals[k]).Some?
    {
      assert day.intervals[..i + 1][..i] == day.intervals[..i];
      var iv;
      iv, err := ParseInterval(day, i);
      if err.Some? {
        return;
      }
      ivs := ivs + [iv];
    }
    assert day.intervals[..|day.intervals|] == day.intervals;
    err := None;
  }

  method ParseInterval(day: RawDay, i: nat) returns (iv: Interval, err: Option<ScheduleError>)
    requires i < |day.intervals|
    ensures err.None? <==> KeptInterval(day.intervals[i]).Some?
    ensures err.None? ==> Some(iv) == KeptInterval(day.intervals[i])
    ensures err.Some? ==> !err.value.Overlap? && FaultyDay(err.value, day)
  {
    hide ParseHHMM, PairwiseDisjoint;
    var raw := day.intervals[i];
    var start, end := ParseHHMM(raw.start), ParseHHMM(raw.end);
    iv := Interval(0, 0);
    if start.None? {
      err := Some(InvalidStart(day.day, raw.start));
    } else if end.None? {
      err := Some(InvalidEnd(day.day, raw.end));
    } else if end.value <= start.value {
      assert raw in day.intervals && EndsTooEarly(raw);
      err := Some(EndNotAfterStart(day.day));
    } else {
      iv, err := Interval(start.value, end.value), None;
    }
  }

  /** Sort, then compare neighbours. */
  method HasOverlap(intervals: seq<Interval>) returns (overlap: bool)
    requires NonEmptyIntervals(intervals)
    ensures overlap <==> !PairwiseDisjoint(intervals)
  {
    hide SortByStart, InsertByStart;
    SortKeepsDisjointness(intervals);
    var ivs := SortByStart(intervals);
    assert NonEmptyIntervals(ivs) by {
      assert forall i :: 0 <= i < |ivs| ==> ivs[i] in intervals;
    }
    AdjacentIsPairwise(ivs);
    var i := 1;
    while i < |ivs|
      invariant 1 <= i
      invariant forall k :: 0 < k < i && k < |ivs| ==> ivs[k - 1].endMin <= ivs[k].startMin
    {
      if ivs[i].startMin < ivs[i - 1].endMin {
        return true;
      }
      i := i + 1;
    }
    overlap := false;
  }

  // ---- what acceptance buys the reader -----------------------------------

  /** The shape the clock needs: in-range, non-empty, pairwise disjoint hours. */
  predicate SoundHours(s: Schedule) {
    forall d :: d in s.weekly ==>
      && PairwiseDisjoint(s.weekly[d])
      && forall iv :: iv in s.weekly[d] ==> 0 <= iv.startMin < iv.endMin <= 1440
  }

  lemma {:induction false} NothingDropped(ivs: seq<RawInterval>)
    requires forall i :: 0 <= i < |ivs| ==> KeptInterval(ivs[i]).Some?
    ensures |Kept(ivs)| == |ivs|
    ensures forall i :: 0 <= i < |ivs| ==> Some(Kept(ivs)[i]) == KeptInterval(ivs[i])
  {
    hide KeptInterval;
    if ivs != [] {
      var front := ivs[..|ivs| - 1];
      assert forall i :: 0 <= i < |front| ==> front[i] == ivs[i];
      NothingDropped(front);
      assert Kept(ivs) == Kept(front) + [KeptInterval(ivs[|front|]).value];
    }
  }

  lemma ValidDayParses(days: seq<RawDay>, i: nat)
    requires ValidWeekly(days) && i < |days|
    ensures |Kept(days[i].intervals)| == |days[i].intervals|
    ensures days[i].day in Weekly(days) <==> days[i].intervals != []
    ensures days[i].day in Weekly(days) ==> Weekly(days)[days[i].day] == Kept(days[i].intervals)
  {
    hide KeptInterval, Kept, Weekly, PairwiseDisjoint;
    NothingDropped(days[i].intervals);
    WeeklyLastWins(days, days[i].day);
    assert forall j :: 0 <= j < |days| && days[j].day == days[i].day ==> j == i;
    assert Contributes(days[i]) <==> days[i].intervals != [];
  }

  lemma KeptMinutes(raw: RawInterval, iv: Interval)
    requires KeptInterval(raw) == Some(iv)
    ensures ParseHHMM(raw.start) == Some(iv.startMin) && ParseHHMM(raw.end) == Some(iv.endMin)
  {
    hide ParseHHMM;
  }

  lemma ValidDayIsReadWhole(days: seq<RawDay>, i: nat, s: Schedule)
    requires ValidWeekly(days) && i < |days| && s.weekly == Weekly(days)
    ensures ReadWhole(days[i], s)
  {
    hide KeptInterval, Kept, Weekly, PairwiseDisjoint, ParseHHMM;
    ValidDayParses(days, i);
    var ivs := days[i].intervals;
    NothingDropped(ivs);
    assert s.IntervalsOn(days[i].day) == Kept(ivs);
    forall k | 0 <= k < |ivs|
      ensures ParseHHMM(ivs[k].start) == Some(Kept(ivs)[k].startMin)
      ensures ParseHHMM(ivs[k].end) == Some(Kept(ivs)[k].endMin)
    {
      KeptMinutes(ivs[k], Kept(ivs)[k]);
    }
  }

  lemma ValidWeeklyIsSound(days: seq<RawDay>, d: int)
    requires ValidWeekly(days) && d in Weekly(days)
    ensures PairwiseDisjoint(Weekly(days)[d])
    ensures forall iv :: iv in Weekly(days)[d] ==> 0 <= iv.startMin < iv.endMin <= 1440
  {
    hide KeptInterval, Kept, Weekly, PairwiseDisjoint;
    WeeklyLastWins(days, d);
    var i :| 0 <= i < |days| && days[i].day == d && Contributes(days[i]);
    ValidDayParses(days, i);
    assert ValidIntervals(days[i].intervals);
  }

  /** An accepted document is read back whole: no interval dropped, no weekday
      overwritten, and the hours are in range and pairwise disjoint. */
  lemma AcceptedDocumentParsesWhole(doc: Document, known: string -> bool)
    requires ValidDocument(doc, known)
    ensures SoundHours(Parsed(doc))
    ensures doc.Decoded? ==> forall i :: 0 <= i < |doc.raw.weekly| ==> ReadWhole(doc.raw.weekly[i], Parsed(doc))
  {
    hide KeptInterval, Kept, Weekly, PairwiseDisjoint, ReadWhole, ParseHHMM, Timezone;
    if doc.Decoded? {
      var days := doc.raw.weekly;
      forall i | 0 <= i < |days| ensures ReadWhole(days[i], Parsed(doc)) {
        ValidDayIsReadWhole(days, i, Parsed(doc));
      }
      forall d | d in Weekly(days)
        ensures PairwiseDisjoint(Weekly(days)[d])
        ensures forall iv :: iv in Weekly(days)[d] ==> 0 <= iv.startMin < iv.endMin <= 1440
      {
        ValidWeeklyIsSound(days, d);
      }
    }
  }

  /** Each raw interval of the day is there, in order, with its own minutes. */
  ghost predicate ReadWhole(day: RawDay, s: Schedule) {
    var read := s.IntervalsOn(day.day);
    && |read| == |day.intervals|
    && forall k :: 0 <= k < |read| ==>
         ParseHHMM(day.intervals[k].start) == Some(read[k].startMin)
         && ParseHHMM(day.intervals[k].end) == Some(read[k].endMin)
  }
}
