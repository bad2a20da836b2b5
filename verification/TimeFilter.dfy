/** The time filter of a sensor dependency (pkg/sensors/dependencies/filter.go, filterTime, and
    pkg/shared/util/time.go). Zones have a fixed offset; `zones` gives the offset of each known name. */
module TimeFilter {
  import opened Wrappers
  import opened Calendar
  import opened TimeText

  datatype Filter = Filter(start: string, stop: string, timezone: string)

  type Zones = map<string, int>

  const DAY_NANOS := DAY * BILLION

  function ParseTime(t: string, baseDate: Instant): Result<Instant, string> {
    ParseDateTime(DateText(baseDate.unix) + " " + t, 0)
  }

  function ParseTimeInTimezone(t: string, baseDate: Instant, timezone: string, zones: Zones): Result<Instant, string> {
    if timezone != "" && timezone !in zones then Failure("invalid timezone")
    else
      var offset := if timezone == "" then 0 else zones[timezone];
      ParseDateTime(DateText(baseDate.unix + offset) + " " + t, offset)
  }

  predicate Before(a: Instant, b: Instant) {
    a.unix < b.unix || (a.unix == b.unix && a.nanos < b.nanos)
  }

  function FilterTime(f: Option<Filter>, event: Instant, zones: Zones): Result<bool, string> {
    if f.None? then Success(true)
    else
      var Filter(start, stop, timezone) := f.value;
      var startTime :- if timezone != "" then ParseTimeInTimezone(start, event, timezone, zones) else ParseTime(start, event);
      var stopTime :- if timezone != "" then ParseTimeInTimezone(stop, event, timezone, zones) else ParseTime(stop, event);
      if Before(startTime, stopTime) then
        Success((Before(startTime, event) || event == startTime) && Before(event, stopTime))
      else
        Success((Before(startTime, event) || event == startTime) || Before(event, stopTime))
  }

  /** Nanoseconds since local midnight. */
  function TimeOfDay(e: Instant, offset: int): int { ((e.unix + offset) * BILLION + e.nanos) % DAY_NANOS }

  function ClockNanos(c: Clock): int { c.second * BILLION + c.nanos }

  /** `x` lies in the window that opens at `a` and closes before the next `b` round the clock; the
      whole day when the two are equal. */
  predicate InWindow(x: int, a: int, b: int) {
    a == b || (x - a) % DAY_NANOS < (b - a) % DAY_NANOS
  }

  /** The zone a filter is read in is known, its two clock times are well formed, and the local year of
      the event is written with four digits. */
  predicate Readable(f: Filter, event: Instant, zones: Zones) {
    && (f.timezone == "" || f.timezone in zones)
    && ParseClock(f.start).Success? && ParseClock(f.stop).Success?
    && 0 <= Year(event.unix + Offset(f, zones)) <= 9999
  }

  function Offset(f: Filter, zones: Zones): int {
    if f.timezone in zones && f.timezone != "" then zones[f.timezone] else 0
  }

  /** A clock time put on the date of a local second: it parses exactly when the clock time does and
      the year has four digits, and lands that far after the local midnight. */
  lemma ClockOnDate(t: int, clock: string, offset: int)
    ensures var r := ParseDateTime(DateText(t) + " " + clock, offset);
      && (r.Success? <==> ParseClock(clock).Success? && 0 <= Year(t) <= 9999)
      && (r.Success? ==> var c := ParseClock(clock).value;
          r.value == Instant(DayOf(t) * DAY - offset + c.second, c.nanos))
  {
    hide Year, Month, Day, DateTime, IsDate, Two, GetNum, GetYear, GetClock, YearText;
    FieldRanges(t);
    var r0 := " " + clock;
    var r1 := Two(Day(t)) + r0;
    var r2 := Two(Month(t)) + ("-" + r1);
    assert DateText(t) + " " + clock == YearText(Year(t)) + ("-" + r2);
    GetYearText(Year(t), "-" + r2);
    if 0 <= Year(t) <= 9999 {
      assert ("-" + r2)[1..] == r2 && ("-" + r1)[1..] == r1;
      GetTwo(Month(t), "-" + r1, true);
      GetTwo(Day(t), r0, true);
      assert r0[1..] == clock;
      assert SkipBlanks(r0) == Success(CutBlanks(clock));
      DateTimeOfFields(t);
      MidnightPlus(t);
    }
  }

  /** Only years of four digits are read back from their own text. */
  lemma GetYearText(y: int, rest: string)
    requires rest != "" && rest[0] == '-'
    ensures 0 <= y <= 9999 ==> GetYear(YearText(y) + rest) == Success((y, rest))
    ensures !(0 <= y <= 9999) ==> GetYear(YearText(y) + rest).Failure? || Skip(GetYear(YearText(y) + rest).value.1, '-').Failure?
  {
    if 0 <= y <= 9999 {
      GetFour(y, rest);
    } else if y > 9999 {
      var s := Decimal(y);
      assert (s + rest)[4..][0] == s[4];
    }
  }

  /** A dependency's time filter passes an event exactly when the event's local time of day, fraction
      included, lies in the cyclic window from start to stop; it fails with an error exactly when it
      cannot be read. */
  lemma FilterTimeIsWindow(f: Filter, event: Instant, zones: Zones)
    requires 0 <= event.nanos < BILLION
    ensures var r := FilterTime(Some(f), event, zones);
      && (r.Success? <==> Readable(f, event, zones))
      && (r.Success? ==>
           (r.value <==> InWindow(TimeOfDay(event, Offset(f, zones)),
                                  ClockNanos(ParseClock(f.start).value), ClockNanos(ParseClock(f.stop).value))))
  {
    var offset := Offset(f, zones);
    var t := event.unix + offset;
    hide Year, ParseDateTime, ParseClock, DateText, InWindow;
    ClockOnDate(t, f.start, offset);
    ClockOnDate(t, f.stop, offset);
    if Readable(f, event, zones) {
      ClockInRange(f.start);
      ClockInRange(f.stop);
      WindowArithmetic(event, offset, ParseClock(f.start).value, ParseClock(f.stop).value);
    }
  }

  lemma ClockInRange(s: string)
    requires ParseClock(s).Success?
    ensures var c := ParseClock(s).value; 0 <= c.second < DAY && 0 <= c.nanos < BILLION
  {
  }

  lemma WindowArithmetic(event: Instant, offset: int, a: Clock, b: Clock)
    requires 0 <= event.nanos < BILLION
    requires 0 <= a.second < DAY && 0 <= a.nanos < BILLION && 0 <= b.second < DAY && 0 <= b.nanos < BILLION
    ensures var midnight := DayOf(event.unix + offset) * DAY - offset;
      var start, stop := Instant(midnight + a.second, a.nanos), Instant(midnight + b.second, b.nanos);
      var from, to := Before(start, event) || event == start, Before(event, stop);
      (if Before(start, stop) then from && to else from || to)
        <==> InWindow(TimeOfDay(event, offset), ClockNanos(a), ClockNanos(b))
  {
    var t := event.unix + offset;
    var x := t % DAY * BILLION + event.nanos;
    NanosOfDay(event, offset);
    hide TimeOfDay;
    CyclicCases(x, ClockNanos(a), ClockNanos(b));
  }

  lemma CyclicCases(x: int, a: int, b: int)
    requires 0 <= x < DAY_NANOS && 0 <= a < DAY_NANOS && 0 <= b < DAY_NANOS
    ensures InWindow(x, a, b) <==> if a < b then a <= x && x < b else a <= x || x < b
  {
    assert (x - a) % DAY_NANOS == if a <= x then x - a else x - a + DAY_NANOS;
    assert (b - a) % DAY_NANOS == if a <= b then b - a else b - a + DAY_NANOS;
  }

  /** Swapping different start and stop times accepts exactly the events the filter rejects: the two
      windows are disjoint and cover every instant. */
  lemma SwappedIsComplement(f: Filter, event: Instant, zones: Zones)
    requires 0 <= event.nanos < BILLION && Readable(f, event, zones)
    requires ClockNanos(ParseClock(f.start).value) != ClockNanos(ParseClock(f.stop).value)
    ensures var swapped := f.(start := f.stop, stop := f.start);
      var r, q := FilterTime(Some(f), event, zones), FilterTime(Some(swapped), event, zones);
      r.Success? && q.Success? && r.value == !q.value
  {
    hide Year, ParseClock, FilterTime, InWindow, TimeOfDay;
    var swapped := f.(start := f.stop, stop := f.start);
    var a, b := ClockNanos(ParseClock(f.start).value), ClockNanos(ParseClock(f.stop).value);
    FilterTimeIsWindow(f, event, zones);
    FilterTimeIsWindow(swapped, event, zones);
    ClockInRange(f.start);
    ClockInRange(f.stop);
    var x := TimeOfDay(event, Offset(f, zones));
    NanosOfDay(event, Offset(f, zones));
    CyclicCases(x, a, b);
    CyclicCases(x, b, a);
  }

  /** Equal start and stop accept every event that can be read. */
  lemma EqualIsWholeDay(f: Filter, event: Instant, zones: Zones)
    requires 0 <= event.nanos < BILLION && Readable(f, event, zones)
    requires ParseClock(f.start) == ParseClock(f.stop)
    ensures FilterTime(Some(f), event, zones) == Success(true)
  {
    hide Year, ParseClock, FilterTime, InWindow;
    FilterTimeIsWindow(f, event, zones);
    var a := ClockNanos(ParseClock(f.start).value);
    ClockInRange(f.start);
    CyclicCases(TimeOfDay(event, Offset(f, zones)), a, a);
  }

  /** The local clock time of an instant, in nanoseconds. */
  lemma TimeOfDayFields(e: Instant, offset: int)
    requires 0 <= e.nanos < BILLION
    ensures var t := e.unix + offset;
      TimeOfDay(e, offset) == (Hour(t) * 3600 + Minute(t) * 60 + Second(t)) * BILLION + e.nanos
  {
    hide Hour, Minute, Second, TimeOfDay, Month, Day, Weekday, Year;
    SecondOfDay(e.unix + offset);
    NanosOfDay(e, offset);
  }

  lemma NanosOfDay(e: Instant, offset: int)
    requires 0 <= e.nanos < BILLION
    ensures TimeOfDay(e, offset) == (e.unix + offset) % DAY * BILLION + e.nanos
    ensures 0 <= TimeOfDay(e, offset) < DAY_NANOS
  {
    var t := e.unix + offset;
    var x := t % DAY * BILLION + e.nanos;
    assert t * BILLION + e.nanos == DayOf(t) * DAY_NANOS + x;
  }

  lemma WindowOfClocks(f: Filter, a: int, b: int, event: Instant, zones: Zones)
    requires ParseClock(f.start) == Success(Clock(a, 0)) && ParseClock(f.stop) == Success(Clock(b, 0))
    requires 0 <= event.nanos < BILLION && Readable(f, event, zones)
    ensures var t := event.unix + Offset(f, zones);
      var now := Hour(t) * 3600 + Minute(t) * 60 + Second(t);
      FilterTime(Some(f), event, zones) == Success(if a < b then a <= now < b else a <= now || now < b)
  {
    hide FilterTime, ParseClock, Year, InWindow, Offset, Readable, TimeOfDay, Hour, Minute, Second, Month, Day, Weekday;
    var t := event.unix + Offset(f, zones);
    ClockInRange(f.start);
    ClockInRange(f.stop);
    FilterTimeIsWindow(f, event, zones);
    TimeOfDayFields(event, Offset(f, zones));
    FieldRanges(t);
    WholeSeconds(Hour(t) * 3600 + Minute(t) * 60 + Second(t), event.nanos, a, b);
  }

  lemma WholeSeconds(now: int, nanos: int, a: int, b: int)
    requires 0 <= nanos < BILLION && 0 <= now < DAY && 0 <= a < DAY && 0 <= b < DAY
    ensures InWindow(now * BILLION + nanos, a * BILLION, b * BILLION) <==> if a < b then a <= now < b else a <= now || now < b
  {
    hide InWindow;
    CyclicCases(now * BILLION + nanos, a * BILLION, b * BILLION);
  }

  /** With printed clock times a filter accepts an event exactly when, in hours, minutes and seconds of the
      filter's zone, the event lies from start up to before stop, round midnight when start is not before
      stop. */
  lemma PrintedWindow(h1: int, m1: int, s1: int, h2: int, m2: int, s2: int, timezone: string, event: Instant, zones: Zones)
    requires IsClock(h1, m1, s1) && IsClock(h2, m2, s2) && 0 <= event.nanos < BILLION
    requires timezone == "" || timezone in zones
    requires var t := event.unix + if timezone == "" then 0 else zones[timezone]; 0 <= Year(t) <= 9999
    ensures var t := event.unix + if timezone == "" then 0 else zones[timezone];
      var start, stop := h1 * 3600 + m1 * 60 + s1, h2 * 3600 + m2 * 60 + s2;
      var now := Hour(t) * 3600 + Minute(t) * 60 + Second(t);
      var f := Filter(Two(h1) + ":" + Two(m1) + ":" + Two(s1), Two(h2) + ":" + Two(m2) + ":" + Two(s2), timezone);
      FilterTime(Some(f), event, zones) == Success(if start < stop then start <= now < stop else start <= now || now < stop)
  {
    hide FilterTime, ParseClock, Year, Two, Hour, Minute, Second;
    var f := Filter(Two(h1) + ":" + Two(m1) + ":" + Two(s1), Two(h2) + ":" + Two(m2) + ":" + Two(s2), timezone);
    ClockRoundTrip(h1, m1, s1);
    ClockRoundTrip(h2, m2, s2);
    WindowOfClocks(f, h1 * 3600 + m1 * 60 + s1, h2 * 3600 + m2 * 60 + s2, event, zones);
  }

  /** Between half past two and half past four, an event at a quarter past two is too early. */
  lemma QuarterPastTwo(event: Instant, zones: Zones)
    requires 0 <= event.nanos < BILLION && 0 <= Year(event.unix) <= 9999
    requires Hour(event.unix) == 2 && Minute(event.unix) == 15
    ensures FilterTime(Some(Filter("02:30:00", "04:30:00", "")), event, zones) == Success(false)
  {
    ClockLiterals();
    hide FilterTime, Two, Year, Hour, Minute, Second;
    FieldRanges(event.unix);
    PrintedWindow(2, 30, 0, 4, 30, 0, "", event, zones);
  }

  lemma ClockLiterals()
    ensures Two(2) + ":" + Two(30) + ":" + Two(0) == "02:30:00" && Two(4) + ":" + Two(30) + ":" + Two(0) == "04:30:00"
  {
  }
}
