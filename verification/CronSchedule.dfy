/** The previous activation time of a cron schedule (pkg/shared/util/cronutil.go).

    A schedule arrives already parsed. A 64-bit field of it is the set of its bit positions, so that
    testing `1 << v & field` is membership. Zones have a fixed offset. */
module CronSchedule {
  import opened Wrappers
  import opened Calendar
  import opened Ranges

  /** The bit that marks a field written with a star. */
  const STAR_BIT := 63

  const NANOS_PER_SECOND := 1000000000

  datatype Location = Local | Fixed(offset: int)

  datatype Schedule = Schedule(second: set<int>, minute: set<int>, hour: set<int>, dom: set<int>,
                               month: set<int>, dow: set<int>, location: Location)

  /** An instant and the zone it is shown in. */
  datatype Time = Time(unix: int, nanos: int, offset: int)

  predicate ValidTime(t: Time) { 0 <= t.nanos < NANOS_PER_SECOND }

  predicate DayMatches(s: Schedule, t: int) {
    var domMatch := Day(t) in s.dom;
    var dowMatch := Weekday(t) in s.dow;
    if STAR_BIT in s.dom || STAR_BIT in s.dow then domMatch && dowMatch else domMatch || dowMatch
  }

  /** The schedule fires at local second `t`. */
  predicate Fires(s: Schedule, t: int) {
    && Month(t) in s.month
    && DayMatches(s, t)
    && Hour(t) in s.hour
    && Minute(t) in s.minute
    && Second(t) in s.second
  }

  ghost predicate Silent(s: Schedule, from: int, to: int) {
    forall x :: from <= x <= to ==> !Fires(s, x)
  }

  /** Offset of the zone the fields are read in: the schedule's, or the argument's when it has none. */
  function ZoneOffset(s: Schedule, t: Time): int {
    if s.location.Local? then t.offset else s.location.offset
  }

  /** Local second the search starts at: the one before the whole second that holds `t`. */
  function SearchStart(s: Schedule, t: Time): int { t.unix + ZoneOffset(s, t) - 1 }

  /** First local second of the five years the search goes back. */
  function Horizon(s: Schedule, t: Time): int { YearStart(Year(SearchStart(s, t)) - 5) * DAY }

  /** What a search may answer: the greatest firing second from the horizon to the start, shown in
      the caller's zone, or an error exactly when there is none. */
  ghost predicate Answers(s: Schedule, t: Time, r: Result<Time, string>) {
    match r
    case Success(p) =>
      var x := p.unix + ZoneOffset(s, t);
      && p.nanos == 0 && p.offset == t.offset
      && Horizon(s, t) <= x <= SearchStart(s, t)
      && Fires(s, x)
      && Silent(s, x + 1, SearchStart(s, t))
    case Failure(_) => Silent(s, Horizon(s, t), SearchStart(s, t))
  }

  /** With neither day field starred one of them must match, with a star both. */
  predicate DayRule(s: Schedule, x: int) {
    && (STAR_BIT !in s.dom && STAR_BIT !in s.dow ==> Day(x) in s.dom || Weekday(x) in s.dow)
    && (STAR_BIT in s.dom || STAR_BIT in s.dow ==> Day(x) in s.dom && Weekday(x) in s.dow)
  }

  method PrevCronTime(s: Schedule, t: Time) returns (r: Result<Time, string>)
    requires ValidTime(t)
    ensures Answers(s, t, r)
    ensures r.Success? ==> DayRule(s, r.value.unix + ZoneOffset(s, t))
  {
    hide Year, Month, Day, Hour, Minute, Second, DateTime, DayMatches, DayOf, YearStart;
    var start := SearchStart(s, t);
    var at := start;
    var yearLimit := Year(at) - 5;
    ghost var horizon := YearStart(yearLimit) * DAY;
    label WRAP:
    while true
      invariant at <= start && Silent(s, at + 1, start)
      decreases at - horizon
    {
      YearReached(at, yearLimit);
      if Year(at) < yearLimit {
        return Failure("no time found");
      }
      ghost var wrap := at;
      while Month(at) !in s.month
        invariant at <= wrap && Silent(s, at + 1, start)
        invariant Year(at) == Year(wrap)
        decreases at - horizon
      {
        YearReached(at, yearLimit);
        MonthBlock(at);
        at := DateTime(Year(at), Month(at), 1, 0, 0, 0) - 1;
        if Month(at) == 12 { continue WRAP; }
      }
      while !DayMatches(s, at)
        invariant at <= wrap && Silent(s, at + 1, start)
        invariant Year(at) == Year(wrap) && Month(at) in s.month
        decreases at - horizon
      {
        YearReached(at, yearLimit);
        var saveMonth := Month(at);
        DayBlock(at);
        SameDayFields(s, at);
        at := DateTime(Year(at), Month(at), Day(at), 0, 0, 0) - 1;
        if saveMonth != Month(at) { continue WRAP; }
      }
      while Hour(at) !in s.hour
        invariant at <= wrap && Silent(s, at + 1, start)
        invariant Year(at) == Year(wrap) && Month(at) in s.month && DayMatches(s, at)
        decreases at - horizon
      {
        YearReached(at, yearLimit);
        HourBlock(at);
        SameDayFields(s, at);
        at := DateTime(Year(at), Month(at), Day(at), Hour(at), 0, 0) - 1;
        if Hour(at) == 23 { continue WRAP; }
      }
      while Minute(at) !in s.minute
        invariant at <= wrap && Silent(s, at + 1, start)
        invariant Year(at) == Year(wrap) && Month(at) in s.month && DayMatches(s, at) && Hour(at) in s.hour
        decreases at - horizon
      {
        YearReached(at, yearLimit);
        MinuteBlock(at);
        SameDayFields(s, at);
        at := DateTime(Year(at), Month(at), Day(at), Hour(at), Minute(at), 0) - 1;
        if Minute(at) == 59 { continue WRAP; }
      }
      while Second(at) !in s.second
        invariant at <= wrap && Silent(s, at + 1, start)
        invariant Year(at) == Year(wrap) && Month(at) in s.month && DayMatches(s, at)
        invariant Hour(at) in s.hour && Minute(at) in s.minute
        decreases at - horizon
      {
        YearReached(at, yearLimit);
        SecondBlock(at);
        SameDayFields(s, at);
        at := at - 1;
        if Second(at) == 59 { continue WRAP; }
      }
      YearReached(at, yearLimit);
      MatchingDay(s, at);
      return Success(Time(at - ZoneOffset(s, t), 0, t.offset));
    }
  }

  lemma MatchingDay(s: Schedule, x: int)
    ensures DayMatches(s, x) <==> DayRule(s, x)
  {
  }

  /** Month, year and the day rule depend on the day alone. */
  lemma SameDayFields(s: Schedule, t: int)
    ensures forall x :: DayOf(x) == DayOf(t) ==>
      Year(x) == Year(t) && Month(x) == Month(t) && (DayMatches(s, x) <==> DayMatches(s, t))
  {
  }

  /** The contract of the search leaves one answer. */
  lemma OneAnswer(s: Schedule, t: Time, a: Result<Time, string>, b: Result<Time, string>)
    requires Answers(s, t, a) && Answers(s, t, b)
    ensures a.Success? <==> b.Success?
    ensures a.Success? ==> a == b
  {
    hide Fires, Year, YearStart;
    if a.Success? && b.Success? {
      var x, y := a.value.unix + ZoneOffset(s, t), b.value.unix + ZoneOffset(s, t);
      assert x < y ==> Fires(s, y);
      assert y < x ==> Fires(s, x);
    }
  }

  /** Whole second `x` of the schedule's zone lies strictly before the instant `t`. */
  predicate Before(s: Schedule, x: int, t: Time) {
    var now := t.unix + ZoneOffset(s, t);
    x < now || (x == now && t.nanos > 0)
  }

  /** `p` is the activation just before the instant `t`, as the name of the search promises. */
  ghost predicate PreviousActivation(s: Schedule, t: Time, p: Time) {
    var x := p.unix + ZoneOffset(s, t);
    && Fires(s, x) && Before(s, x, t)
    && forall y :: x < y && Before(s, y, t) ==> !Fires(s, y)
  }

  /** What the search is for: the activation just before `t`, or an error when there is none from the
      horizon to `t`. */
  ghost predicate Promised(s: Schedule, t: Time, r: Result<Time, string>) {
    match r
    case Success(p) => PreviousActivation(s, t, p)
    case Failure(_) => forall y :: Horizon(s, t) <= y && Before(s, y, t) ==> !Fires(s, y)
  }

  /** The search meets that promise except when `t` lies inside a second the schedule fires at:
      dropping the fraction and then one more second skips the activation that has just passed. */
  lemma PreviousActivationExactly(s: Schedule, t: Time, r: Result<Time, string>)
    requires ValidTime(t) && Answers(s, t, r)
    ensures Promised(s, t, r) <==> !(t.nanos > 0 && Fires(s, t.unix + ZoneOffset(s, t)))
  {
    hide Fires, Year, YearStart, Horizon;
    var now := t.unix + ZoneOffset(s, t);
    HorizonIsPast(s, t);
    if t.nanos > 0 { assert Before(s, now, t); }
  }

  lemma HorizonIsPast(s: Schedule, t: Time)
    ensures Horizon(s, t) <= SearchStart(s, t)
  {
    hide Year, YearStart;
    YearReached(SearchStart(s, t), Year(SearchStart(s, t)) - 5);
  }

  const EVERY_SECOND := Schedule(UpTo(60), UpTo(60), UpTo(24), UpTo(64), UpTo(13), UpTo(64), Local)

  lemma FiresEverySecond(t: int)
    ensures Fires(EVERY_SECOND, t)
  {
    hide UpTo, Year, YearStart, Month, Day, Hour, Minute, Second, Weekday;
    FieldRanges(t);
  }

  /** For the schedule that fires every second, any instant inside a second is answered with the
      second before it instead of the second itself. */
  lemma SkipsTheCurrentSecond(t: Time, r: Result<Time, string>)
    requires ValidTime(t) && t.nanos > 0
    requires Answers(EVERY_SECOND, t, r)
    ensures r == Success(Time(t.unix - 1, 0, t.offset))
    ensures !PreviousActivation(EVERY_SECOND, t, r.value)
  {
    hide Fires, Year, YearStart, EVERY_SECOND;
    var start := SearchStart(EVERY_SECOND, t);
    assert EVERY_SECOND.location.Local? by { LocalZone(); }
    FiresEverySecond(start);
    FiresEverySecond(start + 1);
    YearReached(start, Year(start) - 5);
    var p := Time(t.unix - 1, 0, t.offset);
    assert Answers(EVERY_SECOND, t, Success(p));
    OneAnswer(EVERY_SECOND, t, r, Success(p));
    PreviousActivationExactly(EVERY_SECOND, t, r);
  }

  lemma LocalZone()
    ensures EVERY_SECOND.location.Local?
  {
    hide UpTo;
  }

  /** Midnight of one weekday. */
  function Weekly(w: int): Schedule { Schedule({0}, {0}, {0}, UpTo(64), UpTo(13), {w}, Local) }

  lemma WeeklyFires(w: int, x: int)
    requires 0 <= w <= 6
    ensures Fires(Weekly(w), x) <==> x % DAY == 0 && Weekday(x) == w
  {
    hide UpTo, Year, YearStart;
    FieldRanges(x);
    SecondOfDay(x);
    assert x == DayOf(x) * DAY + x % DAY;
    hide Weekday, Month, Day;
  }

  /** The last midnight of weekday `w` up to local second `start`. */
  function LastMidnight(w: int, start: int): int { (DayOf(start) - (Weekday(start) - w) % 7) * DAY }

  ghost predicate NoMidnight(w: int, y: int, start: int) {
    forall x :: y < x <= start && x % DAY == 0 ==> Weekday(x) != w
  }

  lemma LastMidnightIsLast(w: int, start: int)
    requires 0 <= w <= 6
    ensures var y := LastMidnight(w, start);
      y % DAY == 0 && Weekday(y) == w && y <= start < y + 7 * DAY && NoMidnight(w, y, start)
  {
    var y := LastMidnight(w, start);
    assert DayOf(y) == DayOf(start) - (Weekday(start) - w) % 7;
    forall x | y < x <= start && x % DAY == 0 ensures Weekday(x) != w {
      WeekdaysRepeat(x, y);
      assert 0 < DayOf(x) - DayOf(y) < 7;
    }
  }

  lemma WithinHorizon(s: Schedule, t: Time, y: int)
    requires y <= SearchStart(s, t) < y + 7 * DAY
    ensures Horizon(s, t) <= y
  {
    hide YearStart, Year;
    var start := SearchStart(s, t);
    YearReached(start, Year(start));
    YearStep(Year(start) - 1);
    YearsGrow(Year(start) - 5, Year(start) - 1);
  }

  /** A weekly schedule is answered with the last midnight of its weekday, less than seven days back. */
  lemma WeeklyAnswer(w: int, t: Time, r: Result<Time, string>)
    requires 0 <= w <= 6 && Answers(Weekly(w), t, r)
    ensures r == Success(Time(LastMidnight(w, t.unix + t.offset - 1) - t.offset, 0, t.offset))
  {
    hide Answers, Weekly, LastMidnight;
    WeeklyHolds(w, t);
    OneAnswer(Weekly(w), t, r, Success(Time(LastMidnight(w, t.unix + t.offset - 1) - t.offset, 0, t.offset)));
  }

  lemma WeeklyHolds(w: int, t: Time)
    requires 0 <= w <= 6
    ensures Answers(Weekly(w), t, Success(Time(LastMidnight(w, t.unix + t.offset - 1) - t.offset, 0, t.offset)))
  {
    var start := t.unix + t.offset - 1;
    var y := LastMidnight(w, start);
    LastMidnightIsLast(w, start);
    WeeklyFires(w, y);
    WeeklySilent(w, y, start);
    WeeklyIsLocal(w);
    hide Weekly, LastMidnight, Weekday, NoMidnight, Fires, Silent, Answers;
    LocalAnswer(Weekly(w), t, y);
  }

  lemma WeeklyIsLocal(w: int)
    ensures Weekly(w).location.Local?
  {
    hide UpTo;
  }

  /** A firing second less than seven days back, with none after it, is the answer. */
  lemma LocalAnswer(s: Schedule, t: Time, y: int)
    requires s.location.Local? && Fires(s, y) && Silent(s, y + 1, t.unix + t.offset - 1)
    requires y <= t.unix + t.offset - 1 < y + 7 * DAY
    ensures Answers(s, t, Success(Time(y - t.offset, 0, t.offset)))
  {
    hide Fires, Silent, Horizon;
    WithinHorizon(s, t, y);
  }

  lemma WeeklySilent(w: int, y: int, start: int)
    requires 0 <= w <= 6 && NoMidnight(w, y, start)
    ensures Silent(Weekly(w), y + 1, start)
  {
    hide Fires, Weekly, Weekday;
    forall x | y < x <= start ensures !Fires(Weekly(w), x) { WeeklyFires(w, x); }
  }

  /** From noon on Wednesday 10 January 2024 the last Monday began on the 8th. */
  lemma LastMonday(r: Result<Time, string>)
    requires Answers(Weekly(1), Time(DateTime(2024, 1, 10, 12, 0, 0), 0, 0), r)
    ensures r == Success(Time(DateTime(2024, 1, 8, 0, 0, 0), 0, 0))
  {
    hide Answers, Weekly;
    WeeklyAnswer(1, Time(DateTime(2024, 1, 10, 12, 0, 0), 0, 0), r);
    MondayBefore();
    hide DateTime, LastMidnight;
  }

  lemma MondayBefore()
    ensures LastMidnight(1, DateTime(2024, 1, 10, 12, 0, 0) - 1) == DateTime(2024, 1, 8, 0, 0, 0)
  {
    KnownMonday();
    var monday, start := DateTime(2024, 1, 8, 0, 0, 0), DateTime(2024, 1, 10, 12, 0, 0) - 1;
    LastMidnightIsLast(1, start);
    assert monday % DAY == 0 && monday <= start < monday + 7 * DAY;
    hide LastMidnight, Weekday, DateTime;
    WeekdaysRepeat(monday, LastMidnight(1, start));
  }

  /** The 13th or a Friday: starred fields would have to match together. */
  const FRIDAY_OR_13TH := Schedule({0}, {0}, {0}, {13}, UpTo(13), {5}, Local)

  /** From noon on Wednesday 14 August 2024 the answer is Tuesday the 13th. */
  lemma TuesdayThe13th(r: Result<Time, string>)
    requires Answers(FRIDAY_OR_13TH, Time(DateTime(2024, 8, 14, 12, 0, 0), 0, 0), r)
    ensures r == Success(Time(DateTime(2024, 8, 13, 0, 0, 0), 0, 0))
  {
    var t, p := Time(DateTime(2024, 8, 14, 12, 0, 0), 0, 0), Time(DateTime(2024, 8, 13, 0, 0, 0), 0, 0);
    BetweenFridays(t.unix);
    assert Answers(FRIDAY_OR_13TH, t, Success(p)) by {
      WithinHorizon(FRIDAY_OR_13TH, t, p.unix);
      hide Fires, Year, YearStart, Horizon;
      assert SearchStart(FRIDAY_OR_13TH, t) == t.unix - 1;
    }
    hide Fires, FRIDAY_OR_13TH, Answers;
    OneAnswer(FRIDAY_OR_13TH, t, r, Success(p));
  }

  lemma BetweenFridays(now: int)
    requires now == DateTime(2024, 8, 14, 12, 0, 0)
    ensures Fires(FRIDAY_OR_13TH, DateTime(2024, 8, 13, 0, 0, 0)) && FRIDAY_OR_13TH.location.Local?
    ensures forall x :: DateTime(2024, 8, 13, 0, 0, 0) < x < now ==> !Fires(FRIDAY_OR_13TH, x)
  {
    hide UpTo, Year, Month, Day, Weekday, Hour, Minute, Second, YearOfDay;
    FieldsOfDateTime(2024, 8, 13, 0, 0, 0);
    forall x | DateTime(2024, 8, 13, 0, 0, 0) < x < now ensures !Fires(FRIDAY_OR_13TH, x) { NotThatDay(x); }
  }

  /** The 14th is neither a 13th nor a Friday, and no other midnight lies in between. */
  lemma NotThatDay(x: int)
    requires DateTime(2024, 8, 13, 0, 0, 0) < x < DateTime(2024, 8, 14, 12, 0, 0)
    ensures !Fires(FRIDAY_OR_13TH, x)
  {
    SecondOfDay(x);
    TheFourteenth();
    hide UpTo, Year, Month, Day, Hour, Minute, Second, Weekday;
    if Hour(x) == Minute(x) == Second(x) == 0 { assert x == DateTime(2024, 8, 14, 0, 0, 0); }
  }

  lemma TheFourteenth()
    ensures Day(DateTime(2024, 8, 14, 0, 0, 0)) == 14 && Weekday(DateTime(2024, 8, 14, 0, 0, 0)) == 3
  {
    assert Weekday(DateTime(2024, 8, 14, 0, 0, 0)) == 3;
    hide Weekday, Day, DateTime, Year, Month;
    FieldsOfDateTime(2024, 8, 14, 0, 0, 0);
  }

  /** Midnight of 29 February. */
  const LEAP_DAY := Schedule({0}, {0}, {0}, {29}, {2}, UpTo(64), Local)

  const LEAP_MIDNIGHT := DateTime(2104, 2, 29, 0, 0, 0)

  const INTO_LEAP_DAY := Time(LEAP_MIDNIGHT, NANOS_PER_SECOND / 2, 0)

  /** Half a second into 29 February 2104 the search for the last leap day reports none: the one before lies
      in 2096, and the one that has just begun is skipped. */
  lemma LeapDayMissed(r: Result<Time, string>)
    requires Answers(LEAP_DAY, INTO_LEAP_DAY, r)
    ensures r.Failure? && !Promised(LEAP_DAY, INTO_LEAP_DAY, r)
  {
    IntoLeapDay();
    hide Fires, LEAP_DAY, LEAP_MIDNIGHT, INTO_LEAP_DAY, Horizon, SearchStart, ZoneOffset;
    if r.Success? { NoEarlierLeapDay(r.value.unix); }
    PreviousActivationExactly(LEAP_DAY, INTO_LEAP_DAY, r);
  }

  lemma IntoLeapDay()
    ensures ValidTime(INTO_LEAP_DAY) && INTO_LEAP_DAY.nanos > 0 && INTO_LEAP_DAY.unix == LEAP_MIDNIGHT
    ensures ZoneOffset(LEAP_DAY, INTO_LEAP_DAY) == 0 && SearchStart(LEAP_DAY, INTO_LEAP_DAY) == LEAP_MIDNIGHT - 1
    ensures Horizon(LEAP_DAY, INTO_LEAP_DAY) == YearStart(2099) * DAY && Fires(LEAP_DAY, LEAP_MIDNIGHT)
  {
    hide UpTo, Year;
    FieldsOfDateTime(2104, 2, 29, 0, 0, 0);
    FieldRanges(LEAP_MIDNIGHT);
    assert DayOf(LEAP_MIDNIGHT - 1) == DayNumber(2104, 2, 29) - 1;
    InMonth(LEAP_MIDNIGHT - 1, 2104, 2);
  }

  /** No leap day falls between 2099 and the end of 28 February 2104. */
  lemma NoEarlierLeapDay(x: int)
    requires YearStart(2099) * DAY <= x < LEAP_MIDNIGHT
    ensures !Fires(LEAP_DAY, x)
  {
    hide UpTo, Year, Month, Day, Hour, Minute, Second, Weekday;
    DateTimeOfFields(x);
    YearReached(x, 2099);
    YearReached(x, 2105);
  }

  /** Asked again from any instant after its answer and up to the old question, the search repeats
      its answer. */
  lemma StableUntilNextActivation(s: Schedule, t: Time, u: Time, p: Time)
    requires Answers(s, t, Success(p)) && u.offset == t.offset
    requires p.unix < u.unix <= t.unix
    ensures Answers(s, u, Success(p))
  {
    hide Fires, Year, YearStart;
    var a, b := SearchStart(s, u), SearchStart(s, t);
    YearReached(a, Year(a));
    YearReached(b, Year(a));
    YearsGrow(Year(a) - 5, Year(b) - 5);
  }

  function Redisplayed(r: Result<Time, string>, offset: int): Result<Time, string> {
    match r
    case Success(p) => Success(p.(offset := offset))
    case Failure(_) => r
  }

  /** A schedule with a zone of its own gives the same answer however the question is shown. */
  lemma DisplayZoneIrrelevant(s: Schedule, t: Time, offset: int, r: Result<Time, string>)
    requires s.location.Fixed? && Answers(s, t, r)
    ensures Answers(s, t.(offset := offset), Redisplayed(r, offset))
  {
    hide Fires, Year, YearStart;
  }
}
