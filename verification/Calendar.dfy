/** The proleptic Gregorian calendar that the cron search, the exclusion-date parser and the
    time filter all read their fields from.

    A local instant is a whole number of seconds since 1970-01-01T00:00:00 on the wall clock of one
    fixed-offset zone, so every day has 86400 seconds. Years, months, days and seconds are unbounded
    integers; `/` and `%` round towards minus infinity, as the day arithmetic needs. */
module Calendar {

  const DAY: int := 86400

  predicate IsLeap(y: int) {
    y % 4 == 0 && (y % 100 != 0 || y % 400 == 0)
  }

  predicate IsMonth(m: int) { 1 <= m <= 12 }

  function DaysIn(y: int, m: int): int
    requires IsMonth(m)
  {
    if m == 2 then (if IsLeap(y) then 29 else 28)
    else if m == 4 || m == 6 || m == 9 || m == 11 then 30
    else 31
  }

  /** Days of year `y` before the first of month `m`. */
  function DaysBefore(y: int, m: int): int
    requires IsMonth(m)
  {
    [0, 31, 59, 90, 120, 151, 181, 212, 243, 273, 304, 334][m - 1] + (if m > 2 && IsLeap(y) then 1 else 0)
  }

  /** Day number, counted from 1970-01-01, of 1 January of year `y`. */
  function YearStart(y: int): int {
    365 * (y - 1) + (y - 1) / 4 - (y - 1) / 100 + (y - 1) / 400 - 719162
  }

  predicate IsDate(y: int, m: int, d: int) {
    IsMonth(m) && 1 <= d <= DaysIn(y, m)
  }

  function DayNumber(y: int, m: int, d: int): int
    requires IsMonth(m)
  {
    YearStart(y) + DaysBefore(y, m) + d - 1
  }

  predicate IsClock(h: int, mi: int, s: int) {
    0 <= h < 24 && 0 <= mi < 60 && 0 <= s < 60
  }

  /** The local second with the given civil fields. */
  function DateTime(y: int, m: int, d: int, h: int, mi: int, s: int): int
    requires IsMonth(m)
  {
    DayNumber(y, m, d) * DAY + h * 3600 + mi * 60 + s
  }

  /** The year of a day number, by 400-, 100-, 4- and 1-year cycles counted from year 1. */
  function YearOfDay(n: int): (y: int)
    ensures YearStart(y) <= n < YearStart(y + 1)
  {
    var e := n + 719162;
    var q, r := e / 146097, e % 146097;
    var c := if r == 146096 then 3 else r / 36524;
    var b, r' := (r - 36524 * c) / 1461, (r - 36524 * c) % 1461;
    var a := if r' == 1460 then 3 else r' / 365;
    var y := 400 * q + 100 * c + 4 * b + a + 1;
    CycleSplit(n, q, c, b, a, r' - 365 * a);
    y
  }

  /** The month holding day `k` (counted from 0) of year `y`. */
  function MonthOfYearDay(y: int, k: int): (m: int)
    requires 0 <= k < if IsLeap(y) then 366 else 365
    ensures IsMonth(m) && DaysBefore(y, m) <= k < DaysBefore(y, m) + DaysIn(y, m)
  {
    var l := if IsLeap(y) then 1 else 0;
    if k < 31 then 1 else if k < 59 + l then 2 else if k < 90 + l then 3 else if k < 120 + l then 4
    else if k < 151 + l then 5 else if k < 181 + l then 6 else if k < 212 + l then 7
    else if k < 243 + l then 8 else if k < 273 + l then 9 else if k < 304 + l then 10
    else if k < 334 + l then 11 else 12
  }

  function DayOf(t: int): int { t / DAY }

  function Year(t: int): int { YearOfDay(DayOf(t)) }

  function Month(t: int): (m: int)
    ensures IsMonth(m)
  {
    YearStep(Year(t));
    MonthOfYearDay(Year(t), DayOf(t) - YearStart(Year(t)))
  }

  function Day(t: int): int { DayOf(t) - YearStart(Year(t)) - DaysBefore(Year(t), Month(t)) + 1 }

  function Hour(t: int): int { t % DAY / 3600 }

  function Minute(t: int): int { t % 3600 / 60 }

  function Second(t: int): int { t % 60 }

  /** 0 is Sunday; 1970-01-01 was a Thursday. */
  function Weekday(t: int): int { (DayOf(t) + 4) % 7 }

  lemma YearStep(y: int)
    ensures YearStart(y + 1) == YearStart(y) + (if IsLeap(y) then 366 else 365)
  {
    assert y / 4 == (y - 1) / 4 + (if y % 4 == 0 then 1 else 0);
    assert y / 100 == (y - 1) / 100 + (if y % 100 == 0 then 1 else 0);
    assert y / 400 == (y - 1) / 400 + (if y % 400 == 0 then 1 else 0);
  }

  lemma YearCycles(q: int, c: int, b: int, a: int)
    requires 0 <= c < 4 && 0 <= b < 25 && 0 <= a < 4
    ensures YearStart(400 * q + 100 * c + 4 * b + a + 1)
         == 146097 * q + 36524 * c + 1461 * b + 365 * a - 719162
  {
    var z := 400 * q + 100 * c + 4 * b + a;
    assert z / 4 == 100 * q + 25 * c + b;
    assert z / 100 == 4 * q + c;
    assert z / 400 == q;
  }

  /** A day split into cycles lies in the year the cycles name: the last cycle of each kind is one
      day longer exactly when it ends in a leap year. */
  lemma CycleSplit(n: int, q: int, c: int, b: int, a: int, x: int)
    requires 0 <= c < 4 && 0 <= b < 25 && 0 <= a < 4
    requires n + 719162 == 146097 * q + 36524 * c + 1461 * b + 365 * a + x
    requires 0 <= x < 365 || (x == 365 && a == 3 && (b < 24 || c == 3))
    ensures var y := 400 * q + 100 * c + 4 * b + a + 1; YearStart(y) <= n < YearStart(y + 1)
  {
    var y := 400 * q + 100 * c + 4 * b + a + 1;
    hide YearStart, IsLeap;
    YearCycles(q, c, b, a);
    YearStep(y);
    if x == 365 { LeapEnd(q, c, b); }
  }

  /** A 4-year cycle ends in a leap year unless it closes a century that closes no 400 years. */
  lemma LeapEnd(q: int, c: int, b: int)
    requires 0 <= c < 4 && 0 <= b < 25
    ensures IsLeap(400 * q + 100 * c + 4 * b + 4) <==> b < 24 || c == 3
  {
    var y := 400 * q + 100 * c + 4 * b + 4;
    assert y == 4 * (100 * q + 25 * c + b + 1) + 0;
    if b < 24 {
      assert y == 100 * (4 * q + c) + (4 * b + 4);
    } else {
      assert y == 100 * (4 * q + c + 1) + 0;
      assert y == 400 * q + 100 * (c + 1);
      assert c == 3 ==> y == 400 * (q + 1) + 0;
    }
  }

  lemma YearsGrow(y: int, z: int)
    requires y <= z
    ensures YearStart(y) + 365 * (z - y) <= YearStart(z)
    decreases z - y
  {
    if y < z {
      YearsGrow(y, z - 1);
      YearStep(z - 1);
    }
  }

  /** The year of a day is the only one whose span holds it. */
  lemma YearUnique(n: int, y: int)
    requires YearStart(y) <= n < YearStart(y + 1)
    ensures YearOfDay(n) == y
  {
    var z := YearOfDay(n);
    if z < y { YearsGrow(z + 1, y); } else if y < z { YearsGrow(y + 1, z); }
  }

  lemma MonthUnique(y: int, k: int, m: int)
    requires 0 <= k < if IsLeap(y) then 366 else 365
    requires IsMonth(m) && DaysBefore(y, m) <= k < DaysBefore(y, m) + DaysIn(y, m)
    ensures MonthOfYearDay(y, k) == m
  {
  }

  /** Civil fields to a second and back: every valid combination of fields is read back unchanged. */
  lemma FieldsOfDateTime(y: int, m: int, d: int, h: int, mi: int, s: int)
    requires IsDate(y, m, d) && IsClock(h, mi, s)
    ensures var t := DateTime(y, m, d, h, mi, s);
      && Year(t) == y && Month(t) == m && Day(t) == d
      && Hour(t) == h && Minute(t) == mi && Second(t) == s
  {
    var t := DateTime(y, m, d, h, mi, s);
    var n := DayNumber(y, m, d);
    assert DayOf(t) == n && t % DAY == h * 3600 + mi * 60 + s;
    YearStep(y);
    YearUnique(n, y);
    MonthUnique(y, n - YearStart(y), m);
    ClockFields(n * 24 + h, mi, s);
  }

  lemma ClockFields(h: int, mi: int, s: int)
    requires 0 <= mi < 60 && 0 <= s < 60
    ensures var t := h * 3600 + mi * 60 + s; t % 3600 / 60 == mi && t % 60 == s
  {
    ByHour(h, mi * 60 + s);
    BySixty(mi, s);
    BySixty(60 * h + mi, s);
    assert h * 3600 + mi * 60 + s == (60 * h + mi) * 60 + s;
  }

  lemma BySixty(q: int, r: int)
    requires 0 <= r < 60
    ensures (q * 60 + r) % 60 == r && (q * 60 + r) / 60 == q
  {
  }

  lemma ByHour(q: int, r: int)
    requires 0 <= r < 3600
    ensures (q * 3600 + r) % 3600 == r && (q * 3600 + r) / 3600 == q
  {
  }

  /** A second to civil fields and back: the fields are valid and name the same second. */
  lemma DateTimeOfFields(t: int)
    ensures IsDate(Year(t), Month(t), Day(t)) && IsClock(Hour(t), Minute(t), Second(t))
    ensures DateTime(Year(t), Month(t), Day(t), Hour(t), Minute(t), Second(t)) == t
  {
    SecondOfDay(t);
  }

  lemma SecondOfDay(t: int)
    ensures t == DayOf(t) * DAY + Hour(t) * 3600 + Minute(t) * 60 + Second(t)
    ensures IsClock(Hour(t), Minute(t), Second(t))
  {
    var n, r := t / DAY, t % DAY;
    var h, q := r / 3600, r % 3600;
    var mi, s := q / 60, q % 60;
    assert t == (24 * n + h) * 3600 + q == ((24 * n + h) * 60 + mi) * 60 + s;
    ByHour(24 * n + h, q);
    BySixty((24 * n + h) * 60 + mi, s);
  }

  lemma InMonth(t: int, y: int, m: int)
    requires IsMonth(m)
    requires DayNumber(y, m, 1) <= DayOf(t) < DayNumber(y, m, 1) + DaysIn(y, m)
    ensures Year(t) == y && Month(t) == m
  {
    YearStep(y);
    YearUnique(DayOf(t), y);
    MonthUnique(y, DayOf(t) - YearStart(y), m);
  }

  /** Every field stays in its range. */
  lemma FieldRanges(t: int)
    ensures 1 <= Month(t) <= 12 && 1 <= Day(t) <= 31 && 0 <= Weekday(t) <= 6
    ensures IsClock(Hour(t), Minute(t), Second(t))
  {
    hide Year, YearStart;
    SecondOfDay(t);
    DateTimeOfFields(t);
  }

  /** The second before a month begins lies in the month before. */
  lemma BeforeMonth(y: int, m: int)
    requires IsMonth(m)
    ensures var t := DateTime(y, m, 1, 0, 0, 0) - 1;
      Year(t) == (if m == 1 then y - 1 else y) && Month(t) == (if m == 1 then 12 else m - 1)
  {
    var t := DateTime(y, m, 1, 0, 0, 0) - 1;
    assert DayOf(t) == DayNumber(y, m, 1) - 1;
    if m == 1 {
      YearStep(y - 1);
      InMonth(t, y - 1, 12);
    } else {
      InMonth(t, y, m - 1);
    }
  }

  /** All seconds from the first of the month up to `t` share its year and month, and the second
      before them lies in the previous month, December exactly when the year changes. */
  lemma MonthBlock(t: int)
    ensures var first := DateTime(Year(t), Month(t), 1, 0, 0, 0);
      && first <= t
      && (forall x :: first <= x <= t ==> Year(x) == Year(t) && Month(x) == Month(t))
      && (Month(first - 1) != 12 ==> Year(first - 1) == Year(t))
  {
    hide YearOfDay, MonthOfYearDay;
    var y, m := Year(t), Month(t);
    var first := DateTime(y, m, 1, 0, 0, 0);
    DateTimeOfFields(t);
    forall x | first <= x <= t ensures Year(x) == y && Month(x) == m {
      InMonth(x, y, m);
    }
    BeforeMonth(y, m);
  }

  /** All seconds of one day share its date; the second before midnight is in the same month, the
      same year, or in a month of another number. */
  lemma DayBlock(t: int)
    ensures var first := DateTime(Year(t), Month(t), Day(t), 0, 0, 0);
      && first <= t
      && (forall x :: first <= x <= t ==> DayOf(x) == DayOf(t))
      && (Month(first - 1) == Month(t) ==> Year(first - 1) == Year(t))
  {
    var first := DateTime(Year(t), Month(t), Day(t), 0, 0, 0);
    DateTimeOfFields(t);
    assert first == DayOf(t) * DAY;
    if Day(t) == 1 {
      MonthBlock(t);
    } else {
      MonthBlock(t);
      assert DateTime(Year(t), Month(t), 1, 0, 0, 0) <= first - 1 <= t;
    }
  }

  lemma HourBlock(t: int)
    ensures var first := DateTime(Year(t), Month(t), Day(t), Hour(t), 0, 0);
      && first <= t
      && (forall x :: first <= x <= t ==> DayOf(x) == DayOf(t) && Hour(x) == Hour(t))
      && (Hour(first - 1) != 23 ==> DayOf(first - 1) == DayOf(t))
  {
    DateTimeOfFields(t);
  }

  lemma MinuteBlock(t: int)
    ensures var first := DateTime(Year(t), Month(t), Day(t), Hour(t), Minute(t), 0);
      && first <= t
      && (forall x :: first <= x <= t ==> SameHour(x, t) && Minute(x) == Minute(t))
      && (Minute(first - 1) != 59 ==> SameHour(first - 1, t))
  {
    var first := DateTime(Year(t), Month(t), Day(t), Hour(t), Minute(t), 0);
    DateTimeOfFields(t);
    SecondOfDay(t);
    forall x | first <= x <= t ensures SameHour(x, t) && Minute(x) == Minute(t) {
      InMinute(x, DayOf(t), Hour(t), Minute(t));
    }
    if Minute(t) > 0 {
      InMinute(first - 1, DayOf(t), Hour(t), Minute(t) - 1);
    } else {
      SecondOfDay(first - 1);
    }
  }

  lemma InMinute(t: int, n: int, h: int, mi: int)
    requires IsClock(h, mi, 0)
    requires 0 <= t - (n * DAY + h * 3600 + mi * 60) < 60
    ensures DayOf(t) == n && Hour(t) == h && Minute(t) == mi
  {
    assert DayOf(t) == n && t % DAY == t - n * DAY;
    ClockFields(n * 24 + h, mi, t - (n * DAY + h * 3600 + mi * 60));
  }

  predicate SameHour(x: int, t: int) { DayOf(x) == DayOf(t) && Hour(x) == Hour(t) }

  /** Going back one second keeps the minute unless the seconds wrap to 59. */
  lemma SecondBlock(t: int)
    ensures Second(t - 1) != 59 ==> SameHour(t - 1, t) && Minute(t - 1) == Minute(t)
  {
    SecondOfDay(t);
    SecondOfDay(t - 1);
  }

  /** Seconds at or after 1 January of year `y` are those whose year is at least `y`. */
  lemma YearReached(t: int, y: int)
    ensures YearStart(y) * DAY <= t <==> y <= Year(t)
  {
    var z := Year(t);
    if z < y { YearsGrow(z + 1, y); } else { YearsGrow(y, z); }
  }

  // ----- weekdays -----

  /** Two seconds fall on one weekday exactly when their days are whole weeks apart. */
  lemma WeekdaysRepeat(x: int, y: int)
    ensures Weekday(x) == Weekday(y) <==> (DayOf(x) - DayOf(y)) % 7 == 0
  {
  }

  lemma WeekdayAdvances(t: int)
    ensures Weekday(t + DAY) == if Weekday(t) == 6 then 0 else Weekday(t) + 1
  {
  }

  /** 8 January 2024 was a Monday. */
  lemma KnownMonday()
    ensures Weekday(DateTime(2024, 1, 8, 0, 0, 0)) == 1
  {
  }
}
