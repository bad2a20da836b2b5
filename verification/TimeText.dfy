/** The two date layouts the repository parses, read as Go's time package reads them: one- or two-digit
    hours where the layout says `15`, an optional fraction of any length after the seconds, and the day
    of the month checked against the month and year at the end. */
module TimeText {
  import opened Wrappers
  import opened Calendar

  const BILLION := 1000000000

  /** An instant: whole seconds since 1970-01-01T00:00:00Z and nanoseconds. */
  datatype Instant = Instant(unix: int, nanos: int)

  datatype Clock = Clock(second: int, nanos: int)

  predicate IsDigit(c: char) { '0' <= c <= '9' }

  function Value(c: char): int
    requires IsDigit(c)
  {
    c as int - '0' as int
  }

  function Digit(n: int): (c: char)
    requires 0 <= n <= 9
    ensures IsDigit(c) && Value(c) == n
  {
    ("0123456789")[n]
  }

  // ----- reading -----

  /** A number of two digits, or of one when `fixed` does not forbid it, and the text after it. */
  function GetNum(s: string, fixed: bool): Result<(int, string), string> {
    if s == "" || !IsDigit(s[0]) then Failure("digit expected")
    else if |s| < 2 || !IsDigit(s[1]) then
      if fixed then Failure("two digits expected") else Success((Value(s[0]), s[1..]))
    else Success((10 * Value(s[0]) + Value(s[1]), s[2..]))
  }

  function GetYear(s: string): Result<(int, string), string> {
    if |s| < 4 || !IsDigit(s[0]) || !IsDigit(s[1]) || !IsDigit(s[2]) || !IsDigit(s[3]) then
      Failure("four digits expected")
    else Success((1000 * Value(s[0]) + 100 * Value(s[1]) + 10 * Value(s[2]) + Value(s[3]), s[4..]))
  }

  function Skip(s: string, c: char): Result<string, string> {
    if s == "" || s[0] != c then Failure("separator expected") else Success(s[1..])
  }

  /** A blank of the layout stands for any number of blanks, and for none at the end of the text. */
  function SkipBlanks(s: string): Result<string, string> {
    if s != "" && s[0] != ' ' then Failure("blank expected") else Success(CutBlanks(s))
  }

  function CutBlanks(s: string): string {
    if s != "" && s[0] == ' ' then CutBlanks(s[1..]) else s
  }

  function Within(n: (int, string), lo: int, hi: int): Result<(int, string), string> {
    if lo <= n.0 <= hi then Success(n) else Failure("out of range")
  }

  /** Nanoseconds written by the digits after a decimal point; digits beyond the ninth are dropped. */
  function Fraction(s: string, unit: nat): (r: (int, string))
    ensures 0 <= r.0 && (if unit == 0 then r.0 == 0 else r.0 < 10 * unit)
  {
    if s == "" || !IsDigit(s[0]) then (0, s)
    else
      var r := Fraction(s[1..], unit / 10);
      DigitTimes(Value(s[0]), unit);
      (Value(s[0]) * unit + r.0, r.1)
  }

  lemma DigitTimes(d: int, unit: nat)
    requires 0 <= d <= 9
    ensures 0 <= d * unit <= 9 * unit
  {
  }

  function GetFraction(s: string): (int, string) {
    if |s| >= 2 && (s[0] == '.' || s[0] == ',') && IsDigit(s[1]) then Fraction(s[1..], BILLION / 10)
    else (0, s)
  }

  /** Hours, minutes, seconds and an optional fraction, with or without colons between them. */
  function GetClock(s: string, colons: bool): (r: Result<(Clock, string), string>)
    ensures r.Success? ==> 0 <= r.value.0.second < DAY && 0 <= r.value.0.nanos < BILLION
  {
    var h0 :- GetNum(s, false);
    var h :- Within(h0, 0, 23);
    var s1 :- if colons then Skip(h.1, ':') else Success(h.1);
    var m0 :- GetNum(s1, true);
    var m :- Within(m0, 0, 59);
    var s2 :- if colons then Skip(m.1, ':') else Success(m.1);
    var c0 :- GetNum(s2, true);
    var c :- Within(c0, 0, 59);
    var f := GetFraction(c.1);
    Success((Clock(h.0 * 3600 + m.0 * 60 + c.0, f.0), f.1))
  }

  function GetMonthDay(y: int, s: string, dashes: bool): Result<((int, int, int), string), string> {
    var s1 :- if dashes then Skip(s, '-') else Success(s);
    var m0 :- GetNum(s1, true);
    var m :- Within(m0, 1, 12);
    var s2 :- if dashes then Skip(m.1, '-') else Success(m.1);
    var d :- GetNum(s2, true);
    Success(((y, m.0, d.0), d.1))
  }

  /** Layout 20060102T150405Z. */
  function ParseCompact(s: string): Result<Instant, string> {
    var y :- GetYear(s);
    var d :- GetMonthDay(y.0, y.1, false);
    var t :- Skip(d.1, 'T');
    var c :- GetClock(t, false);
    var z :- Skip(c.1, 'Z');
    if z != "" then Failure("extra text")
    else if !IsDate(d.0.0, d.0.1, d.0.2) then Failure("day out of range")
    else Success(Instant(DateTime(d.0.0, d.0.1, d.0.2, 0, 0, 0) + c.0.second, c.0.nanos))
  }

  /** Layout 2006-01-02 15:04:05, in a zone `offset` seconds ahead of UTC. */
  function ParseDateTime(s: string, offset: int): Result<Instant, string> {
    var y :- GetYear(s);
    var d :- GetMonthDay(y.0, y.1, true);
    var t :- SkipBlanks(d.1);
    var c :- GetClock(t, true);
    if c.1 != "" then Failure("extra text")
    else if !IsDate(d.0.0, d.0.1, d.0.2) then Failure("day out of range")
    else Success(Instant(DateTime(d.0.0, d.0.1, d.0.2, 0, 0, 0) + c.0.second - offset, c.0.nanos))
  }

  /** A clock time on its own, as a user writes it. */
  function ParseClock(s: string): Result<Clock, string> {
    var c :- GetClock(CutBlanks(s), true);
    if c.1 != "" then Failure("extra text") else Success(c.0)
  }

  // ----- printing -----

  function Two(n: int): (s: string)
    requires 0 <= n <= 99
    ensures |s| == 2 && IsDigit(s[0]) && IsDigit(s[1]) && 10 * Value(s[0]) + Value(s[1]) == n
  {
    [Digit(n / 10), Digit(n % 10)]
  }

  function Decimal(n: int): (s: string)
    requires n >= 0
    ensures s != "" && forall i :: 0 <= i < |s| ==> IsDigit(s[i])
    ensures n >= 10000 ==> |s| >= 5
    ensures n >= 1000 ==> |s| >= 4
    ensures n >= 100 ==> |s| >= 3
    ensures n >= 10 ==> |s| >= 2
  {
    if n < 10 then [Digit(n)] else Decimal(n / 10) + [Digit(n % 10)]
  }

  /** A year with at least four digits and its sign. */
  function YearText(y: int): string {
    if y < 0 then "-" + (if y > -10000 then Four(-y) else Decimal(-y))
    else if y <= 9999 then Four(y)
    else Decimal(y)
  }

  function Four(n: int): (s: string)
    requires 0 <= n <= 9999
    ensures |s| == 4 && forall i :: 0 <= i < 4 ==> IsDigit(s[i])
    ensures 1000 * Value(s[0]) + 100 * Value(s[1]) + 10 * Value(s[2]) + Value(s[3]) == n
  {
    Two(n / 100) + Two(n % 100)
  }

  /** The date of a local second, in layout 2006-01-02. */
  function DateText(t: int): string {
    FieldRanges(t);
    YearText(Year(t)) + "-" + Two(Month(t)) + "-" + Two(Day(t))
  }

  /** An instant in layout 20060102T150405Z, for years of four digits. */
  function CompactText(t: int): string
    requires 0 <= Year(t) <= 9999
  {
    FieldRanges(t);
    Four(Year(t)) + Two(Month(t)) + Two(Day(t)) + "T" + Two(Hour(t)) + Two(Minute(t)) + Two(Second(t)) + "Z"
  }

  // ----- reading back what was printed -----

  lemma GetTwo(n: int, rest: string, fixed: bool)
    requires 0 <= n <= 99
    ensures GetNum(Two(n) + rest, fixed) == Success((n, rest))
  {
    assert (Two(n) + rest)[2..] == rest;
  }

  lemma GetFour(n: int, rest: string)
    requires 0 <= n <= 9999
    ensures GetYear(Four(n) + rest) == Success((n, rest))
  {
    assert (Four(n) + rest)[4..] == rest;
  }

  /** A printed second is parsed as itself. */
  lemma CompactRoundTrip(t: int)
    requires 0 <= Year(t) <= 9999
    ensures ParseCompact(CompactText(t)) == Success(Instant(t, 0))
  {
    hide Year, Month, Day, Hour, Minute, Second, DateTime, IsDate, Two, Four, GetNum, GetYear;
    FieldRanges(t);
    DateTimeOfFields(t);
    var z := "Z";
    var s3 := Two(Second(t)) + z;
    var s2 := Two(Minute(t)) + s3;
    var s1 := Two(Hour(t)) + s2;
    var d2 := "T" + s1;
    var d1 := Two(Day(t)) + d2;
    var d0 := Two(Month(t)) + d1;
    assert CompactText(t) == Four(Year(t)) + d0;
    GetFour(Year(t), d0);
    GetTwo(Month(t), d1, true);
    GetTwo(Day(t), d2, true);
    assert Skip(d2, 'T') == Success(s1) by { assert d2[1..] == s1; }
    GetTwo(Hour(t), s2, false);
    GetTwo(Minute(t), s3, true);
    GetTwo(Second(t), z, true);
    assert GetFraction(z) == (0, z) && z[1..] == "";
    MidnightPlus(t);
  }

  lemma MidnightPlus(t: int)
    ensures DateTime(Year(t), Month(t), Day(t), 0, 0, 0) + (Hour(t) * 3600 + Minute(t) * 60 + Second(t)) == t
    ensures DateTime(Year(t), Month(t), Day(t), 0, 0, 0) == DayOf(t) * DAY
  {
    hide Year, Month, Hour, Minute, Second, YearStart;
    DateTimeOfFields(t);
    SecondOfDay(t);
  }

  /** A date that no calendar has is refused whatever the clock says. */
  lemma ImpossibleDate(y: int, m: int, d: int, rest: string)
    requires 0 <= y <= 9999 && 0 <= m <= 99 && 0 <= d <= 99 && !IsDate(y, m, d)
    ensures ParseCompact(Four(y) + Two(m) + Two(d) + rest).Failure?
  {
    hide Two, Four, GetNum, GetYear;
    assert Four(y) + Two(m) + Two(d) + rest == Four(y) + (Two(m) + (Two(d) + rest));
    GetFour(y, Two(m) + (Two(d) + rest));
    GetTwo(m, Two(d) + rest, true);
    GetTwo(d, rest, true);
  }

  /** A clock time as users write it. */
  function ClockText(h: int, mi: int, s: int): string
    requires IsClock(h, mi, s)
  {
    Two(h) + ":" + Two(mi) + ":" + Two(s)
  }

  /** After the hour, `:mm:ss` and a fraction. */
  lemma ClockTail(hour: string, h: int, mi: int, s: int, tail: string)
    requires IsClock(h, mi, s) && hour != "" && IsDigit(hour[0])
    requires GetNum(hour + (":" + Two(mi) + ":" + Two(s) + tail), false) == Success((h, ":" + Two(mi) + ":" + Two(s) + tail))
    requires tail == "" || !IsDigit(tail[0])
    ensures GetClock(hour + (":" + Two(mi) + ":" + Two(s) + tail), true)
      == Success((Clock(h * 3600 + mi * 60 + s, GetFraction(tail).0), GetFraction(tail).1))
  {
    hide GetNum, Two, GetFraction;
    var s0 := Two(s) + tail;
    var m0 := Two(mi) + (":" + s0);
    assert ":" + Two(mi) + ":" + Two(s) + tail == ":" + m0;
    assert (":" + m0)[1..] == m0 && (":" + s0)[1..] == s0;
    GetTwo(mi, ":" + s0, true);
    GetTwo(s, tail, true);
  }

  /** A printed clock time is read as itself. */
  lemma ClockRoundTrip(h: int, mi: int, s: int)
    requires IsClock(h, mi, s)
    ensures ParseClock(Two(h) + ":" + Two(mi) + ":" + Two(s)) == Success(Clock(h * 3600 + mi * 60 + s, 0))
  {
    var tail := ":" + Two(mi) + ":" + Two(s);
    assert Two(h) + ":" + Two(mi) + ":" + Two(s) == Two(h) + (tail + "");
    GetTwo(h, tail + "", false);
    ClockTail(Two(h), h, mi, s, "");
    hide GetClock, GetNum;
    assert GetFraction("") == (0, "");
  }

  /** An hour may be written with one digit. */
  lemma OneDigitHour(h: int, mi: int, s: int)
    requires IsClock(h, mi, s) && h <= 9
    ensures ParseClock([Digit(h)] + ":" + Two(mi) + ":" + Two(s)) == Success(Clock(h * 3600 + mi * 60 + s, 0))
  {
    var tail := ":" + Two(mi) + ":" + Two(s);
    var text := [Digit(h)] + (tail + "");
    assert [Digit(h)] + ":" + Two(mi) + ":" + Two(s) == text;
    assert text[1..] == tail + "" && text[1] == ':';
    ClockTail([Digit(h)], h, mi, s, "");
    hide GetClock, GetNum;
    assert GetFraction("") == (0, "");
  }

  // ----- fractions -----

  /** Nine digits. */
  function Nine(n: int): (s: string)
    requires 0 <= n < BILLION
    ensures |s| == 9
  {
    var q1 := n / 10;
    var q2 := q1 / 100;
    var q3 := q2 / 100;
    Two(q3 / 100) + (Two(q3 % 100) + (Two(q2 % 100) + (Two(q1 % 100) + [Digit(n % 10)])))
  }

  lemma FractionTwo(n: int, rest: string, unit: nat)
    requires 0 <= n <= 99
    ensures Fraction(Two(n) + rest, 10 * unit) == (n * unit + Fraction(rest, unit / 10).0, Fraction(rest, unit / 10).1)
  {
    var s := Two(n) + rest;
    var x, y := Value(s[0]), Value(s[1]);
    assert s[1..][0] == s[1] && s[1..][1..] == rest;
    assert n * unit == x * (10 * unit) + y * unit by { TwoPlaces(n, x, y, unit); }
    hide Two;
  }

  lemma TwoPlaces(n: int, x: int, y: int, unit: int)
    requires n == 10 * x + y
    ensures n * unit == x * (10 * unit) + y * unit
  {
  }

  lemma OneDigit(d: int)
    requires 0 <= d <= 9
    ensures Fraction([Digit(d)], 1) == (d, "")
  {
    assert [Digit(d)][1..] == "" && Fraction("", 0) == (0, "");
  }

  /** Nanoseconds printed with nine digits are read as themselves. */
  lemma NineRoundTrip(n: int)
    requires 0 <= n < BILLION
    ensures Fraction(Nine(n), BILLION / 10) == (n, "")
  {
    hide Fraction, Two, Digit;
    var q1 := n / 10;
    var q2 := q1 / 100;
    var q3 := q2 / 100;
    FractionNine(q3 / 100, q3 % 100, q2 % 100, q1 % 100, n % 10);
  }

  lemma FractionFive(c: int, d: int, e: int)
    requires 0 <= c <= 99 && 0 <= d <= 99 && 0 <= e <= 9
    ensures Fraction(Two(c) + (Two(d) + [Digit(e)]), 10000) == (c * 1000 + d * 10 + e, "")
  {
    hide Fraction, Two, Digit;
    OneDigit(e);
    FractionTwo(d, [Digit(e)], 10);
    FractionTwo(c, Two(d) + [Digit(e)], 1000);
  }

  lemma FractionNine(a: int, b: int, c: int, d: int, e: int)
    requires 0 <= a <= 99 && 0 <= b <= 99 && 0 <= c <= 99 && 0 <= d <= 99 && 0 <= e <= 9
    ensures Fraction(Two(a) + (Two(b) + (Two(c) + (Two(d) + [Digit(e)]))), BILLION / 10)
      == (a * 10000000 + b * 100000 + c * 1000 + d * 10 + e, "")
  {
    hide Fraction, Two, Digit;
    FractionFive(c, d, e);
    var rest := Two(c) + (Two(d) + [Digit(e)]);
    FractionTwo(b, rest, 100000);
    FractionTwo(a, Two(b) + rest, 10000000);
  }

  /** Zeros at the end of a fraction do not matter, so shorter fractions are read by place value too. */
  lemma {:induction false} TrailingZero(digits: string, unit: nat)
    requires forall i :: 0 <= i < |digits| ==> IsDigit(digits[i])
    ensures Fraction(digits + "0", unit) == Fraction(digits, unit)
  {
    if digits == "" {
      assert ("" + "0")[1..] == "";
      assert Fraction("", unit / 10) == (0, "");
    } else {
      TrailingZero(digits[1..], unit / 10);
      assert (digits + "0")[1..] == digits[1..] + "0";
    }
  }

  /** A fraction of nine digits after the seconds. */
  lemma ClockWithFraction(h: int, mi: int, s: int, n: int)
    requires IsClock(h, mi, s) && 0 <= n < BILLION
    ensures ParseClock(Two(h) + ":" + Two(mi) + ":" + Two(s) + "." + Nine(n)) == Success(Clock(h * 3600 + mi * 60 + s, n))
  {
    SeparatedFraction(h, mi, s, ".", n);
  }

  lemma SeparatedFraction(h: int, mi: int, s: int, point: string, n: int)
    requires IsClock(h, mi, s) && 0 <= n < BILLION && (point == "." || point == ",")
    ensures ParseClock(Two(h) + ":" + Two(mi) + ":" + Two(s) + point + Nine(n)) == Success(Clock(h * 3600 + mi * 60 + s, n))
  {
    var tail := point + Nine(n);
    var rest := ":" + Two(mi) + ":" + Two(s) + tail;
    assert Two(h) + ":" + Two(mi) + ":" + Two(s) + point + Nine(n) == Two(h) + rest;
    GetTwo(h, rest, false);
    ClockTail(Two(h), h, mi, s, tail);
    NineRoundTrip(n);
    assert tail[1..] == Nine(n) && IsDigit(Nine(n)[0]);
    hide GetClock, GetNum, Fraction, Nine;
  }

  /** A comma may stand for the decimal point. */
  lemma CommaForPoint(h: int, mi: int, s: int, n: int)
    requires IsClock(h, mi, s) && 0 <= n < BILLION
    ensures ParseClock(Two(h) + ":" + Two(mi) + ":" + Two(s) + "," + Nine(n)) == Success(Clock(h * 3600 + mi * 60 + s, n))
  {
    SeparatedFraction(h, mi, s, ",", n);
  }
}
