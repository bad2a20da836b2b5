/** Exclusion dates of a calendar event source (pkg/shared/util/recurrence.go). */
module ExclusionDates {
  import opened Strings
  import opened Wrappers
  import opened Calendar
  import opened TimeText

  const PREFIX := "EXDATE:"

  /** The pieces between commas; a text without commas, the empty text included, is one piece. */
  function Split(s: string): (parts: seq<string>)
    ensures parts != []
  {
    if s == "" then [""]
    else if s[0] == ',' then [""] + Split(s[1..])
    else var rest := Split(s[1..]); [[s[0]] + rest[0]] + rest[1..]
  }

  /** All instants of a list of texts, or a failure when any text is not one. */
  function Instants(texts: seq<string>): Result<seq<Instant>, string> {
    if texts == [] then Success([])
    else
      var first :- ParseCompact(texts[0]);
      var rest :- Instants(texts[1..]);
      Success([first] + rest)
  }

  /** The texts that the lines starting with the prefix hold, in order. */
  function ExcludedTexts(vals: seq<string>): seq<string> {
    if vals == [] then [] else OwnTexts(vals[0]) + ExcludedTexts(vals[1..])
  }

  function OwnTexts(val: string): seq<string> {
    if PREFIX <= val then Split(val[|PREFIX|..]) else []
  }

  method ParseDateTimes(s: string) returns (r: Result<seq<Instant>, string>)
    ensures r == Instants(Split(s))
  {
    hide ParseCompact;
    var res: seq<Instant> := [];
    var stringDates := Split(s);
    assert stringDates[..0] == [];
    for i := 0 to |stringDates|
      invariant Instants(stringDates[..i]) == Success(res)
    {
      var t := ParseCompact(stringDates[i]);
      InstantsSnoc(stringDates[..i], stringDates[i]);
      assert stringDates[..i + 1] == stringDates[..i] + [stringDates[i]];
      if t.Failure? {
        InstantsAppend(stringDates[..i + 1], stringDates[i + 1..]);
        assert stringDates[..i + 1] + stringDates[i + 1..] == stringDates;
        return Failure(t.error);
      }
      res := res + [t.value];
    }
    assert stringDates[..|stringDates|] == stringDates;
    return Success(res);
  }

  method ParseExclusionDates(vals: seq<string>) returns (r: Result<seq<Instant>, string>)
    ensures r == Instants(ExcludedTexts(vals))
  {
    var exclusionDates: seq<Instant> := [];
    assert vals[..0] == [];
    for i := 0 to |vals|
      invariant Instants(ExcludedTexts(vals[..i])) == Success(exclusionDates)
    {
      ExcludedSplit(vals, i);
      if PREFIX <= vals[i] {
        var texts := Split(vals[i][|PREFIX|..]);
        var dates := ParseDateTimes(vals[i][|PREFIX|..]);
        InstantsAppend(ExcludedTexts(vals[..i]), texts);
        if dates.Failure? {
          InstantsAppend(ExcludedTexts(vals[..i]), texts + ExcludedTexts(vals[i + 1..]));
          InstantsAppend(texts, ExcludedTexts(vals[i + 1..]));
          return dates;
        }
        exclusionDates := exclusionDates + dates.value;
      } else {
        assert ExcludedTexts(vals[..i]) + [] == ExcludedTexts(vals[..i]);
      }
    }
    assert vals[..|vals|] == vals;
    return Success(exclusionDates);
  }

  lemma ExcludedAppend(a: seq<string>, b: seq<string>)
    ensures ExcludedTexts(a + b) == ExcludedTexts(a) + ExcludedTexts(b)
  {
    if a == [] {
      assert a + b == b;
    } else {
      assert (a + b)[1..] == a[1..] + b;
      ExcludedAppend(a[1..], b);
    }
  }

  lemma {:induction false} ExcludedSplit(vals: seq<string>, i: nat)
    requires i < |vals|
    ensures ExcludedTexts(vals[..i + 1]) == ExcludedTexts(vals[..i]) + OwnTexts(vals[i])
    ensures ExcludedTexts(vals) == ExcludedTexts(vals[..i]) + (OwnTexts(vals[i]) + ExcludedTexts(vals[i + 1..]))
  {
    hide OwnTexts, ExcludedTexts;
    var x, before, after := vals[i], vals[..i], vals[i + 1..];
    assert vals[..i + 1] == before + [x] && vals == before + ([x] + after);
    ExcludedAround(before, x, after);
  }

  lemma {:induction false} ExcludedAround(before: seq<string>, x: string, after: seq<string>)
    ensures ExcludedTexts(before + [x]) == ExcludedTexts(before) + OwnTexts(x)
    ensures ExcludedTexts(before + ([x] + after)) == ExcludedTexts(before) + (OwnTexts(x) + ExcludedTexts(after))
  {
    hide OwnTexts, ExcludedTexts;
    ExcludedAppend(before, [x]);
    ExcludedAppend(before, [x] + after);
    ExcludedAppend([x], after);
    ExcludedOne(x);
  }

  lemma ExcludedOne(text: string)
    ensures ExcludedTexts([text]) == OwnTexts(text)
  {
    hide OwnTexts;
    assert [text][1..] == [];
  }

  /** One reading after another: the first failure counts. */
  function Both(a: Result<seq<Instant>, string>, b: Result<seq<Instant>, string>): Result<seq<Instant>, string> {
    if a.Failure? then a else if b.Failure? then b else Success(a.value + b.value)
  }

  lemma {:induction false} InstantsAppend(a: seq<string>, b: seq<string>)
    ensures Instants(a + b) == Both(Instants(a), Instants(b))
  {
    hide ParseCompact;
    if a == [] {
      assert a + b == b;
      assert forall x: seq<Instant> :: [] + x == x;
    } else {
      assert (a + b)[1..] == a[1..] + b;
      InstantsAppend(a[1..], b);
      if ParseCompact(a[0]).Success? && Instants(a[1..]).Success? && Instants(b).Success? {
        Regroup(ParseCompact(a[0]).value, Instants(a[1..]).value, Instants(b).value);
      }
    }
  }

  lemma Regroup(x: Instant, a: seq<Instant>, b: seq<Instant>)
    ensures [x] + (a + b) == ([x] + a) + b
  {
  }

  lemma InstantsSnoc(a: seq<string>, x: string)
    ensures Instants(a + [x]) == Both(Instants(a), Instants([x]))
    ensures ParseCompact(x).Success? ==> Instants([x]) == Success([ParseCompact(x).value])
    ensures ParseCompact(x).Failure? ==> Instants([x]) == Failure(ParseCompact(x).error)
  {
    hide ParseCompact;
    InstantsAppend(a, [x]);
    assert [x][1..] == [];
    assert forall t: Instant :: [t] + [] == [t];
  }

  /** The text at `i` is the first that cannot be read. */
  predicate FirstUnreadable(texts: seq<string>, i: nat)
    requires i < |texts|
  {
    ParseCompact(texts[i]).Failure? && forall j :: 0 <= j < i ==> ParseCompact(texts[j]).Success?
  }

  /** A list is read exactly when each of its texts is; otherwise the first unreadable text gives the error. */
  lemma {:induction false} InstantsAll(texts: seq<string>)
    ensures Instants(texts).Success? <==> forall x :: x in texts ==> ParseCompact(x).Success?
    ensures forall i :: 0 <= i < |texts| && FirstUnreadable(texts, i) ==>
      Instants(texts) == Failure(ParseCompact(texts[i]).error)
  {
    if texts != [] {
      var rest := texts[1..];
      InstantsAll(rest);
      assert forall x :: x in texts <==> x == texts[0] || x in rest;
      hide ParseCompact;
      forall i | 0 <= i < |texts| && FirstUnreadable(texts, i)
        ensures Instants(texts) == Failure(ParseCompact(texts[i]).error)
      {
        if i > 0 { assert FirstUnreadable(rest, i - 1); }
      }
    }
  }

  // ----- what callers write -----

  /** A line of a calendar spec: a non-empty group of UTC seconds, or something else. */
  datatype Line = Group(times: seq<int>) | Other(text: string)

  ghost predicate ValidLine(l: Line) {
    match l
    case Group(times) => times != [] && forall t :: t in times ==> 0 <= Year(t) <= 9999
    case Other(text) => !(PREFIX <= text)
  }

  function Texts(times: seq<int>): seq<string>
    requires forall t :: t in times ==> 0 <= Year(t) <= 9999
  {
    if times == [] then [] else [CompactText(times[0])] + Texts(times[1..])
  }

  function LineText(l: Line): string
    requires ValidLine(l)
  {
    match l
    case Group(times) => PREFIX + Join(Texts(times), ",")
    case Other(text) => text
  }

  function LineTexts(lines: seq<Line>): seq<string>
    requires forall l :: l in lines ==> ValidLine(l)
  {
    if lines == [] then [] else [LineText(lines[0])] + LineTexts(lines[1..])
  }

  function AsInstants(times: seq<int>): seq<Instant> {
    if times == [] then [] else [Instant(times[0], 0)] + AsInstants(times[1..])
  }

  /** The instants the lines exclude, in the order they are written. */
  function Excluded(lines: seq<Line>): seq<Instant> {
    if lines == [] then []
    else (if lines[0].Group? then AsInstants(lines[0].times) else []) + Excluded(lines[1..])
  }

  lemma SplitStep(x: string, rest: string)
    requires ',' !in x
    ensures Split(x + "," + rest) == [x] + Split(rest)
    ensures Split(x) == [x]
  {
    if x == "" {
      assert ("" + "," + rest)[1..] == rest;
    } else {
      SplitStep(x[1..], rest);
      assert (x + "," + rest)[1..] == x[1..] + "," + rest;
      assert x == [x[0]] + x[1..];
    }
  }

  lemma SplitJoin(parts: seq<string>)
    requires parts != [] && forall x :: x in parts ==> ',' !in x
    ensures Split(Join(parts, ",")) == parts
  {
    assert parts[0] in parts;
    if |parts| == 1 {
      SplitStep(parts[0], "");
    } else {
      assert forall x :: x in parts[1..] ==> x in parts;
      SplitJoin(parts[1..]);
      SplitStep(parts[0], Join(parts[1..], ","));
    }
  }

  lemma CompactHasNoComma(t: int)
    requires 0 <= Year(t) <= 9999
    ensures ',' !in CompactText(t)
  {
    hide Year, Month, Day, Hour, Minute, Second;
    FieldRanges(t);
  }

  lemma {:induction false} TextsHaveNoComma(times: seq<int>)
    requires forall t :: t in times ==> 0 <= Year(t) <= 9999
    ensures |Texts(times)| == |times| && forall x :: x in Texts(times) ==> ',' !in x
  {
    hide Year, CompactText;
    if times != [] {
      assert times[0] in times && forall t :: t in times[1..] ==> t in times;
      TextsHaveNoComma(times[1..]);
      CompactHasNoComma(times[0]);
    }
  }

  lemma {:induction false} TextsReadBack(times: seq<int>)
    requires forall t :: t in times ==> 0 <= Year(t) <= 9999
    ensures Instants(Texts(times)) == Success(AsInstants(times))
  {
    hide Year, CompactText, ParseCompact;
    if times != [] {
      assert times[0] in times && forall t :: t in times[1..] ==> t in times;
      TextsReadBack(times[1..]);
      CompactRoundTrip(times[0]);
      assert Texts(times)[1..] == Texts(times[1..]);
    }
  }

  /** UTC date-times printed in groups behind the prefix, among any other lines, come back as exactly
      those instants in order. */
  lemma {:induction false} PrintedDatesComeBack(lines: seq<Line>)
    requires forall l :: l in lines ==> ValidLine(l)
    ensures Instants(ExcludedTexts(LineTexts(lines))) == Success(Excluded(lines))
  {
    if lines != [] {
      hide LineText, OwnTexts, AsInstants, ValidLine;
      assert lines[0] in lines && forall l :: l in lines[1..] ==> l in lines;
      PrintedDatesComeBack(lines[1..]);
      PrintedLine(lines[0]);
      InstantsAppend(OwnTexts(LineText(lines[0])), ExcludedTexts(LineTexts(lines[1..])));
    }
  }

  lemma PrintedLine(l: Line)
    requires ValidLine(l)
    ensures Instants(OwnTexts(LineText(l))) == Success(if l.Group? then AsInstants(l.times) else [])
  {
    hide Year, ParseCompact, CompactText;
    if l.Group? {
      TextsHaveNoComma(l.times);
      TextsReadBack(l.times);
      SplitJoin(Texts(l.times));
      assert (PREFIX + Join(Texts(l.times), ","))[|PREFIX|..] == Join(Texts(l.times), ",");
    }
  }

  lemma ExcludedMember(vals: seq<string>, i: nat, x: string)
    requires i < |vals| && PREFIX <= vals[i] && x in Split(vals[i][|PREFIX|..])
    ensures x in ExcludedTexts(vals)
  {
    if i > 0 { ExcludedMember(vals[1..], i - 1, x); }
  }

  /** One text with a date no calendar has, in any group, makes the whole parse fail. */
  lemma ImpossibleDateFails(vals: seq<string>, i: nat, y: int, m: int, d: int, clock: string)
    requires 0 <= y <= 9999 && 0 <= m <= 99 && 0 <= d <= 99 && !IsDate(y, m, d)
    requires i < |vals| && PREFIX <= vals[i]
    requires Four(y) + Two(m) + Two(d) + clock in Split(vals[i][|PREFIX|..])
    ensures Instants(ExcludedTexts(vals)).Failure?
  {
    var x := Four(y) + Two(m) + Two(d) + clock;
    ImpossibleDate(y, m, d, clock);
    ExcludedMember(vals, i, x);
    InstantsAll(ExcludedTexts(vals));
  }
}
