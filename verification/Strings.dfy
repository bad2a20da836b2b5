/** `strings.ReplaceAll`, for a non-empty pattern, and `strings.Join` of the Go library. */
module Strings {

  function Join(parts: seq<string>, separator: string): string {
    if parts == [] then ""
    else if |parts| == 1 then parts[0] else parts[0] + separator + Join(parts[1..], separator)
  }

  function ReplaceAll(s: string, from: string, to: string): string
    requires from != ""
  {
    if |s| < |from| then s
    else if from <= s then to + ReplaceAll(s[|from|..], from, to)
    else [s[0]] + ReplaceAll(s[1..], from, to)
  }

  /** Text without the first character of the pattern is copied. */
  lemma {:induction false} ReplaceSkips(x: string, y: string, from: string, to: string)
    requires from != "" && from[0] !in x
    ensures ReplaceAll(x + y, from, to) == x + ReplaceAll(y, from, to)
  {
    if x == "" {
      assert x + y == y;
    } else {
      ReplaceSkips(x[1..], y, from, to);
      assert x[0] != from[0];
      ReplaceSkipsOne(x[0], x[1..] + y, from, to);
      assert x + y == [x[0]] + (x[1..] + y) && x == [x[0]] + x[1..];
      assert [x[0]] + (x[1..] + ReplaceAll(y, from, to)) == ([x[0]] + x[1..]) + ReplaceAll(y, from, to);
    }
  }

  lemma {:induction false} ReplaceSkipsOne(c: char, y: string, from: string, to: string)
    requires from != "" && from[0] != c
    ensures ReplaceAll([c] + y, from, to) == [c] + ReplaceAll(y, from, to)
  {
    var s := [c] + y;
    assert s[0] == c && s[1..] == y;
    if |s| >= |from| { assert !(from <= s); }
  }

  lemma ReplaceHits(y: string, from: string, to: string)
    requires from != ""
    ensures ReplaceAll(from + y, from, to) == to + ReplaceAll(y, from, to)
  {
    assert (from + y)[|from|..] == y;
    assert from <= from + y;
  }

  lemma ReplaceNothing(s: string, from: string, to: string)
    requires from != "" && from[0] !in s
    ensures ReplaceAll(s, from, to) == s
  {
    ReplaceSkips(s, "", from, to);
    assert s + "" == s;
  }

  lemma ReplaceCharStep(c: char, s: string, from: char, to: char)
    ensures ReplaceAll([c] + s, [from], [to]) == [if c == from then to else c] + ReplaceAll(s, [from], [to])
  {
    if c == from { ReplaceHits(s, [from], [to]); } else { ReplaceSkips([c], s, [from], [to]); }
  }

  /** Replacing one character by another works position by position. */
  lemma {:induction false} ReplaceCharAt(s: string, from: char, to: char)
    ensures |ReplaceAll(s, [from], [to])| == |s|
    ensures forall i :: 0 <= i < |s| ==> ReplaceAll(s, [from], [to])[i] == if s[i] == from then to else s[i]
  {
    if s != "" {
      assert s == [s[0]] + s[1..];
      ReplaceCharStep(s[0], s[1..], from, to);
      ReplaceCharAt(s[1..], from, to);
    }
  }
}
