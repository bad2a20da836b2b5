/** The order of Go strings and what sorting by it guarantees: a sorted permutation, with no promise
    about the order of elements whose keys are equal (`sort.Slice`, `sort.Strings`). */
module Sorting {

  /** Strict lexicographic order by character. */
  predicate Less(a: string, b: string) {
    b != "" && (a == "" || a[0] < b[0] || (a[0] == b[0] && Less(a[1..], b[1..])))
  }

  lemma {:induction false} LessTotal(a: string, b: string)
    ensures a == b || Less(a, b) || Less(b, a)
    ensures !(Less(a, b) && Less(b, a)) && !Less(a, a)
  {
    if a != "" && b != "" {
      LessTotal(a[1..], b[1..]);
      assert a == [a[0]] + a[1..] && b == [b[0]] + b[1..];
    }
    if a != "" { LessTotal(a[1..], a[1..]); }
  }

  lemma {:induction false} LessTransitive(a: string, b: string, c: string)
    requires Less(a, b) && Less(b, c)
    ensures Less(a, c)
  {
    if a != "" && a[0] == b[0] && b[0] == c[0] { LessTransitive(a[1..], b[1..], c[1..]); }
  }

  ghost predicate SortedBy<T>(xs: seq<T>, key: T -> string) {
    forall i, j :: 0 <= i < j < |xs| ==> !Less(key(xs[j]), key(xs[i]))
  }

  /** `ys` is a possible result of sorting `xs`. */
  ghost predicate IsSortOf<T>(ys: seq<T>, xs: seq<T>, key: T -> string) {
    SortedBy(ys, key) && multiset(ys) == multiset(xs)
  }

  method Sort<T>(xs: seq<T>, key: T -> string) returns (ys: seq<T>)
    ensures IsSortOf(ys, xs, key)
  {
    hide SortedBy, Less;
    ys := [];
    assert SortedBy(ys, key) by { NothingToSort(key); }
    for i := 0 to |xs|
      invariant IsSortOf(ys, xs[..i], key)
    {
      var j := |ys|;
      while j > 0 && Less(key(xs[i]), key(ys[j - 1]))
        invariant 0 <= j <= |ys|
        invariant forall k :: j <= k < |ys| ==> Less(key(xs[i]), key(ys[k]))
      {
        j := j - 1;
      }
      InsertSorted(ys, j, xs[i], key);
      InsertBag(ys, j, xs[i]);
      ys := ys[..j] + [xs[i]] + ys[j..];
      assert xs[..i + 1] == xs[..i] + [xs[i]];
    }
    assert xs[..|xs|] == xs;
  }

  lemma InsertBag<T>(ys: seq<T>, j: nat, x: T)
    requires j <= |ys|
    ensures multiset(ys[..j] + [x] + ys[j..]) == multiset(ys + [x])
  {
    assert ys == ys[..j] + ys[j..];
  }

  lemma NothingToSort<T>(key: T -> string)
    ensures SortedBy([], key)
  {
  }

  lemma InsertSorted<T>(ys: seq<T>, j: nat, x: T, key: T -> string)
    requires SortedBy(ys, key) && j <= |ys|
    requires j > 0 ==> !Less(key(x), key(ys[j - 1]))
    requires forall k :: j <= k < |ys| ==> Less(key(x), key(ys[k]))
    ensures SortedBy(ys[..j] + [x] + ys[j..], key)
  {
    var zs := ys[..j] + [x] + ys[j..];
    forall a, b | 0 <= a < b < |zs| ensures !Less(key(zs[b]), key(zs[a])) {
      if b == j {
        if Less(key(x), key(ys[a])) {
          if a < j - 1 {
            LessTotal(key(ys[a]), key(ys[j - 1]));
            if key(ys[a]) != key(ys[j - 1]) { LessTransitive(key(x), key(ys[a]), key(ys[j - 1])); }
          }
        }
      } else if a == j {
        LessTotal(key(x), key(ys[b - 1]));
      }
    }
  }

  lemma FirstIsLeast<T>(xs: seq<T>, key: T -> string, y: T)
    requires SortedBy(xs, key) && y in xs
    ensures !Less(key(y), key(xs[0]))
  {
    var j :| 0 <= j < |xs| && xs[j] == y;
    LessTotal(key(y), key(y));
  }

  lemma SameElements<T>(xs: seq<T>, ys: seq<T>)
    requires multiset(xs) == multiset(ys)
    ensures |xs| == |ys| && forall x :: x in xs <==> x in ys
  {
    assert |xs| == |multiset(xs)| == |multiset(ys)| == |ys|;
    forall x ensures x in xs <==> x in ys { assert x in multiset(xs) <==> x in multiset(ys); }
  }

  /** When elements with equal keys are equal, all sorts of one multiset agree. */
  lemma {:induction false} SortIsUnique<T>(xs: seq<T>, ys: seq<T>, key: T -> string)
    requires SortedBy(xs, key) && SortedBy(ys, key) && multiset(xs) == multiset(ys)
    requires forall x, y :: x in xs && y in xs && key(x) == key(y) ==> x == y
    ensures xs == ys
    decreases |xs|, 1
  {
    SameElements(xs, ys);
    if xs != [] {
      FirstIsLeast(xs, key, ys[0]);
      FirstIsLeast(ys, key, xs[0]);
      LessTotal(key(xs[0]), key(ys[0]));
      assert xs == [xs[0]] + xs[1..] && ys == [ys[0]] + ys[1..];
      SortIsUniqueTail(xs, ys, key);
    }
  }

  lemma SortIsUniqueTail<T>(xs: seq<T>, ys: seq<T>, key: T -> string)
    requires xs != [] && ys != [] && xs[0] == ys[0]
    requires SortedBy(xs, key) && SortedBy(ys, key) && multiset(xs) == multiset(ys)
    requires forall x, y :: x in xs && y in xs && key(x) == key(y) ==> x == y
    ensures xs[1..] == ys[1..]
    decreases |xs|, 0
  {
    hide Less;
    FirstApart(xs);
    FirstApart(ys);
    Cancel(multiset{xs[0]}, multiset(xs[1..]), multiset(ys[1..]));
    SortIsUnique(xs[1..], ys[1..], key);
  }

  lemma FirstApart<T>(xs: seq<T>)
    requires xs != []
    ensures multiset(xs) == multiset{xs[0]} + multiset(xs[1..])
    ensures forall x :: x in xs[1..] ==> x in xs
  {
    assert xs == [xs[0]] + xs[1..];
  }

  lemma Cancel<T>(a: multiset<T>, b: multiset<T>, c: multiset<T>)
    requires a + b == a + c
    ensures b == c
  {
    forall x: T ensures b[x] == c[x] { assert (a + b)[x] == (a + c)[x]; }
  }
}
