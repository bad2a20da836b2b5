/** Removal of conflicting dotted keys before expansion (pkg/shared/expr/eval.go, removeConflicts). */
module ConflictingKeys {
  import opened Sorting

  /** `d` is a dotted descendant of `k`, at any depth. */
  predicate IsChild(d: string, k: string) { k + "." <= d }

  ghost predicate HasDescendant<V>(m: map<string, V>, k: string) {
    exists d :: d in m && IsChild(d, k)
  }

  /** The least key above `k` is a descendant of `k`. */
  ghost predicate NextIsChild<V>(m: map<string, V>, k: string) {
    exists d :: d in m && IsChild(d, k) && !Between(m, k, d)
  }

  ghost predicate Between<V>(m: map<string, V>, a: string, b: string) {
    exists x :: x in m && Less(a, x) && Less(x, b)
  }

  /** Another key continues `k` with a character that sorts before the dot. */
  ghost predicate Shielded<V>(m: map<string, V>, k: string) {
    exists x :: x in m && ContinuesBelowDot(x, k)
  }

  predicate ContinuesBelowDot(x: string, k: string) { |k| < |x| && k <= x && x[|k|] < '.' }

  /** What the removal leaves: the entries whose next key is no child, unchanged. */
  ghost predicate IsRemoval<V>(m: map<string, V>, n: map<string, V>) {
    && n.Keys <= m.Keys && (forall k :: k in n ==> n[k] == m[k])
    && forall k :: k in m ==> (k in n <==> !NextIsChild(m, k))
  }

  /** The entries without a dotted descendant, at any depth. */
  ghost function Leaves<V>(m: map<string, V>): map<string, V> { map k | k in m && !HasDescendant(m, k) :: m[k] }

  method RemoveConflicts<V>(m: map<string, V>) returns (n: map<string, V>)
    ensures IsRemoval(m, n)
  {
    var keys: seq<string> := [];
    n := map[];
    var rest := m.Keys;
    while rest != {}
      invariant rest <= m.Keys && n.Keys == m.Keys - rest
      invariant forall k :: k in n ==> n[k] == m[k]
      invariant forall k :: k in keys <==> k in n
      invariant forall i, j :: 0 <= i < j < |keys| ==> keys[i] != keys[j]
    {
      var k :| k in rest;
      keys := keys + [k];
      n := n[k := m[k]];
      rest := rest - {k};
    }
    keys := SortKeys(keys);
    assert forall k :: k in m ==> k in keys;
    if keys == [] { return; }
    for i := 0 to |keys| - 1
      invariant n.Keys <= m.Keys && forall k :: k in n ==> n[k] == m[k]
      invariant forall j :: 0 <= j < |keys| ==> (keys[j] in n <==> !Removed(keys, i, j))
    {
      ghost var before := n;
      if IsChild(keys[i + 1], keys[i]) { n := n - {keys[i]}; }
      forall j | 0 <= j < |keys| ensures keys[j] in n <==> !Removed(keys, i + 1, j) {
        assert keys[j] in before <==> !Removed(keys, i, j);
        assert j != i ==> keys[j] != keys[i];
      }
    }
    forall k | k in m ensures k in n <==> !NextIsChild(m, k) {
      var j :| 0 <= j < |keys| && keys[j] == k;
      NextInSorted(m, keys, j);
    }
  }

  /** The first `i` adjacent tests remove the key at `j`. */
  predicate Removed(keys: seq<string>, i: nat, j: nat)
    requires j < |keys| && i < |keys|
  {
    j < i && IsChild(keys[j + 1], keys[j])
  }

  method SortKeys(xs: seq<string>) returns (ys: seq<string>)
    requires forall i, j :: 0 <= i < j < |xs| ==> xs[i] != xs[j]
    ensures forall k :: k in ys <==> k in xs
    ensures forall i, j :: 0 <= i < j < |ys| ==> Less(ys[i], ys[j]) && ys[i] != ys[j]
  {
    ys := Sort(xs, (k: string) => k);
    SameElements(xs, ys);
    forall i, j | 0 <= i < j < |ys| ensures Less(ys[i], ys[j]) && ys[i] != ys[j] {
      LessTotal(ys[i], ys[j]);
      assert ys[i] != ys[j] by { OnceEach(xs, ys, i, j); }
    }
  }

  lemma OnceEach<T>(xs: seq<T>, ys: seq<T>, i: nat, j: nat)
    requires multiset(xs) == multiset(ys) && i < j < |ys|
    requires forall a, b :: 0 <= a < b < |xs| ==> xs[a] != xs[b]
    ensures ys[i] != ys[j]
  {
    if ys[i] == ys[j] {
      var x := ys[i];
      assert ys == ys[..i] + [x] + ys[i + 1..j] + [x] + ys[j + 1..];
      assert multiset(ys)[x] >= 2;
      AtMostOnce(xs, x);
    }
  }

  lemma AtMostOnce<T>(xs: seq<T>, x: T)
    requires forall a, b :: 0 <= a < b < |xs| ==> xs[a] != xs[b]
    ensures multiset(xs)[x] <= 1
  {
    if xs != [] {
      AtMostOnce(xs[1..], x);
      assert xs == [xs[0]] + xs[1..];
      if xs[0] == x { assert x !in xs[1..]; assert x !in multiset(xs[1..]); }
    }
  }

  /** In the sorted list of all keys, the neighbour above a key decides whether a descendant follows it. */
  lemma NextInSorted<V>(m: map<string, V>, keys: seq<string>, j: nat)
    requires j < |keys| && (forall k :: k in keys <==> k in m)
    requires forall a, b :: 0 <= a < b < |keys| ==> Less(keys[a], keys[b])
    ensures NextIsChild(m, keys[j]) <==> j < |keys| - 1 && IsChild(keys[j + 1], keys[j])
  {
    var k := keys[j];
    if j < |keys| - 1 && IsChild(keys[j + 1], k) {
      if Between(m, k, keys[j + 1]) {
        var x :| x in m && Less(k, x) && Less(x, keys[j + 1]);
        var i :| 0 <= i < |keys| && keys[i] == x;
        LessTotal(k, x);
        LessTotal(x, keys[j + 1]);
      }
      assert keys[j + 1] in m;
    }
    if NextIsChild(m, k) {
      var d :| d in m && IsChild(d, k) && !Between(m, k, d);
      var i :| 0 <= i < |keys| && keys[i] == d;
      ChildIsAbove(d, k);
      LessTotal(k, d);
      assert j < i;
      if i > j + 1 { assert keys[j + 1] in m; }
    }
  }

  lemma ChildIsAbove(d: string, k: string)
    requires IsChild(d, k)
    ensures Less(k, d)
  {
    if k != "" { ChildIsAbove(d[1..], k[1..]); }
  }

  /** What sorts between a key and its descendant continues the key, by a dot or by something below it. */
  lemma {:induction false} BetweenContinues(k: string, x: string, d: string)
    requires IsChild(d, k) && Less(k, x) && Less(x, d)
    ensures IsChild(x, k) || ContinuesBelowDot(x, k)
  {
    if k != "" {
      assert x != "" && x[0] == k[0];
      BetweenContinues(k[1..], x[1..], d[1..]);
      assert k == [k[0]] + k[1..] && x == [x[0]] + x[1..];
      if IsChild(x[1..], k[1..]) { assert k + "." == [k[0]] + (k[1..] + "."); }
    } else {
      assert d[0] == '.';
    }
  }

  lemma {:induction false} BelowDotIsBetween(k: string, x: string, d: string)
    requires IsChild(d, k) && ContinuesBelowDot(x, k)
    ensures Less(k, x) && Less(x, d)
  {
    if k != "" { BelowDotIsBetween(k[1..], x[1..], d[1..]); }
  }

  /** The adjacent test finds a parent exactly when no other key shields it. */
  lemma NextIsChildExactly<V>(m: map<string, V>, k: string)
    ensures NextIsChild(m, k) <==> HasDescendant(m, k) && !Shielded(m, k)
  {
    if NextIsChild(m, k) {
      var d :| d in m && IsChild(d, k) && !Between(m, k, d);
      if Shielded(m, k) {
        var x :| x in m && ContinuesBelowDot(x, k);
        BelowDotIsBetween(k, x, d);
      }
    }
    if HasDescendant(m, k) && !Shielded(m, k) {
      var d := LeastDescendant(m, m.Keys, k);
      if Between(m, k, d) {
        var x :| x in m && Less(k, x) && Less(x, d);
        BetweenContinues(k, x, d);
        LessTotal(x, d);
      }
    }
  }

  lemma LeastDescendant<V>(m: map<string, V>, among: set<string>, k: string) returns (d: string)
    requires among <= m.Keys && exists d :: d in among && IsChild(d, k)
    ensures d in among && IsChild(d, k)
    ensures forall e :: e in among && IsChild(e, k) ==> !Less(e, d)
    decreases among
  {
    var c :| c in among && IsChild(c, k);
    LessTotal(c, c);
    if e :| e in among - {c} && IsChild(e, k) {
      d := LeastDescendant(m, among - {c}, k);
      LessTotal(c, d);
      if Less(c, d) {
        forall e | e in among && IsChild(e, k) ensures !Less(e, c) {
          if e != c && Less(e, c) { LessTransitive(e, c, d); }
        }
        d := c;
      }
    } else {
      d := c;
    }
  }

  /** What survives is the entries without a descendant, exactly when no key that has a descendant is
      shielded from it. */
  lemma RemovalExactly<V>(m: map<string, V>, n: map<string, V>)
    requires IsRemoval(m, n)
    ensures n == Leaves(m) <==> forall k :: k in m && Shielded(m, k) ==> !HasDescendant(m, k)
  {
    hide NextIsChild, HasDescendant, Shielded;
    forall k | k in m ensures k in n <==> !HasDescendant(m, k) || Shielded(m, k) {
      NextIsChildExactly(m, k);
    }
    if n == Leaves(m) {
      forall k | k in m && Shielded(m, k) ensures !HasDescendant(m, k) { assert k in n <==> k in Leaves(m); }
    }
    assert (forall k :: k in n <==> k in Leaves(m)) ==> n == Leaves(m);
  }

  /** Keys made of characters that do not sort before the dot are never shielded. */
  lemma PlainKeysAreSafe<V>(m: map<string, V>, n: map<string, V>)
    requires IsRemoval(m, n)
    requires forall k, i :: k in m && 0 <= i < |k| ==> '.' <= k[i]
    ensures n == Leaves(m)
  {
    RemovalExactly(m, n);
  }

  /** A hyphen sorts before the dot: "a-b" hides "a.b" from "a", and nothing is removed. */
  lemma HyphenShields<V>(v: V, n: map<string, V>)
    requires IsRemoval(map["a" := v, "a-b" := v, "a.b" := v], n)
    ensures n == map["a" := v, "a-b" := v, "a.b" := v]
  {
    hide NextIsChild, Less;
    var m := map["a" := v, "a-b" := v, "a.b" := v];
    assert "a-b" in m && ContinuesBelowDot("a-b", "a");
    forall k | k in m ensures k in n {
      NextIsChildExactly(m, k);
      if k != "a" {
        assert |k + "."| == 4;
        assert forall d :: d in m ==> |d| <= 3;
        assert !HasDescendant(m, k);
      }
    }
    assert n.Keys == m.Keys;
  }
}
