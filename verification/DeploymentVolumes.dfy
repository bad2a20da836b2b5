/** The volumes and mounts of an event source deployment (pkg/shared/util/util.go,
    VolumesFromSecretsOrConfigMaps and what it calls; pkg/reconciler/eventsource/resource.go,
    buildDeployment). Go visits the entries of a map in any order; the results must not depend on it. */
module DeploymentVolumes {
  import opened Ranges
  import opened Sorting
  import opened Strings
  import opened Wrappers

  datatype Selector = Selector(name: string, key: string)

  datatype Source = EmptyDir | Auth(selector: Selector) | Certificates(secret: string, keys: seq<string>)
                  | Secret(secret: string) | ConfigMap(configMap: string)

  datatype Volume = Volume(name: string, source: Source)

  datatype Mount = Mount(name: string, path: string, readOnly: bool)

  datatype Kind = SecretKind | ConfigMapKind

  const NAME: Volume -> string := (v: Volume) => v.name

  const MOUNT_NAME: Mount -> string := (m: Mount) => m.name

  // ----- finding the selectors -----

  /** A value as reflection sees it. `Found` is a non-nil pointer of the type looked for; the entries of
      a map are listed in some fixed order that no walk is bound to. */
  datatype Value = Found(selector: Selector) | Pointer(elem: Option<Value>) | Interface(inner: Option<Value>)
                 | Struct(fields: seq<Value>) | Slice(elems: seq<Value>) | Map(entries: seq<Value>) | Leaf

  /** How often each selector name occurs anywhere in a value. */
  function Tally(v: Value): multiset<string>
    decreases v, 1
  {
    match v
    case Found(s) => multiset{s.name}
    case Pointer(e) => if e.Some? then Tally(e.value) else multiset{}
    case Interface(e) => if e.Some? then Tally(e.value) else multiset{}
    case Struct(fields) => TallyAll(fields)
    case Slice(elems) => TallyAll(elems)
    case Map(entries) => TallyAll(entries)
    case Leaf => multiset{}
  }

  function TallyAll(vs: seq<Value>): multiset<string>
    decreases vs, 0
  {
    if vs == [] then multiset{} else Tally(vs[0]) + TallyAll(vs[1..])
  }

  /** `names` are the selectors in an order in which a walk may meet them: the parts of structures and
      slices in turn, the entries of a map in any order. */
  ghost predicate IsWalk(v: Value, names: seq<string>)
    decreases v, 1
  {
    match v
    case Found(s) => names == [s.name]
    case Pointer(e) => if e.Some? then IsWalk(e.value, names) else names == []
    case Interface(e) => if e.Some? then IsWalk(e.value, names) else names == []
    case Struct(fields) => IsWalkInOrder(fields, names)
    case Slice(elems) => IsWalkInOrder(elems, names)
    case Map(entries) => IsWalkInMap(entries, names)
    case Leaf => names == []
  }

  ghost predicate IsWalkInOrder(vs: seq<Value>, names: seq<string>)
    decreases vs, 0
  {
    if vs == [] then names == []
    else exists k :: 0 <= k <= |names| && IsWalk(vs[0], names[..k]) && IsWalkInOrder(vs[1..], names[k..])
  }

  ghost predicate IsWalkInMap(vs: seq<Value>, names: seq<string>)
    decreases vs, 0
  {
    if vs == [] then names == []
    else
      exists i, k :: 0 <= i < |vs| && 0 <= k <= |names|
        && IsWalk(vs[i], names[..k]) && IsWalkInMap(vs[..i] + vs[i + 1..], names[k..])
  }

  lemma WalkFirst(vs: seq<Value>, first: seq<string>, rest: seq<string>)
    requires vs != [] && IsWalk(vs[0], first) && IsWalkInOrder(vs[1..], rest)
    ensures IsWalkInOrder(vs, first + rest)
  {
    assert (first + rest)[..|first|] == first && (first + rest)[|first|..] == rest;
  }

  lemma WalkEntry(vs: seq<Value>, i: nat, first: seq<string>, rest: seq<string>)
    requires i < |vs| && IsWalk(vs[i], first) && IsWalkInMap(vs[..i] + vs[i + 1..], rest)
    ensures IsWalkInMap(vs, first + rest)
  {
    assert (first + rest)[..|first|] == first && (first + rest)[|first|..] == rest;
  }

  method FindTypes(v: Value) returns (result: seq<string>)
    ensures IsWalk(v, result)
    decreases v, 1
  {
    result := [];
    match v {
      case Found(s) => result := [s.name];
      case Pointer(e) => if e.Some? { result := FindTypes(e.value); }
      case Interface(e) => if e.Some? { result := FindTypes(e.value); }
      case Struct(fields) => result := FindInOrder(fields);
      case Slice(elems) => result := FindInOrder(elems);
      case Map(entries) => result := FindInMap(entries);
      case Leaf =>
    }
  }

  method FindInOrder(vs: seq<Value>) returns (result: seq<string>)
    ensures IsWalkInOrder(vs, result)
    decreases vs, 0
  {
    result := [];
    NothingLeft();
    hide IsWalk, IsWalkInOrder;
    assert vs[0..] == vs && forall rest: seq<string> :: [] + rest == rest;
    for i := 0 to |vs|
      invariant forall rest :: IsWalkInOrder(vs[i..], rest) ==> IsWalkInOrder(vs, result + rest)
    {
      var more := FindTypes(vs[i]);
      assert vs[i..][1..] == vs[i + 1..] && vs[i..][0] == vs[i];
      forall rest | IsWalkInOrder(vs[i + 1..], rest) ensures IsWalkInOrder(vs, (result + more) + rest) {
        WalkFirst(vs[i..], more, rest);
        assert (result + more) + rest == result + (more + rest);
      }
      result := result + more;
    }
    assert vs[|vs|..] == [] && result + [] == result;
  }

  /** The entries are visited in an order nobody chooses. */
  method FindInMap(entries: seq<Value>) returns (result: seq<string>)
    ensures IsWalkInMap(entries, result)
    decreases entries, 0
  {
    result := [];
    NothingLeft();
    hide IsWalk, IsWalkInMap;
    var left := entries;
    assert forall rest: seq<string> :: [] + rest == rest;
    while left != []
      invariant forall x :: x in left ==> x in entries
      invariant forall rest :: IsWalkInMap(left, rest) ==> IsWalkInMap(entries, result + rest)
      decreases |left|
    {
      var i :| 0 <= i < |left|;
      assert left[i] in left;
      ghost var j :| 0 <= j < |entries| && entries[j] == left[i];
      var more := FindTypes(left[i]);
      forall rest | IsWalkInMap(left[..i] + left[i + 1..], rest) ensures IsWalkInMap(entries, (result + more) + rest) {
        WalkEntry(left, i, more, rest);
        assert (result + more) + rest == result + (more + rest);
      }
      result := result + more;
      left := left[..i] + left[i + 1..];
    }
    assert result + [] == result;
  }

  lemma NothingLeft()
    ensures IsWalkInOrder([], []) && IsWalkInMap([], [])
  {
  }

  /** Whatever the order, a walk meets every selector exactly as often as it occurs. */
  lemma {:induction false} WalkTally(v: Value, names: seq<string>)
    requires IsWalk(v, names)
    ensures multiset(names) == Tally(v)
    decreases v, 1
  {
    match v
    case Found(_) =>
    case Pointer(e) => if e.Some? { WalkTally(e.value, names); }
    case Interface(e) => if e.Some? { WalkTally(e.value, names); }
    case Struct(fields) => WalkTallyInOrder(fields, names);
    case Slice(elems) => WalkTallyInOrder(elems, names);
    case Map(entries) => WalkTallyInMap(entries, names);
    case Leaf =>
  }

  lemma {:induction false} WalkTallyInOrder(vs: seq<Value>, names: seq<string>)
    requires IsWalkInOrder(vs, names)
    ensures multiset(names) == TallyAll(vs)
    decreases vs, 0
  {
    if vs != [] {
      var k :| 0 <= k <= |names| && IsWalk(vs[0], names[..k]) && IsWalkInOrder(vs[1..], names[k..]);
      WalkTally(vs[0], names[..k]);
      WalkTallyInOrder(vs[1..], names[k..]);
      assert names == names[..k] + names[k..];
    }
  }

  lemma {:induction false} WalkTallyInMap(vs: seq<Value>, names: seq<string>)
    requires IsWalkInMap(vs, names)
    ensures multiset(names) == TallyAll(vs)
    decreases vs, 0
  {
    if vs != [] {
      var i, k :| 0 <= i < |vs| && 0 <= k <= |names|
        && IsWalk(vs[i], names[..k]) && IsWalkInMap(vs[..i] + vs[i + 1..], names[k..]);
      WalkTally(vs[i], names[..k]);
      WalkTallyInMap(vs[..i] + vs[i + 1..], names[k..]);
      assert names == names[..k] + names[k..];
      TallyWithout(vs, i);
    }
  }

  lemma {:induction false} TallyWithout(vs: seq<Value>, i: nat)
    requires i < |vs|
    ensures TallyAll(vs) == Tally(vs[i]) + TallyAll(vs[..i] + vs[i + 1..])
  {
    hide Tally;
    if i == 0 {
      assert vs[..0] + vs[1..] == vs[1..];
    } else {
      TallyWithout(vs[1..], i - 1);
      assert (vs[..i] + vs[i + 1..])[1..] == vs[1..][..i - 1] + vs[1..][i..];
    }
  }

  // ----- which selector comes first -----

  /** The first of the names that the test accepts. */
  function FirstHit(names: seq<string>, hit: string -> bool): Option<string> {
    if names == [] then None
    else
      var before := FirstHit(names[..|names| - 1], hit);
      var last := names[|names| - 1];
      if before.Some? then before else if hit(last) then Some(last) else None
  }

  lemma {:induction false} FirstHitOfBoth(a: seq<string>, b: seq<string>, hit: string -> bool)
    ensures FirstHit(a + b, hit) == if FirstHit(a, hit).Some? then FirstHit(a, hit) else FirstHit(b, hit)
  {
    if b == [] {
      assert a + b == a;
    } else {
      FirstHitOfBoth(a, b[..|b| - 1], hit);
      assert (a + b)[..|a + b| - 1] == a + b[..|b| - 1];
    }
  }

  /** The selectors that may come first among those the test accepts, read off the structure of a value. */
  function Firsts(v: Value, hit: string -> bool): set<string>
    decreases v, 1
  {
    match v
    case Found(s) => if hit(s.name) then {s.name} else {}
    case Pointer(e) => if e.Some? then Firsts(e.value, hit) else {}
    case Interface(e) => if e.Some? then Firsts(e.value, hit) else {}
    case Struct(fields) => FirstsInOrder(fields, hit)
    case Slice(elems) => FirstsInOrder(elems, hit)
    case Map(entries) => FirstsAmong(entries, hit)
    case Leaf => {}
  }

  function FirstsInOrder(vs: seq<Value>, hit: string -> bool): set<string>
    decreases vs, 0
  {
    if vs == [] then {}
    else if Firsts(vs[0], hit) != {} then Firsts(vs[0], hit) else FirstsInOrder(vs[1..], hit)
  }

  function FirstsAmong(vs: seq<Value>, hit: string -> bool): set<string>
    decreases vs, 0
  {
    if vs == [] then {} else Firsts(vs[0], hit) + FirstsAmong(vs[1..], hit)
  }

  lemma {:induction false} FirstsWithout(vs: seq<Value>, hit: string -> bool, i: nat)
    requires i < |vs|
    ensures FirstsAmong(vs, hit) == Firsts(vs[i], hit) + FirstsAmong(vs[..i] + vs[i + 1..], hit)
  {
    hide Firsts;
    if i == 0 {
      assert vs[..0] + vs[1..] == vs[1..];
    } else {
      FirstsWithout(vs[1..], hit, i - 1);
      assert (vs[..i] + vs[i + 1..])[1..] == vs[1..][..i - 1] + vs[1..][i..];
    }
  }

  /** A first hit is one of those that may come first; there is none exactly when none may. */
  predicate HitIsFirst(first: Option<string>, firsts: set<string>) {
    if first.Some? then first.value in firsts else firsts == {}
  }

  lemma {:induction false} WalkHits(v: Value, names: seq<string>, hit: string -> bool)
    requires IsWalk(v, names)
    ensures HitIsFirst(FirstHit(names, hit), Firsts(v, hit))
    decreases v, 1
  {
    match v
    case Found(_) => assert names[..0] == [];
    case Pointer(e) => if e.Some? { WalkHits(e.value, names, hit); }
    case Interface(e) => if e.Some? { WalkHits(e.value, names, hit); }
    case Struct(fields) => WalkHitsInOrder(fields, names, hit);
    case Slice(elems) => WalkHitsInOrder(elems, names, hit);
    case Map(entries) => WalkHitsInMap(entries, names, hit);
    case Leaf =>
  }

  lemma {:induction false} WalkHitsInOrder(vs: seq<Value>, names: seq<string>, hit: string -> bool)
    requires IsWalkInOrder(vs, names)
    ensures HitIsFirst(FirstHit(names, hit), FirstsInOrder(vs, hit))
    decreases vs, 0
  {
    if vs != [] {
      var k :| 0 <= k <= |names| && IsWalk(vs[0], names[..k]) && IsWalkInOrder(vs[1..], names[k..]);
      WalkHits(vs[0], names[..k], hit);
      WalkHitsInOrder(vs[1..], names[k..], hit);
      assert names == names[..k] + names[k..];
      FirstHitOfBoth(names[..k], names[k..], hit);
    }
  }

  lemma {:induction false} WalkHitsInMap(vs: seq<Value>, names: seq<string>, hit: string -> bool)
    requires IsWalkInMap(vs, names)
    ensures HitIsFirst(FirstHit(names, hit), FirstsAmong(vs, hit))
    decreases vs, 0
  {
    if vs != [] {
      var i, k :| 0 <= i < |vs| && 0 <= k <= |names|
        && IsWalk(vs[i], names[..k]) && IsWalkInMap(vs[..i] + vs[i + 1..], names[k..]);
      WalkHits(vs[i], names[..k], hit);
      WalkHitsInMap(vs[..i] + vs[i + 1..], names[k..], hit);
      assert names == names[..k] + names[k..];
      FirstHitOfBoth(names[..k], names[k..], hit);
      FirstsWithout(vs, hit, i);
    }
  }

  /** Every value has a walk, and one in which `x` comes first if it may. */
  lemma {:induction false} WalkTo(v: Value, hit: string -> bool, x: Option<string>) returns (names: seq<string>)
    requires x.Some? ==> x.value in Firsts(v, hit)
    ensures IsWalk(v, names) && (x.Some? ==> FirstHit(names, hit) == x)
    decreases v, 1
  {
    names := [];
    match v {
      case Found(s) =>
        names := [s.name];
        assert names[..0] == [];
      case Pointer(e) => if e.Some? { names := WalkTo(e.value, hit, x); }
      case Interface(e) => if e.Some? { names := WalkTo(e.value, hit, x); }
      case Struct(fields) => names := WalkToInOrder(fields, hit, x);
      case Slice(elems) => names := WalkToInOrder(elems, hit, x);
      case Map(entries) => names := WalkToInMap(entries, hit, x);
      case Leaf =>
    }
  }

  lemma {:induction false} WalkToInOrder(vs: seq<Value>, hit: string -> bool, x: Option<string>) returns (names: seq<string>)
    requires x.Some? ==> x.value in FirstsInOrder(vs, hit)
    ensures IsWalkInOrder(vs, names) && (x.Some? ==> FirstHit(names, hit) == x)
    decreases vs, 0
  {
    if vs == [] {
      names := [];
    } else {
      var here := Firsts(vs[0], hit) != {};
      var first := WalkTo(vs[0], hit, if here then x else None);
      var rest := WalkToInOrder(vs[1..], hit, if here then None else x);
      names := first + rest;
      WalkFirst(vs, first, rest);
      WalkHits(vs[0], first, hit);
      FirstHitOfBoth(first, rest, hit);
    }
  }

  lemma {:induction false} WalkToInMap(vs: seq<Value>, hit: string -> bool, x: Option<string>) returns (names: seq<string>)
    requires x.Some? ==> x.value in FirstsAmong(vs, hit)
    ensures IsWalkInMap(vs, names) && (x.Some? ==> FirstHit(names, hit) == x)
    decreases vs, 0
  {
    if vs == [] {
      names := [];
    } else {
      var i := if x.Some? then EntryOf(vs, hit, x.value) else 0;
      var first := WalkTo(vs[i], hit, x);
      var rest := WalkToInMap(vs[..i] + vs[i + 1..], hit, None);
      names := first + rest;
      WalkEntry(vs, i, first, rest);
      FirstHitOfBoth(first, rest, hit);
    }
  }

  /** An entry in which `x` may come first. */
  function EntryOf(vs: seq<Value>, hit: string -> bool, x: string): (i: nat)
    requires x in FirstsAmong(vs, hit)
    ensures i < |vs| && x in Firsts(vs[i], hit)
  {
    if x in Firsts(vs[0], hit) then 0 else EntryOf(vs[1..], hit, x) + 1
  }

  // ----- one volume per selector, one selector per name -----

  function VolumeOf(kind: Kind, selector: string): Volume {
    match kind
    case SecretKind => Volume(ReplaceAll("secret-" + selector, "_", "-"), Secret(selector))
    case ConfigMapKind => Volume(ReplaceAll("cm-" + selector, "_", "-"), ConfigMap(selector))
  }

  /** The mount that goes with a volume. */
  function MountOf(v: Volume): Mount {
    match v.source
    case EmptyDir => Mount(v.name, "/tmp", false)
    case Auth(_) => Mount(v.name, "/etc/eventbus/auth", false)
    case Certificates(secret, _) => Mount(v.name, "/argo-events/secrets/" + secret, false)
    case Secret(secret) => Mount(v.name, "/argo-events/secrets/" + secret, true)
    case ConfigMap(configMap) => Mount(v.name, "/argo-events/config/" + configMap, true)
  }

  /** The first element of each key is kept (uniqueVolumes and uniqueVolumeMounts). */
  function Unique<T>(xs: seq<T>, key: T -> string): seq<T> {
    if xs == [] then []
    else
      var last := xs[|xs| - 1];
      var before := Unique(xs[..|xs| - 1], key);
      if exists i :: 0 <= i < |xs| - 1 && key(xs[i]) == key(last) then before else before + [last]
  }

  method UniqueBy<T>(xs: seq<T>, key: T -> string) returns (ys: seq<T>)
    ensures ys == Unique(xs, key)
  {
    ys := [];
    var keys: set<string> := {};
    for i := 0 to |xs|
      invariant ys == Unique(xs[..i], key)
      invariant keys == set j | 0 <= j < i :: key(xs[j])
    {
      assert xs[..i + 1][..i] == xs[..i];
      assert forall j :: 0 <= j <= i ==> xs[..i + 1][j] == xs[j];
      if key(xs[i]) !in keys {
        keys := keys + {key(xs[i])};
        ys := ys + [xs[i]];
      }
    }
    assert xs[..|xs|] == xs;
  }

  /** Elements with one key are one element. */
  ghost predicate NoClash<T(!new)>(xs: set<T>, key: T -> string) {
    forall x, y :: x in xs && y in xs && key(x) == key(y) ==> x == y
  }

  function Elements<T>(xs: seq<T>): set<T> { set x | x in xs }

  lemma {:induction false} UniqueWithin<T>(xs: seq<T>, key: T -> string)
    ensures forall y :: y in Unique(xs, key) ==> y in xs
  {
    if xs != [] { UniqueWithin(xs[..|xs| - 1], key); }
  }

  lemma {:induction false} UniqueGrows<T>(xs: seq<T>, key: T -> string, n: nat)
    requires n <= |xs|
    ensures Unique(xs[..n], key) <= Unique(xs, key)
    decreases |xs| - n
  {
    if n < |xs| {
      assert xs[..n + 1][..n] == xs[..n];
      UniqueGrows(xs, key, n + 1);
    } else {
      assert xs[..n] == xs;
    }
  }

  /** Every element is represented by one with its key. */
  lemma {:induction false} UniqueRepresents<T>(xs: seq<T>, key: T -> string, x: T) returns (y: T)
    requires x in xs
    ensures y in Unique(xs, key) && key(y) == key(x)
    decreases |xs|
  {
    var n := |xs| - 1;
    UniqueGrows(xs, key, n);
    if i :| 0 <= i < n && key(xs[i]) == key(x) {
      assert xs[i] in xs[..n];
      y := UniqueRepresents(xs[..n], key, xs[i]);
    } else {
      assert xs[n] == x;
      y := x;
      assert Unique(xs, key)[|Unique(xs, key)| - 1] == x;
    }
  }

  lemma {:induction false} UniqueKeys<T>(xs: seq<T>, key: T -> string)
    ensures forall i, j :: 0 <= i < j < |Unique(xs, key)| ==> key(Unique(xs, key)[i]) != key(Unique(xs, key)[j])
  {
    if xs != [] {
      var n := |xs| - 1;
      UniqueKeys(xs[..n], key);
      UniqueWithin(xs[..n], key);
      var us := Unique(xs[..n], key);
      forall i | 0 <= i < |us| && key(us[i]) == key(xs[n])
        ensures exists k :: 0 <= k < n && key(xs[k]) == key(xs[n])
      {
        assert us[i] in us;
        var k :| 0 <= k < n && xs[..n][k] == us[i];
        assert xs[k] == us[i];
      }
    }
  }

  lemma {:induction false} OncePerElement<T>(us: seq<T>)
    requires forall i, j :: 0 <= i < j < |us| ==> us[i] != us[j]
    ensures multiset(us) == multiset(Elements(us))
  {
    if us != [] {
      var n := |us| - 1;
      OncePerElement(us[..n]);
      assert us == us[..n] + [us[n]];
      assert us[n] !in us[..n];
      assert Elements(us) == Elements(us[..n]) + {us[n]};
    }
  }

  /** Two visiting orders of the same selectors de-duplicate to the same elements, whatever the orders,
      exactly when no two different ones share a key. */
  lemma UniqueOrderExactly<T(!new)>(s: multiset<T>, key: T -> string)
    ensures (forall xs, ys :: multiset(xs) == s && multiset(ys) == s ==>
               Elements(Unique(xs, key)) == Elements(Unique(ys, key)))
       <==> (forall x, y :: x in s && y in s && key(x) == key(y) ==> x == y)
  {
    if forall x, y :: x in s && y in s && key(x) == key(y) ==> x == y {
      forall xs: seq<T>, ys: seq<T> | multiset(xs) == s && multiset(ys) == s
        ensures Elements(Unique(xs, key)) == Elements(Unique(ys, key))
      {
        KeepsAll(xs, s, key);
        KeepsAll(ys, s, key);
      }
    } else {
      var x, y :| x in s && y in s && key(x) == key(y) && x != y;
      var xs := StartingWith(s, x, y);
      var ys := StartingWith(s, y, x);
      ClashShows(xs, ys, key);
    }
  }

  /** Lists that start with different elements of one key keep different elements. */
  lemma ClashShows<T(!new)>(xs: seq<T>, ys: seq<T>, key: T -> string)
    requires xs != [] && ys != [] && xs[0] != ys[0] && key(xs[0]) == key(ys[0])
    ensures Elements(Unique(xs, key)) != Elements(Unique(ys, key))
  {
    FirstStays(xs, key);
    FirstStays(ys, key);
    UniqueKeys(xs, key);
    hide Unique;
    OnePerKey(Unique(xs, key), key, xs[0], ys[0]);
    assert ys[0] in Elements(Unique(ys, key));
  }

  lemma OnePerKey<T>(us: seq<T>, key: T -> string, x: T, y: T)
    requires forall i, j :: 0 <= i < j < |us| ==> key(us[i]) != key(us[j])
    requires x in us && key(x) == key(y) && x != y
    ensures y !in us
  {
    var i :| 0 <= i < |us| && us[i] == x;
    forall j | 0 <= j < |us| ensures us[j] != y {
      assert i < j || j < i || i == j;
    }
  }

  lemma KeepsAll<T(!new)>(xs: seq<T>, s: multiset<T>, key: T -> string)
    requires multiset(xs) == s && forall x, y :: x in s && y in s && key(x) == key(y) ==> x == y
    ensures Elements(Unique(xs, key)) == set x | x in s
  {
    assert forall x :: x in xs <==> x in multiset(xs);
    UniqueWithin(xs, key);
    forall x | x in s ensures x in Unique(xs, key) {
      var y := UniqueRepresents(xs, key, x);
    }
  }

  lemma StartingWith<T>(s: multiset<T>, x: T, y: T) returns (xs: seq<T>)
    requires x in s && y in s && x != y
    ensures multiset(xs) == s && xs != [] && xs[0] == x
  {
    var rest := Listed(s - multiset{x});
    xs := [x] + rest;
  }

  lemma Listed<T>(s: multiset<T>) returns (xs: seq<T>)
    ensures multiset(xs) == s
    decreases |s|
  {
    if s == multiset{} {
      xs := [];
    } else {
      var x :| x in s;
      var rest := Listed(s - multiset{x});
      xs := [x] + rest;
    }
  }

  lemma {:induction false} FirstStays<T>(xs: seq<T>, key: T -> string)
    requires xs != []
    ensures xs[0] in Unique(xs, key)
  {
    var n := |xs| - 1;
    if n > 0 {
      FirstStays(xs[..n], key);
      assert Unique(xs[..n], key) <= Unique(xs, key);
    } else {
      assert Unique(xs[..0], key) == [];
    }
  }

  // ----- the volumes of a deployment -----

  /** What a deployment mounts: the bus's access secret, its three certificate secrets, the objects
      searched for secret selectors and the object searched for config map selectors. */
  datatype Inputs = Inputs(auth: Option<Selector>, certs: seq<Option<Selector>>, secretObjs: seq<Value>,
                           configMapObjs: seq<Value>)

  /** The user-supplied name of a secret as a volume name (ConvertToDNSLabel). */
  type Label = string -> string

  function Fixed(inp: Inputs): seq<Volume> {
    [Volume("tmp", EmptyDir)] + if inp.auth.Some? then [Volume("auth-volume", Auth(inp.auth.value))] else []
  }

  /** The keys wanted of each certificate secret, in the order the secrets are given. */
  function CertKeys(certs: seq<Option<Selector>>): map<string, seq<string>> {
    if certs == [] then map[]
    else
      var before := CertKeys(certs[..|certs| - 1]);
      match certs[|certs| - 1]
      case None => before
      case Some(c) => before[c.name := (if c.name in before then before[c.name] else []) + [c.key]]
  }

  function CertVolume(inp: Inputs, dns: Label, secret: string): Volume
    requires secret in CertKeys(inp.certs)
  {
    Volume(dns(secret), Certificates(secret, CertKeys(inp.certs)[secret]))
  }

  function CertVolumesOf(inp: Inputs, dns: Label, names: set<string>): set<Volume>
    requires names <= CertKeys(inp.certs).Keys
  {
    set n | n in names :: CertVolume(inp, dns, n)
  }

  function CertVolumes(inp: Inputs, dns: Label): set<Volume> {
    CertVolumesOf(inp, dns, CertKeys(inp.certs).Keys)
  }

  function VolumesOf(kind: Kind, names: seq<string>): seq<Volume> {
    seq(|names|, i requires 0 <= i < |names| => VolumeOf(kind, names[i]))
  }

  function MountsOf(vs: seq<Volume>): seq<Mount> {
    seq(|vs|, i requires 0 <= i < |vs| => MountOf(vs[i]))
  }

  /** Every volume that may be put in the deployment, before de-duplication. */
  function Candidates(inp: Inputs, dns: Label): set<Volume> {
    Elements(Fixed(inp)) + CertVolumes(inp, dns)
    + KindVolumes(SecretKind, inp.secretObjs) + KindVolumes(ConfigMapKind, inp.configMapObjs)
  }

  function KindVolumes(kind: Kind, objs: seq<Value>): set<Volume> {
    set n | n in TallyAll(objs) :: VolumeOf(kind, n)
  }

  function Mounts(vs: set<Volume>): set<Mount> { set v | v in vs :: MountOf(v) }

  /** `vols` and `mounts` are a possible outcome of one build, `secrets` and `configMaps` being the orders
      in which reflection met the selectors. */
  ghost predicate BuiltFrom(inp: Inputs, dns: Label, vols: seq<Volume>, mounts: seq<Mount>,
                            secrets: seq<string>, configMaps: seq<string>) {
    && IsWalkInOrder(inp.secretObjs, secrets) && IsWalkInOrder(inp.configMapObjs, configMaps)
    && SortedBy(vols, NAME) && SortedBy(mounts, MOUNT_NAME)
    && multiset(vols) == multiset(Fixed(inp)) + multiset(CertVolumes(inp, dns))
         + multiset(Unique(VolumesOf(SecretKind, secrets), NAME))
         + multiset(Unique(VolumesOf(ConfigMapKind, configMaps), NAME))
    && multiset(mounts) == multiset(MountsOf(Fixed(inp))) + multiset(Mounts(CertVolumes(inp, dns)))
         + multiset(Unique(MountsOf(VolumesOf(SecretKind, secrets)), MOUNT_NAME))
         + multiset(Unique(MountsOf(VolumesOf(ConfigMapKind, configMaps)), MOUNT_NAME))
  }

  /** The volumes and mounts of the selectors found in the order `values`. */
  ghost predicate FromSelectors(kind: Kind, objs: seq<Value>, vols: seq<Volume>, mounts: seq<Mount>, values: seq<string>) {
    && IsWalkInOrder(objs, values)
    && vols == Unique(VolumesOf(kind, values), NAME)
    && mounts == Unique(MountsOf(VolumesOf(kind, values)), MOUNT_NAME)
  }

  method VolumesFromSecretsOrConfigMaps(kind: Kind, objs: seq<Value>) returns (vols: seq<Volume>, mounts: seq<Mount>)
    ensures exists values :: FromSelectors(kind, objs, vols, mounts, values)
  {
    var found := FindInOrder(objs);
    var resultVolumes: seq<Volume>, resultMounts: seq<Mount> := [], [];
    for i := 0 to |found|
      invariant resultVolumes == VolumesOf(kind, found[..i]) && resultMounts == MountsOf(resultVolumes)
    {
      var vol := VolumeOf(kind, found[i]);
      resultVolumes := resultVolumes + [vol];
      resultMounts := resultMounts + [MountOf(vol)];
    }
    assert found[..|found|] == found;
    vols := UniqueBy(resultVolumes, NAME);
    mounts := UniqueBy(resultMounts, MOUNT_NAME);
    assert FromSelectors(kind, objs, vols, mounts, found);
  }

  /** One volume and one mount for each certificate secret, in whatever order the map gives them. */
  method MountCertificates(inp: Inputs, dns: Label) returns (vols: seq<Volume>, mounts: seq<Mount>)
    ensures multiset(vols) == multiset(CertVolumes(inp, dns))
    ensures multiset(mounts) == multiset(Mounts(CertVolumes(inp, dns)))
  {
    assert Mounts({}) == {};
    hide CertKeys, MountOf, Mounts, CertVolume;
    vols, mounts := [], [];
    var certs := CertKeys(inp.certs);
    var rest := certs.Keys;
    assert CertVolumesOf(inp, dns, certs.Keys - rest) == {};
    hide CertVolumesOf;
    while rest != {}
      invariant rest <= certs.Keys
      invariant multiset(vols) == multiset(CertVolumesOf(inp, dns, certs.Keys - rest))
      invariant multiset(mounts) == multiset(Mounts(CertVolumesOf(inp, dns, certs.Keys - rest)))
    {
      var n :| n in rest;
      var vol := CertVolume(inp, dns, n);
      CertMountNew(inp, dns, n, certs.Keys - rest);
      assert certs.Keys - (rest - {n}) == certs.Keys - rest + {n};
      vols := vols + [vol];
      mounts := mounts + [MountOf(vol)];
      rest := rest - {n};
    }
    assert certs.Keys - rest == certs.Keys;
  }

  method BuildVolumes(inp: Inputs, dns: Label) returns (vols: seq<Volume>, mounts: seq<Mount>)
    ensures IsBuild(inp, dns, vols, mounts)
  {
    hide IsWalkInOrder, Unique, VolumesOf, MountsOf, Fixed, CertVolumes, Mounts;
    var fixed := Fixed(inp);
    var certVols, certMounts := MountCertificates(inp, dns);
    var volSecrets, volSecretMounts := VolumesFromSecretsOrConfigMaps(SecretKind, inp.secretObjs);
    var volConfigMaps, volConfigMapMounts := VolumesFromSecretsOrConfigMaps(ConfigMapKind, inp.configMapObjs);
    vols := Sort(fixed + certVols + volSecrets + volConfigMaps, NAME);
    mounts := Sort(MountsOf(fixed) + certMounts + volSecretMounts + volConfigMapMounts, MOUNT_NAME);
    ghost var secrets :| FromSelectors(SecretKind, inp.secretObjs, volSecrets, volSecretMounts, secrets);
    ghost var configMaps :| FromSelectors(ConfigMapKind, inp.configMapObjs, volConfigMaps, volConfigMapMounts, configMaps);
    assert BuiltFrom(inp, dns, vols, mounts, secrets, configMaps);
  }

  /** The mount path names the secret, so a new certificate volume brings a new mount. */
  lemma CertMountNew(inp: Inputs, dns: Label, n: string, before: set<string>)
    requires n in CertKeys(inp.certs) && before <= CertKeys(inp.certs).Keys && n !in before
    ensures var done, vol := CertVolumesOf(inp, dns, before), CertVolume(inp, dns, n);
      && multiset(CertVolumesOf(inp, dns, before + {n})) == multiset(done) + multiset{vol}
      && multiset(Mounts(CertVolumesOf(inp, dns, before + {n}))) == multiset(Mounts(done)) + multiset{MountOf(vol)}
  {
    var done, vol := CertVolumesOf(inp, dns, before), CertVolume(inp, dns, n);
    forall v | v in done ensures v != vol && MountOf(v) != MountOf(vol) {
      var k :| k in before && v == CertVolume(inp, dns, k);
      var root := "/argo-events/secrets/";
      assert (root + k)[|root|..] == k && (root + n)[|root|..] == n;
    }
    hide CertKeys, MountOf, CertVolume;
    assert CertVolumesOf(inp, dns, before + {n}) == done + {vol};
    assert Mounts(done + {vol}) == Mounts(done) + {MountOf(vol)};
  }

  /** The test that a selector's volume has the name `vol`. */
  function Named(kind: Kind, vol: string): string -> bool { n => VolumeOf(kind, n).name == vol }

  lemma {:induction false} HitExists(names: seq<string>, hit: string -> bool)
    ensures FirstHit(names, hit).Some? <==> exists i :: 0 <= i < |names| && hit(names[i])
    ensures FirstHit(names, hit).Some? ==> FirstHit(names, hit).value in names && hit(FirstHit(names, hit).value)
  {
    if names != [] {
      var n := |names| - 1;
      HitExists(names[..n], hit);
      assert names == names[..n] + [names[n]];
    }
  }

  lemma VolumesOfLast(kind: Kind, names: seq<string>)
    requires names != []
    ensures var n := |names| - 1;
      |VolumesOf(kind, names)| == |names| && VolumesOf(kind, names)[..n] == VolumesOf(kind, names[..n])
      && VolumesOf(kind, names)[n] == VolumeOf(kind, names[n])
  {
    hide VolumeOf;
  }

  /** One more selector is kept unless its volume's name has been met. */
  lemma UniqueLast(kind: Kind, names: seq<string>)
    requires names != []
    ensures var n := |names| - 1;
      var before, v := Unique(VolumesOf(kind, names[..n]), NAME), VolumeOf(kind, names[n]);
      Unique(VolumesOf(kind, names), NAME)
        == if FirstHit(names[..n], Named(kind, v.name)).Some? then before else before + [v]
  {
    VolumesOfLast(kind, names);
    NameMet(kind, names);
    UniqueStep(VolumesOf(kind, names), NAME);
    hide VolumeOf, VolumesOf, FirstHit, Named, Unique;
  }

  /** The last element has the key of an earlier one. */
  predicate LastMet<T>(xs: seq<T>, key: T -> string)
    requires xs != []
  {
    exists i :: 0 <= i < |xs| - 1 && key(xs[i]) == key(xs[|xs| - 1])
  }

  lemma UniqueStep<T>(xs: seq<T>, key: T -> string)
    requires xs != []
    ensures var before := Unique(xs[..|xs| - 1], key);
      Unique(xs, key) == if LastMet(xs, key) then before else before + [xs[|xs| - 1]]
  {
  }

  lemma NameMet(kind: Kind, names: seq<string>)
    requires names != []
    ensures |VolumesOf(kind, names)| == |names|
    ensures FirstHit(names[..|names| - 1], Named(kind, VolumeOf(kind, names[|names| - 1]).name)).Some?
      <==> LastMet(VolumesOf(kind, names), NAME)
  {
    hide VolumeOf, VolumesOf, FirstHit;
    var n, vs := |names| - 1, VolumesOf(kind, names);
    var hit := Named(kind, VolumeOf(kind, names[n]).name);
    HitExists(names[..n], hit);
    forall i | 0 <= i <= n ensures |vs| == |names| && NAME(vs[i]) == VolumeOf(kind, names[i]).name { VolumeAt(kind, names, i); }
    forall i | 0 <= i < n ensures hit(names[..n][i]) <==> NAME(vs[i]) == NAME(vs[n]) {
    }
    if FirstHit(names[..n], hit).Some? {
      var i :| 0 <= i < n && hit(names[..n][i]);
      assert NAME(vs[i]) == NAME(vs[n]);
    }
  }

  lemma VolumeAt(kind: Kind, names: seq<string>, i: nat)
    requires i < |names|
    ensures |VolumesOf(kind, names)| == |names| && VolumesOf(kind, names)[i] == VolumeOf(kind, names[i])
  {
    hide VolumeOf;
  }

  /** De-duplication keeps the volume of a selector exactly when it comes first among those of its name. */
  lemma {:induction false} UniqueHolds(kind: Kind, names: seq<string>, x: string)
    ensures VolumeOf(kind, x) in Unique(VolumesOf(kind, names), NAME)
      <==> FirstHit(names, Named(kind, VolumeOf(kind, x).name)) == Some(x)
  {
    if names != [] {
      var n := |names| - 1;
      UniqueHolds(kind, names[..n], x);
      UniqueLast(kind, names);
      VolumeTells(kind, x, names[n]);
      hide VolumeOf, Unique, VolumesOf;
    }
  }

  lemma VolumeTells(kind: Kind, x: string, y: string)
    ensures VolumeOf(kind, x) == VolumeOf(kind, y) <==> x == y
  {
  }

  lemma {:induction false} UniqueMounts(vs: seq<Volume>)
    ensures Unique(MountsOf(vs), MOUNT_NAME) == MountsOf(Unique(vs, NAME))
  {
    if vs != [] {
      var n := |vs| - 1;
      UniqueMounts(vs[..n]);
      assert MountsOf(vs)[..n] == MountsOf(vs[..n]);
      forall i | 0 <= i <= n ensures MOUNT_NAME(MountsOf(vs)[i]) == NAME(vs[i]) { MountKeepsName(vs[i]); }
    }
  }

  /** The volumes of the selectors that may come first among those of their name. */
  function FirstVolumes(kind: Kind, objs: seq<Value>): set<Volume> {
    set n | n in TallyAll(objs) && n in FirstsInOrder(objs, Named(kind, VolumeOf(kind, n).name)) :: VolumeOf(kind, n)
  }

  /** For every volume name one selector at most may come first. */
  ghost predicate OneFirst(kind: Kind, objs: seq<Value>) {
    forall vol, x, y :: x in FirstsInOrder(objs, Named(kind, vol)) && y in FirstsInOrder(objs, Named(kind, vol)) ==> x == y
  }

  lemma KindDetermined(kind: Kind, objs: seq<Value>, names: seq<string>)
    requires IsWalkInOrder(objs, names) && OneFirst(kind, objs)
    ensures multiset(Unique(VolumesOf(kind, names), NAME)) == multiset(FirstVolumes(kind, objs))
    ensures multiset(Unique(MountsOf(VolumesOf(kind, names)), MOUNT_NAME)) == multiset(Mounts(FirstVolumes(kind, objs)))
  {
    var us := Unique(VolumesOf(kind, names), NAME);
    KindElements(kind, objs, names);
    UniqueKeys(VolumesOf(kind, names), NAME);
    UniqueMounts(VolumesOf(kind, names));
    hide IsWalkInOrder, FirstVolumes, Unique, VolumesOf, OneFirst, MountOf;
    OncePerElement(us);
    ElementsOfMounts(us);
    forall i, j | 0 <= i < j < |us| ensures MountsOf(us)[i] != MountsOf(us)[j] {
      MountKeepsName(us[i]);
      MountKeepsName(us[j]);
    }
    OncePerElement(MountsOf(us));
  }

  lemma KindElements(kind: Kind, objs: seq<Value>, names: seq<string>)
    requires IsWalkInOrder(objs, names) && OneFirst(kind, objs)
    ensures Elements(Unique(VolumesOf(kind, names), NAME)) == FirstVolumes(kind, objs)
  {
    hide IsWalkInOrder, Unique, VolumesOf, TallyAll, FirstsInOrder, VolumeOf, Named, OneFirst;
    var us := Unique(VolumesOf(kind, names), NAME);
    forall v | v in us ensures v in FirstVolumes(kind, objs) {
      var n := KeptIsOfSelector(kind, names, v);
      FirstKept(kind, objs, names, n);
    }
    forall v | v in FirstVolumes(kind, objs) ensures v in us {
      var n :| n in FirstsInOrder(objs, Named(kind, VolumeOf(kind, n).name)) && v == VolumeOf(kind, n);
      FirstKept(kind, objs, names, n);
    }
  }

  lemma KeptIsOfSelector(kind: Kind, names: seq<string>, v: Volume) returns (n: string)
    requires v in Unique(VolumesOf(kind, names), NAME)
    ensures v == VolumeOf(kind, n)
  {
    UniqueWithin(VolumesOf(kind, names), NAME);
    var i :| 0 <= i < |names| && VolumesOf(kind, names)[i] == v;
    n := names[i];
  }

  /** With one possible first selector per name, it is the one kept. */
  lemma FirstKept(kind: Kind, objs: seq<Value>, names: seq<string>, n: string)
    requires IsWalkInOrder(objs, names) && OneFirst(kind, objs)
    ensures var first := n in FirstsInOrder(objs, Named(kind, VolumeOf(kind, n).name));
      && (VolumeOf(kind, n) in Unique(VolumesOf(kind, names), NAME) <==> first)
      && (first ==> VolumeOf(kind, n) in FirstVolumes(kind, objs))
  {
    var hit := Named(kind, VolumeOf(kind, n).name);
    UniqueHolds(kind, names, n);
    WalkHitsInOrder(objs, names, hit);
    if n in FirstsInOrder(objs, hit) { var _ := FirstIsFound(objs, hit, n); }
    hide IsWalkInOrder, Unique, VolumesOf, TallyAll, FirstsInOrder, VolumeOf, Named;
  }

  lemma MountKeepsName(v: Volume)
    ensures MountOf(v).name == v.name
  {
  }

  lemma ElementsOfMounts(vs: seq<Volume>)
    ensures Elements(MountsOf(vs)) == Mounts(Elements(vs))
  {
    forall v | v in vs ensures MountOf(v) in Elements(MountsOf(vs)) {
      var i :| 0 <= i < |vs| && vs[i] == v;
      assert MountsOf(vs)[i] == MountOf(v);
    }
    forall m | m in MountsOf(vs) ensures m in Mounts(Elements(vs)) {
      var i :| 0 <= i < |vs| && MountsOf(vs)[i] == m;
      assert vs[i] in Elements(vs);
    }
  }

  /** Every volume a deployment may end up with, where it is known which selectors come first. */
  function FinalVolumes(inp: Inputs, dns: Label): set<Volume> {
    Elements(Fixed(inp)) + CertVolumes(inp, dns)
    + FirstVolumes(SecretKind, inp.secretObjs) + FirstVolumes(ConfigMapKind, inp.configMapObjs)
  }

  /** For each volume name one selector at most may come first, and no two of the resulting volumes share a
      name. Both can be read off the inputs. */
  ghost predicate Determined(inp: Inputs, dns: Label) {
    && OneFirst(SecretKind, inp.secretObjs) && OneFirst(ConfigMapKind, inp.configMapObjs)
    && NoClash(FinalVolumes(inp, dns), NAME)
  }

  ghost predicate IsBuild(inp: Inputs, dns: Label, vols: seq<Volume>, mounts: seq<Mount>) {
    exists secrets, configMaps :: BuiltFrom(inp, dns, vols, mounts, secrets, configMaps)
  }

  /** The volumes and mounts of a deployment, order apart. */
  ghost function VolumeBag(inp: Inputs, dns: Label): multiset<Volume> {
    multiset(Fixed(inp)) + multiset(CertVolumes(inp, dns)) + multiset(FirstVolumes(SecretKind, inp.secretObjs))
    + multiset(FirstVolumes(ConfigMapKind, inp.configMapObjs))
  }

  ghost function MountBag(inp: Inputs, dns: Label): multiset<Mount> {
    multiset(MountsOf(Fixed(inp))) + multiset(Mounts(CertVolumes(inp, dns)))
    + multiset(Mounts(FirstVolumes(SecretKind, inp.secretObjs))) + multiset(Mounts(FirstVolumes(ConfigMapKind, inp.configMapObjs)))
  }

  lemma BuiltBags(inp: Inputs, dns: Label, vols: seq<Volume>, mounts: seq<Mount>, secrets: seq<string>, configMaps: seq<string>)
    requires BuiltFrom(inp, dns, vols, mounts, secrets, configMaps)
    requires OneFirst(SecretKind, inp.secretObjs) && OneFirst(ConfigMapKind, inp.configMapObjs)
    ensures multiset(vols) == VolumeBag(inp, dns) && multiset(mounts) == MountBag(inp, dns)
  {
    hide IsWalkInOrder, OneFirst, Unique, VolumesOf, MountsOf, FirstVolumes, Fixed, CertVolumes;
    KindDetermined(SecretKind, inp.secretObjs, secrets);
    KindDetermined(ConfigMapKind, inp.configMapObjs, configMaps);
  }

  lemma BagNames(inp: Inputs, dns: Label)
    ensures forall v :: v in VolumeBag(inp, dns) <==> v in FinalVolumes(inp, dns)
    ensures forall m :: m in MountBag(inp, dns) ==> m in Mounts(FinalVolumes(inp, dns))
  {
    hide FirstVolumes, CertVolumes, MountOf, Fixed;
    ElementsOfMounts(Fixed(inp));
    forall m | m in MountBag(inp, dns) ensures m in Mounts(FinalVolumes(inp, dns)) {
      if m in multiset(MountsOf(Fixed(inp))) { assert m in Elements(MountsOf(Fixed(inp))); }
    }
  }

  /** All visiting orders build the same volumes, order apart, exactly when for each volume name one selector
      at most may come first. */
  lemma BuildContentExactly(inp: Inputs, dns: Label)
    ensures (forall v1, m1, v2, m2 :: IsBuild(inp, dns, v1, m1) && IsBuild(inp, dns, v2, m2) ==> multiset(v1) == multiset(v2))
      <==> OneFirst(SecretKind, inp.secretObjs) && OneFirst(ConfigMapKind, inp.configMapObjs)
  {
    if OneFirst(SecretKind, inp.secretObjs) && OneFirst(ConfigMapKind, inp.configMapObjs) {
      forall v1, m1, v2, m2 | IsBuild(inp, dns, v1, m1) && IsBuild(inp, dns, v2, m2) ensures multiset(v1) == multiset(v2) {
        var s1, c1 :| BuiltFrom(inp, dns, v1, m1, s1, c1);
        var s2, c2 :| BuiltFrom(inp, dns, v2, m2, s2, c2);
        hide BuiltFrom, OneFirst, VolumeBag, MountBag;
        BuiltBags(inp, dns, v1, m1, s1, c1);
        BuiltBags(inp, dns, v2, m2, s2, c2);
      }
    } else {
      hide IsBuild;
      var v1, m1, v2, m2, v := TwoOfKind(inp, dns, if OneFirst(SecretKind, inp.secretObjs) then ConfigMapKind else SecretKind);
      assert v in multiset(v1) && v !in multiset(v2);
    }
  }

  /** All visiting orders build the same lists of volumes and mounts, exactly when the inputs determine them.
      Where only the second part of the condition fails, the builds differ by the order of elements with one
      name. Go leaves that order open for `sort.Slice`, although its present implementation gives one order
      for one input list; and the API server refuses a pod two of whose volumes share a name. */
  lemma BuildIsDeterministicExactly(inp: Inputs, dns: Label)
    ensures (forall v1, m1, v2, m2 :: IsBuild(inp, dns, v1, m1) && IsBuild(inp, dns, v2, m2) ==> v1 == v2 && m1 == m2)
      <==> Determined(inp, dns)
  {
    hide IsBuild, Determined;
    if Determined(inp, dns) {
      forall v1, m1, v2, m2 | IsBuild(inp, dns, v1, m1) && IsBuild(inp, dns, v2, m2) ensures v1 == v2 && m1 == m2 {
        BuildsAgree(inp, dns, v1, m1, v2, m2);
      }
    } else {
      var v1, m1, v2, m2 := TwoBuilds(inp, dns);
    }
  }

  lemma BuildsAgree(inp: Inputs, dns: Label, v1: seq<Volume>, m1: seq<Mount>, v2: seq<Volume>, m2: seq<Mount>)
    requires IsBuild(inp, dns, v1, m1) && IsBuild(inp, dns, v2, m2) && Determined(inp, dns)
    ensures v1 == v2 && m1 == m2
  {
    var s1, c1 :| BuiltFrom(inp, dns, v1, m1, s1, c1);
    var s2, c2 :| BuiltFrom(inp, dns, v2, m2, s2, c2);
    hide VolumeBag, MountBag, FinalVolumes, Mounts, NoClash, IsWalkInOrder, OneFirst, Unique, VolumesOf, MountsOf, Fixed, CertVolumes;
    BuiltBags(inp, dns, v1, m1, s1, c1);
    BuiltBags(inp, dns, v2, m2, s2, c2);
    BagNames(inp, dns);
    OneVolumeOrder(FinalVolumes(inp, dns), v1, v2);
    forall m | m in m1 ensures m in Mounts(FinalVolumes(inp, dns)) { assert m in multiset(m1); }
    OneMountOrder(FinalVolumes(inp, dns), m1, m2);
  }

  /** What may come first occurs and is accepted by the test. */
  lemma FirstIsFound(objs: seq<Value>, hit: string -> bool, x: string) returns (names: seq<string>)
    requires x in FirstsInOrder(objs, hit)
    ensures IsWalkInOrder(objs, names) && FirstHit(names, hit) == Some(x) && x in TallyAll(objs) && hit(x)
  {
    names := WalkToInOrder(objs, hit, Some(x));
    HitExists(names, hit);
    WalkTallyInOrder(objs, names);
    assert x in multiset(names);
  }

  /** Distinct names of all candidates are enough. */
  lemma DistinctNamesDetermine(inp: Inputs, dns: Label)
    requires NoClash(Candidates(inp, dns), NAME)
    ensures Determined(inp, dns)
  {
    FirstVolumesOccur(SecretKind, inp.secretObjs);
    FirstVolumesOccur(ConfigMapKind, inp.configMapObjs);
    hide Fixed, CertVolumes, FirstVolumes, KindVolumes, OneFirst;
    OneFirstOfDistinct(SecretKind, inp.secretObjs);
    OneFirstOfDistinct(ConfigMapKind, inp.configMapObjs);
    assert FinalVolumes(inp, dns) <= Candidates(inp, dns);
  }

  lemma FirstVolumesOccur(kind: Kind, objs: seq<Value>)
    ensures FirstVolumes(kind, objs) <= KindVolumes(kind, objs)
  {
    hide TallyAll, FirstsInOrder, VolumeOf, Named;
  }

  lemma OneFirstOfDistinct(kind: Kind, objs: seq<Value>)
    requires NoClash(KindVolumes(kind, objs), NAME)
    ensures OneFirst(kind, objs)
  {
    forall vol, x, y | x in FirstsInOrder(objs, Named(kind, vol)) && y in FirstsInOrder(objs, Named(kind, vol)) ensures x == y {
      FirstVolumeOccurs(kind, objs, vol, x);
      FirstVolumeOccurs(kind, objs, vol, y);
      VolumeTells(kind, x, y);
    }
  }

  lemma FirstVolumeOccurs(kind: Kind, objs: seq<Value>, vol: string, x: string)
    requires x in FirstsInOrder(objs, Named(kind, vol))
    ensures VolumeOf(kind, x) in KindVolumes(kind, objs) && NAME(VolumeOf(kind, x)) == vol
  {
    var _ := FirstIsFound(objs, Named(kind, vol), x);
    hide TallyAll, FirstsInOrder, VolumeOf;
  }

  // ----- two builds where the inputs do not determine one -----

  lemma {:induction false} SomeSort<T>(xs: seq<T>, key: T -> string) returns (ys: seq<T>)
    ensures IsSortOf(ys, xs, key)
  {
    if xs == [] {
      ys := [];
    } else {
      var n := |xs| - 1;
      var before := SomeSort(xs[..n], key);
      var j := PlaceFor(before, key, xs[n]);
      InsertSorted(before, j, xs[n], key);
      InsertBag(before, j, xs[n]);
      ys := before[..j] + [xs[n]] + before[j..];
      assert xs == xs[..n] + [xs[n]];
    }
  }

  lemma {:induction false} PlaceFor<T>(ys: seq<T>, key: T -> string, x: T) returns (j: nat)
    ensures j <= |ys| && (j > 0 ==> !Less(key(x), key(ys[j - 1])))
    ensures forall k :: j <= k < |ys| ==> Less(key(x), key(ys[k]))
  {
    hide Less;
    j := |ys|;
    while j > 0 && Less(key(x), key(ys[j - 1]))
      invariant j <= |ys| && forall k :: j <= k < |ys| ==> Less(key(x), key(ys[k]))
    {
      j := j - 1;
    }
  }

  lemma SomeBuild(inp: Inputs, dns: Label, secrets: seq<string>, configMaps: seq<string>)
    returns (vols: seq<Volume>, mounts: seq<Mount>)
    requires IsWalkInOrder(inp.secretObjs, secrets) && IsWalkInOrder(inp.configMapObjs, configMaps)
    ensures BuiltFrom(inp, dns, vols, mounts, secrets, configMaps)
  {
    hide IsWalkInOrder, Unique, VolumesOf, MountsOf, Fixed, CertVolumes, Mounts, SortedBy;
    var certVols := Listed(multiset(CertVolumes(inp, dns)));
    var certMounts := Listed(multiset(Mounts(CertVolumes(inp, dns))));
    var volSecrets, volConfigMaps := VolumesOf(SecretKind, secrets), VolumesOf(ConfigMapKind, configMaps);
    vols := SomeSort(Fixed(inp) + certVols + Unique(volSecrets, NAME) + Unique(volConfigMaps, NAME), NAME);
    mounts := SomeSort(MountsOf(Fixed(inp)) + certMounts + Unique(MountsOf(volSecrets), MOUNT_NAME)
                       + Unique(MountsOf(volConfigMaps), MOUNT_NAME), MOUNT_NAME);
  }

  lemma TwoBuilds(inp: Inputs, dns: Label) returns (v1: seq<Volume>, m1: seq<Mount>, v2: seq<Volume>, m2: seq<Mount>)
    requires !Determined(inp, dns)
    ensures IsBuild(inp, dns, v1, m1) && IsBuild(inp, dns, v2, m2) && v1 != v2
  {
    hide IsBuild;
    var v: Volume;
    if !OneFirst(SecretKind, inp.secretObjs) {
      hide NoClash;
      v1, m1, v2, m2, v := TwoOfKind(inp, dns, SecretKind);
    } else if !OneFirst(ConfigMapKind, inp.configMapObjs) {
      hide NoClash;
      v1, m1, v2, m2, v := TwoOfKind(inp, dns, ConfigMapKind);
    } else {
      v1, m1, v2, m2 := TwoOrders(inp, dns);
    }
  }

  function ObjsOf(inp: Inputs, kind: Kind): seq<Value> { if kind.SecretKind? then inp.secretObjs else inp.configMapObjs }

  /** Two selectors of one volume name may come first: each does in some build. */
  lemma TwoOfKind(inp: Inputs, dns: Label, kind: Kind)
    returns (v1: seq<Volume>, m1: seq<Mount>, v2: seq<Volume>, m2: seq<Mount>, v: Volume)
    requires !OneFirst(kind, ObjsOf(inp, kind))
    ensures IsBuild(inp, dns, v1, m1) && IsBuild(inp, dns, v2, m2) && v in v1 && v !in v2
  {
    var objs := ObjsOf(inp, kind);
    var vol, x, y :| x in FirstsInOrder(objs, Named(kind, vol)) && y in FirstsInOrder(objs, Named(kind, vol)) && x != y;
    var w1 := FirstIsFound(objs, Named(kind, vol), x);
    var w2 := FirstIsFound(objs, Named(kind, vol), y);
    v1, m1 := BuildWith(inp, dns, kind, w1, x);
    v2, m2 := BuildWith(inp, dns, kind, w2, x);
    UniqueHolds(kind, w1, x);
    UniqueHolds(kind, w2, x);
    v := VolumeOf(kind, x);
  }

  /** A build from a given walk for one kind holds a volume of that kind exactly when de-duplication keeps it. */
  lemma BuildWith(inp: Inputs, dns: Label, kind: Kind, walk: seq<string>, x: string)
    returns (vols: seq<Volume>, mounts: seq<Mount>)
    requires IsWalkInOrder(ObjsOf(inp, kind), walk)
    ensures IsBuild(inp, dns, vols, mounts)
    ensures VolumeOf(kind, x) in vols <==> VolumeOf(kind, x) in Unique(VolumesOf(kind, walk), NAME)
  {
    var secrets := WalkToInOrder(inp.secretObjs, n => false, None);
    var configMaps := WalkToInOrder(inp.configMapObjs, n => false, None);
    if kind.SecretKind? { secrets := walk; } else { configMaps := walk; }
    vols, mounts := SomeBuild(inp, dns, secrets, configMaps);
    KindsApart(SecretKind, secrets);
    KindsApart(ConfigMapKind, configMaps);
    FixedApart(inp, dns);
    SourceOf(kind, x);
    InBuild(inp, dns, vols, mounts, secrets, configMaps, VolumeOf(kind, x));
    hide BuiltFrom, IsWalkInOrder, Unique, VolumesOf, VolumeOf, Fixed, CertVolumes;
  }

  lemma InBuild(inp: Inputs, dns: Label, vols: seq<Volume>, mounts: seq<Mount>, secrets: seq<string>, configMaps: seq<string>,
                v: Volume)
    requires BuiltFrom(inp, dns, vols, mounts, secrets, configMaps)
    ensures v in vols <==>
      v in Fixed(inp) || v in CertVolumes(inp, dns)
      || v in Unique(VolumesOf(SecretKind, secrets), NAME) || v in Unique(VolumesOf(ConfigMapKind, configMaps), NAME)
  {
    hide IsWalkInOrder, Unique, VolumesOf, MountsOf, Fixed, CertVolumes, Mounts, SortedBy;
    assert v in vols <==> v in multiset(vols);
  }

  lemma KindsApart(kind: Kind, names: seq<string>)
    ensures forall v :: v in Unique(VolumesOf(kind, names), NAME) ==> if kind.SecretKind? then v.source.Secret? else v.source.ConfigMap?
  {
    UniqueWithin(VolumesOf(kind, names), NAME);
  }

  lemma FixedApart(inp: Inputs, dns: Label)
    ensures forall v :: v in Fixed(inp) || v in CertVolumes(inp, dns) ==> !v.source.Secret? && !v.source.ConfigMap?
  {
  }

  lemma SourceOf(kind: Kind, x: string)
    ensures if kind.SecretKind? then VolumeOf(kind, x).source.Secret? else VolumeOf(kind, x).source.ConfigMap?
  {
  }

  /** Two volumes share a name: sorting may leave them in either order. */
  lemma TwoOrders(inp: Inputs, dns: Label) returns (v1: seq<Volume>, m1: seq<Mount>, v2: seq<Volume>, m2: seq<Mount>)
    requires OneFirst(SecretKind, inp.secretObjs) && OneFirst(ConfigMapKind, inp.configMapObjs)
    requires !NoClash(FinalVolumes(inp, dns), NAME)
    ensures IsBuild(inp, dns, v1, m1) && IsBuild(inp, dns, v2, m2) && v1 != v2
  {
    hide BuiltFrom, OneFirst, FinalVolumes, VolumeBag, MountBag, IsWalkInOrder, NoClash;
    var secrets := WalkToInOrder(inp.secretObjs, n => false, None);
    var configMaps := WalkToInOrder(inp.configMapObjs, n => false, None);
    v1, m1 := SomeBuild(inp, dns, secrets, configMaps);
    BuiltBags(inp, dns, v1, m1, secrets, configMaps);
    BagNames(inp, dns);
    var i, j := TwoOfOneName(v1, FinalVolumes(inp, dns));
    SwapInBuild(inp, dns, v1, m1, secrets, configMaps, i, j);
    v2, m2 := v1[i := v1[j]][j := v1[i]], m1;
    assert v2[i] != v1[i];
  }

  lemma TwoOfOneName(vols: seq<Volume>, all: set<Volume>) returns (i: nat, j: nat)
    requires (forall v :: v in multiset(vols) <==> v in all) && !NoClash(all, NAME)
    ensures i < |vols| && j < |vols| && NAME(vols[i]) == NAME(vols[j]) && vols[i] != vols[j]
  {
    var x, y :| x in all && y in all && NAME(x) == NAME(y) && x != y;
    assert x in multiset(vols) && y in multiset(vols);
    i :| 0 <= i < |vols| && vols[i] == x;
    j :| 0 <= j < |vols| && vols[j] == y;
  }

  lemma SwapInBuild(inp: Inputs, dns: Label, vols: seq<Volume>, mounts: seq<Mount>, secrets: seq<string>, configMaps: seq<string>,
                    i: nat, j: nat)
    requires BuiltFrom(inp, dns, vols, mounts, secrets, configMaps)
    requires i < |vols| && j < |vols| && NAME(vols[i]) == NAME(vols[j])
    ensures BuiltFrom(inp, dns, vols[i := vols[j]][j := vols[i]], mounts, secrets, configMaps)
  {
    hide IsWalkInOrder, Unique, VolumesOf, MountsOf, Fixed, CertVolumes, Mounts, SortedBy;
    SwapKeepsBag(vols, i, j);
    SwapKeepsOrder(vols, i, j, NAME);
  }

  lemma SwapKeepsOrder<T>(xs: seq<T>, i: nat, j: nat, key: T -> string)
    requires i < |xs| && j < |xs| && key(xs[i]) == key(xs[j]) && SortedBy(xs, key)
    ensures SortedBy(xs[i := xs[j]][j := xs[i]], key)
  {
    hide Less;
  }

  lemma SwapKeepsBag<T>(xs: seq<T>, i: nat, j: nat)
    requires i < |xs| && j < |xs|
    ensures multiset(xs[i := xs[j]][j := xs[i]]) == multiset(xs)
  {
  }

  lemma OneVolumeOrder(all: set<Volume>, v1: seq<Volume>, v2: seq<Volume>)
    requires NoClash(all, NAME) && multiset(v1) == multiset(v2) && SortedBy(v1, NAME) && SortedBy(v2, NAME)
    requires forall v :: v in multiset(v1) ==> v in all
    ensures v1 == v2
  {
    forall x, y | x in v1 && y in v1 && NAME(x) == NAME(y) ensures x == y {
      assert x in multiset(v1) && y in multiset(v1);
    }
    SortIsUnique(v1, v2, NAME);
  }

  lemma OneMountOrder(all: set<Volume>, m1: seq<Mount>, m2: seq<Mount>)
    requires NoClash(all, NAME) && multiset(m1) == multiset(m2) && SortedBy(m1, MOUNT_NAME) && SortedBy(m2, MOUNT_NAME)
    requires forall m :: m in m1 ==> m in Mounts(all)
    ensures m1 == m2
  {
    hide MountOf;
    forall x, y | x in m1 && y in m1 && MOUNT_NAME(x) == MOUNT_NAME(y) ensures x == y {
      var v :| v in all && x == MountOf(v);
      var w :| w in all && y == MountOf(w);
      MountKeepsName(v);
      MountKeepsName(w);
    }
    SortIsUnique(m1, m2, MOUNT_NAME);
  }

  // ----- what a build holds -----

  /** The file a running pod reads a secret's key from, and a config map's. */
  function SecretVolumePath(s: Selector): string { "/argo-events/secrets/" + s.name + "/" + s.key }

  function ConfigMapVolumePath(s: Selector): string { "/argo-events/config/" + s.name + "/" + s.key }

  /** A volume is mounted under its name where its files are looked for. */
  ghost predicate MountedAt(m: Mount, v: Volume) {
    m.name == v.name
    && match v.source
       case EmptyDir => m.path == "/tmp" && !m.readOnly
       case Auth(_) => m.path == "/etc/eventbus/auth" && !m.readOnly
       case Certificates(secret, _) => !m.readOnly && forall key :: SecretVolumePath(Selector(secret, key)) == m.path + "/" + key
       case Secret(secret) => m.readOnly && forall key :: SecretVolumePath(Selector(secret, key)) == m.path + "/" + key
       case ConfigMap(name) => m.readOnly && forall key :: ConfigMapVolumePath(Selector(name, key)) == m.path + "/" + key
  }

  /** Every volume of a build is mounted where its files are looked for, and nothing else is mounted. */
  lemma BuildMounts(inp: Inputs, dns: Label, vols: seq<Volume>, mounts: seq<Mount>)
    requires IsBuild(inp, dns, vols, mounts)
    ensures forall v :: v in vols ==> MountOf(v) in mounts && MountedAt(MountOf(v), v)
    ensures forall m :: m in mounts ==> exists v :: v in vols && m == MountOf(v)
  {
    var secrets, configMaps :| BuiltFrom(inp, dns, vols, mounts, secrets, configMaps);
    hide BuiltFrom, MountOf, MountedAt;
    forall v | v in vols ensures MountOf(v) in mounts && MountedAt(MountOf(v), v) {
      MountIsInBuild(inp, dns, vols, mounts, secrets, configMaps, v);
      MountOfIsRight(v);
    }
    forall m | m in mounts ensures exists v :: v in vols && m == MountOf(v) {
      var v := MountHasVolume(inp, dns, vols, mounts, secrets, configMaps, m);
    }
  }

  lemma MountOfIsRight(v: Volume)
    ensures MountedAt(MountOf(v), v)
  {
  }

  lemma InMounts(inp: Inputs, dns: Label, vols: seq<Volume>, mounts: seq<Mount>, secrets: seq<string>, configMaps: seq<string>,
                 m: Mount)
    requires BuiltFrom(inp, dns, vols, mounts, secrets, configMaps)
    ensures m in mounts <==>
      m in MountsOf(Fixed(inp)) || m in Mounts(CertVolumes(inp, dns))
      || m in MountsOf(Unique(VolumesOf(SecretKind, secrets), NAME)) || m in MountsOf(Unique(VolumesOf(ConfigMapKind, configMaps), NAME))
  {
    UniqueMounts(VolumesOf(SecretKind, secrets));
    UniqueMounts(VolumesOf(ConfigMapKind, configMaps));
    hide IsWalkInOrder, Unique, VolumesOf, MountsOf, Fixed, CertVolumes, Mounts, SortedBy;
    assert m in mounts <==> m in multiset(mounts);
  }

  lemma MountIsInBuild(inp: Inputs, dns: Label, vols: seq<Volume>, mounts: seq<Mount>, secrets: seq<string>, configMaps: seq<string>,
                       v: Volume)
    requires BuiltFrom(inp, dns, vols, mounts, secrets, configMaps) && v in vols
    ensures MountOf(v) in mounts
  {
    InBuild(inp, dns, vols, mounts, secrets, configMaps, v);
    InMounts(inp, dns, vols, mounts, secrets, configMaps, MountOf(v));
    var us, uc := Unique(VolumesOf(SecretKind, secrets), NAME), Unique(VolumesOf(ConfigMapKind, configMaps), NAME);
    MountsOfHas(Fixed(inp), v);
    MountsOfHas(us, v);
    MountsOfHas(uc, v);
    hide BuiltFrom, MountOf, MountsOf, Fixed, CertVolumes, Unique, VolumesOf;
  }

  lemma MountsOfHas(vs: seq<Volume>, v: Volume)
    ensures v in vs ==> MountOf(v) in MountsOf(vs)
  {
    hide MountOf;
    if i :| 0 <= i < |vs| && vs[i] == v { assert MountsOf(vs)[i] == MountOf(v); }
  }

  lemma MountHasVolume(inp: Inputs, dns: Label, vols: seq<Volume>, mounts: seq<Mount>, secrets: seq<string>,
                       configMaps: seq<string>, m: Mount) returns (v: Volume)
    requires BuiltFrom(inp, dns, vols, mounts, secrets, configMaps) && m in mounts
    ensures v in vols && m == MountOf(v)
  {
    hide BuiltFrom, MountOf, MountsOf, Fixed, CertVolumes, Unique, VolumesOf;
    InMounts(inp, dns, vols, mounts, secrets, configMaps, m);
    var us, uc := Unique(VolumesOf(SecretKind, secrets), NAME), Unique(VolumesOf(ConfigMapKind, configMaps), NAME);
    if m in MountsOf(Fixed(inp)) {
      v := VolumeOfMount(Fixed(inp), m);
    } else if m in Mounts(CertVolumes(inp, dns)) {
      v :| v in CertVolumes(inp, dns) && m == MountOf(v);
    } else if m in MountsOf(us) {
      v := VolumeOfMount(us, m);
    } else {
      v := VolumeOfMount(uc, m);
    }
    InBuild(inp, dns, vols, mounts, secrets, configMaps, v);
  }

  lemma VolumeOfMount(vs: seq<Volume>, m: Mount) returns (v: Volume)
    requires m in MountsOf(vs)
    ensures v in vs && m == MountOf(v)
  {
    hide MountOf;
    var i :| 0 <= i < |MountsOf(vs)| && MountsOf(vs)[i] == m;
    v := vs[i];
  }

  /** The name of a selector's volume, spelled out. */
  function VolumeName(kind: Kind, selector: string): string {
    ReplaceAll((if kind.SecretKind? then "secret-" else "cm-") + selector, "_", "-")
  }

  /** The volume of one selector, spelled out. */
  predicate IsVolumeOf(kind: Kind, v: Volume, selector: string) {
    && v.name == VolumeName(kind, selector)
    && v.source == if kind.SecretKind? then Secret(selector) else ConfigMap(selector)
  }

  predicate OfKind(kind: Kind, v: Volume) { if kind.SecretKind? then v.source.Secret? else v.source.ConfigMap? }

  /** The volumes of one kind are those of given selectors, and cover the volume name of each of them. */
  ghost predicate Covers(kind: Kind, vols: seq<Volume>, selectors: multiset<string>) {
    && (forall v :: v in vols && OfKind(kind, v) ==> exists n :: n in selectors && IsVolumeOf(kind, v, n))
    && forall n :: n in selectors ==> exists v :: v in vols && OfKind(kind, v) && v.name == VolumeName(kind, n)
  }

  /** The volumes of one kind are those of selectors that occur, and cover the name of every selector that does. */
  lemma BuildSelectors(inp: Inputs, dns: Label, vols: seq<Volume>, mounts: seq<Mount>, kind: Kind)
    requires IsBuild(inp, dns, vols, mounts)
    ensures Covers(kind, vols, TallyAll(ObjsOf(inp, kind)))
  {
    hide BuiltFrom, Covers, TallyAll;
    var secrets, configMaps :| BuiltFrom(inp, dns, vols, mounts, secrets, configMaps);
    SelectorsOfBuild(inp, dns, vols, mounts, secrets, configMaps, kind);
  }

  lemma SelectorsOfBuild(inp: Inputs, dns: Label, vols: seq<Volume>, mounts: seq<Mount>, secrets: seq<string>,
                         configMaps: seq<string>, kind: Kind)
    requires BuiltFrom(inp, dns, vols, mounts, secrets, configMaps)
    ensures Covers(kind, vols, TallyAll(ObjsOf(inp, kind)))
  {
    hide BuiltFrom, TallyAll, VolumeOf, IsVolumeOf, VolumeName, OfKind, ObjsOf;
    forall v | v in vols && OfKind(kind, v) ensures exists n :: n in TallyAll(ObjsOf(inp, kind)) && IsVolumeOf(kind, v, n) {
      var n := SelectorOfVolume(inp, dns, vols, mounts, secrets, configMaps, kind, v);
    }
    forall n | n in TallyAll(ObjsOf(inp, kind)) ensures exists v :: v in vols && OfKind(kind, v) && v.name == VolumeName(kind, n) {
      var v := VolumeOfSelector(inp, dns, vols, mounts, secrets, configMaps, kind, n);
    }
  }

  function NamesOf(secrets: seq<string>, configMaps: seq<string>, kind: Kind): seq<string> {
    if kind.SecretKind? then secrets else configMaps
  }

  lemma SelectorOfVolume(inp: Inputs, dns: Label, vols: seq<Volume>, mounts: seq<Mount>, secrets: seq<string>,
                         configMaps: seq<string>, kind: Kind, v: Volume) returns (n: string)
    requires BuiltFrom(inp, dns, vols, mounts, secrets, configMaps) && v in vols && OfKind(kind, v)
    ensures n in TallyAll(ObjsOf(inp, kind)) && IsVolumeOf(kind, v, n)
  {
    var names := NamesOf(secrets, configMaps, kind);
    WalkTallyInOrder(ObjsOf(inp, kind), names);
    KindsApart(SecretKind, secrets);
    KindsApart(ConfigMapKind, configMaps);
    FixedApart(inp, dns);
    InBuild(inp, dns, vols, mounts, secrets, configMaps, v);
    hide BuiltFrom, IsWalkInOrder, TallyAll, Unique, VolumesOf, VolumeOf, IsVolumeOf, Fixed, CertVolumes;
    n := ListedSelector(kind, names, v);
    VolumeSpelledOut(kind, n);
    assert n in multiset(names);
  }

  lemma VolumeOfSelector(inp: Inputs, dns: Label, vols: seq<Volume>, mounts: seq<Mount>, secrets: seq<string>,
                         configMaps: seq<string>, kind: Kind, n: string) returns (v: Volume)
    requires BuiltFrom(inp, dns, vols, mounts, secrets, configMaps) && n in TallyAll(ObjsOf(inp, kind))
    ensures v in vols && OfKind(kind, v) && v.name == VolumeName(kind, n)
  {
    var names := NamesOf(secrets, configMaps, kind);
    WalkTallyInOrder(ObjsOf(inp, kind), names);
    VolumeSpelledOut(kind, n);
    hide BuiltFrom, IsWalkInOrder, TallyAll, Unique, VolumesOf, VolumeOf, VolumeName, Fixed, CertVolumes;
    assert n in multiset(names);
    v := NameCovered(kind, names, n);
    InBuild(inp, dns, vols, mounts, secrets, configMaps, v);
  }

  lemma VolumeSpelledOut(kind: Kind, n: string)
    ensures IsVolumeOf(kind, VolumeOf(kind, n), n)
  {
  }

  lemma ListedSelector(kind: Kind, names: seq<string>, v: Volume) returns (n: string)
    requires v in Unique(VolumesOf(kind, names), NAME)
    ensures n in names && v == VolumeOf(kind, n)
  {
    UniqueWithin(VolumesOf(kind, names), NAME);
    var i :| 0 <= i < |names| && VolumesOf(kind, names)[i] == v;
    n := names[i];
  }

  lemma NameCovered(kind: Kind, names: seq<string>, n: string) returns (v: Volume)
    requires n in names
    ensures v in Unique(VolumesOf(kind, names), NAME) && v.name == VolumeOf(kind, n).name && OfKind(kind, v)
  {
    var i :| 0 <= i < |names| && names[i] == n;
    VolumeAt(kind, names, i);
    v := UniqueRepresents(VolumesOf(kind, names), NAME, VolumeOf(kind, n));
    KindsApart(kind, names);
  }

  /** The keys wanted of one secret. */
  function KeysOf(certs: seq<Option<Selector>>, secret: string): seq<string> {
    if certs == [] then [] else KeyOf(certs[0], secret) + KeysOf(certs[1..], secret)
  }

  /** The key of a selector that is in a secret. */
  function KeyOf(c: Option<Selector>, secret: string): seq<string> {
    if c.Some? && c.value.name == secret then [c.value.key] else []
  }

  lemma {:induction false} KeysOfSnoc(certs: seq<Option<Selector>>, c: Option<Selector>, secret: string)
    ensures KeysOf(certs + [c], secret) == KeysOf(certs, secret) + KeyOf(c, secret)
  {
    hide KeyOf;
    if certs == [] {
      assert (certs + [c])[1..] == [] && KeysOf([], secret) == [];
    } else {
      KeysOfSnoc(certs[1..], c, secret);
      assert (certs + [c])[1..] == certs[1..] + [c];
      assert KeysOf(certs + [c], secret) == KeyOf(certs[0], secret) + (KeysOf(certs[1..], secret) + KeyOf(c, secret));
    }
  }

  lemma {:induction false} CertKeysAreKeysOf(certs: seq<Option<Selector>>, secret: string)
    ensures secret in CertKeys(certs) <==> KeysOf(certs, secret) != []
    ensures secret in CertKeys(certs) ==> CertKeys(certs)[secret] == KeysOf(certs, secret)
  {
    if certs != [] {
      var n := |certs| - 1;
      CertKeysAreKeysOf(certs[..n], secret);
      KeysOfSnoc(certs[..n], certs[n], secret);
      assert certs[..n] + [certs[n]] == certs;
    }
  }

  /** The remaining volumes: one for temporary files, the access secret's, and one per certificate secret with
      all its keys. */
  lemma BuildOthers(inp: Inputs, dns: Label, vols: seq<Volume>, mounts: seq<Mount>, v: Volume)
    requires IsBuild(inp, dns, vols, mounts) && !v.source.Secret? && !v.source.ConfigMap?
    ensures v in vols <==>
      || v == Volume("tmp", EmptyDir)
      || (inp.auth.Some? && v == Volume("auth-volume", Auth(inp.auth.value)))
      || (v.source.Certificates? && v.name == dns(v.source.secret) && v.source.keys == KeysOf(inp.certs, v.source.secret)
          && v.source.keys != [])
  {
    var secrets, configMaps :| BuiltFrom(inp, dns, vols, mounts, secrets, configMaps);
    InBuild(inp, dns, vols, mounts, secrets, configMaps, v);
    KindsApart(SecretKind, secrets);
    KindsApart(ConfigMapKind, configMaps);
    hide BuiltFrom, IsBuild, Unique, VolumesOf;
    if v.source.Certificates? {
      CertKeysAreKeysOf(inp.certs, v.source.secret);
      hide CertKeys, KeysOf;
      assert v.source.secret in CertKeys(inp.certs) ==>
        (v in CertVolumes(inp, dns) <==> v == CertVolume(inp, dns, v.source.secret));
    } else {
      hide CertKeys, KeysOf;
    }
  }

  /** An event source as reflection sees it: a pointer to its metadata and a specification with one kind of
      events, a map whose entries each hold a selector. */
  function EventSourceView(entries: seq<Selector>): Value {
    Pointer(Some(Struct([Leaf, Struct([Map(seq(|entries|, i requires 0 <= i < |entries| => Struct([Leaf, Found(entries[i])])))])])))
  }

  /** Secrets `a_b` and `a-b`, named by two events of one kind: each comes first in some walk. */
  lemma UnderscoreClash(objs: seq<Value>, k: string, l: string)
    requires objs != [] && objs[0] == EventSourceView([Selector("a_b", k), Selector("a-b", l)])
    ensures !OneFirst(SecretKind, objs)
  {
    var a, b := Selector("a_b", k), Selector("a-b", l);
    var hit := Named(SecretKind, "secret-a-b");
    OneVolumeName();
    hide VolumeOf;
    FirstsOfTwo(a, b, hit);
    assert a.name in FirstsInOrder(objs, hit) && b.name in FirstsInOrder(objs, hit);
    assert a.name[1] != b.name[1];
    hide Named, FirstsInOrder, Firsts;
  }

  lemma FirstsOfTwo(a: Selector, b: Selector, hit: string -> bool)
    requires hit(a.name) && hit(b.name)
    ensures Firsts(EventSourceView([a, b]), hit) == {a.name, b.name}
  {
    var entries := [Struct([Leaf, Found(a)]), Struct([Leaf, Found(b)])];
    FirstsOfEntry(a, hit);
    FirstsOfEntry(b, hit);
    hide FirstsInOrder;
    assert entries[1..] == [entries[1]] && [entries[1]][1..] == [];
    assert FirstsAmong([entries[1]], hit) == {b.name};
    assert FirstsAmong(entries, hit) == {a.name, b.name};
    var spec := Struct([Map(entries)]);
    FirstsOfFields([], Map(entries), hit);
    FirstsOfFields([Leaf], spec, hit);
    assert [] + [Map(entries)] == [Map(entries)] && [Leaf] + [spec] == [Leaf, spec];
    assert seq(2, i requires 0 <= i < 2 => Struct([Leaf, Found([a, b][i])])) == entries;
    assert EventSourceView([a, b]) == Pointer(Some(Struct([Leaf, spec])));
  }

  lemma FirstsOfEntry(s: Selector, hit: string -> bool)
    requires hit(s.name)
    ensures Firsts(Struct([Leaf, Found(s)]), hit) == {s.name}
  {
    FirstsOfFields([Leaf], Found(s), hit);
    assert [Leaf] + [Found(s)] == [Leaf, Found(s)];
  }

  /** Fields without selectors before the last one do not matter. */
  lemma {:induction false} FirstsOfFields(before: seq<Value>, last: Value, hit: string -> bool)
    requires forall i :: 0 <= i < |before| ==> before[i] == Leaf
    ensures FirstsInOrder(before + [last], hit) == Firsts(last, hit)
  {
    if before == [] {
      assert [] + [last] == [last] && [last][1..] == [];
    } else {
      FirstsOfFields(before[1..], last, hit);
      assert (before + [last])[1..] == before[1..] + [last] && (before + [last])[0] == Leaf;
    }
  }

  lemma OneVolumeName()
    ensures VolumeOf(SecretKind, "a_b").name == VolumeOf(SecretKind, "a-b").name == "secret-a-b"
  {
    ReplaceCharAt("secret-a_b", '_', '-');
    ReplaceCharAt("secret-a-b", '_', '-');
    assert "secret-" + "a_b" == "secret-a_b" && "secret-" + "a-b" == "secret-a-b";
  }
}
