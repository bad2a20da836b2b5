/** JSON objects to Lua tables and back (pkg/sensors/dependencies/transform.go, mapToTable and
    toGoValue), as the Lua transforms and script filters use them. */
module LuaConversion {

  datatype Json = Null | Bool(b: bool) | Num(n: real) | Str(s: string)
                | Arr(items: seq<Json>) | Obj(members: map<string, Json>)

  /** A Lua value. A table has an array part, a part keyed by strings, and may carry the metatable
      flag `__is_array`. Functions and user data are not modelled. */
  datatype Lua = Nil | LBool(b: bool) | LNumber(n: real) | LString(s: string)
               | LTable(elems: seq<Lua>, fields: map<string, Lua>, isArray: bool)

  // ----- JSON to Lua -----

  function TableOf(j: Json): Lua
    requires j.Obj?
    decreases j, 1
  {
    LTable([], map k | k in j.members && j.members[k] != Null :: FieldOf(j.members[k]), false)
  }

  function FieldOf(j: Json): Lua
    requires j != Null
    decreases j, 2
  {
    match j
    case Bool(b) => LBool(b)
    case Num(n) => LNumber(n)
    case Str(s) => LString(s)
    case Arr(items) => LTable(ItemsOf(items), map[], false)
    case Obj(_) => TableOf(j)
  }

  /** Elements of an array: nulls and nested arrays have no counterpart. */
  function ItemsOf(items: seq<Json>): seq<Lua>
    decreases items, 0
  {
    if items == [] then []
    else if Kept(items[0]) then [FieldOf(items[0])] + ItemsOf(items[1..])
    else ItemsOf(items[1..])
  }

  predicate Kept(j: Json) { !j.Null? && !j.Arr? }

  method MapToTable(j: Json) returns (t: Lua)
    requires j.Obj?
    ensures t == TableOf(j)
    decreases j
  {
    var m := j.members;
    var fields: map<string, Lua> := map[];
    var rest := m.Keys;
    while rest != {}
      invariant rest <= m.Keys
      invariant fields == map k | k in m && k !in rest && m[k] != Null :: FieldOf(m[k])
    {
      var k :| k in rest;
      rest := rest - {k};
      match m[k] {
        case Null =>
        case Bool(b) => fields := fields[k := LBool(b)];
        case Num(n) => fields := fields[k := LNumber(n)];
        case Str(s) => fields := fields[k := LString(s)];
        case Obj(_) =>
          var table := MapToTable(m[k]);
          fields := fields[k := table];
        case Arr(items) =>
          var slice: seq<Lua> := [];
          assert items[..0] == [];
          for i := 0 to |items|
            invariant slice == ItemsOf(items[..i])
          {
            ItemsOfSnoc(items[..i], items[i]);
            assert items[..i + 1] == items[..i] + [items[i]];
            match items[i] {
              case Obj(_) =>
                var table := MapToTable(items[i]);
                slice := slice + [table];
              case Num(n) => slice := slice + [LNumber(n)];
              case Str(s) => slice := slice + [LString(s)];
              case Bool(b) => slice := slice + [LBool(b)];
              case Null =>
              case Arr(_) =>
            }
          }
          assert items[..|items|] == items;
          fields := fields[k := LTable(slice, map[], false)];
      }
    }
    t := LTable([], fields, false);
  }

  lemma ItemsOfSnoc(items: seq<Json>, j: Json)
    ensures ItemsOf(items + [j]) == ItemsOf(items) + if Kept(j) then [FieldOf(j)] else []
  {
    if items == [] {
      assert items + [j] == [j] && [j][1..] == [];
    } else {
      assert (items + [j])[1..] == items[1..] + [j];
      ItemsOfSnoc(items[1..], j);
    }
  }

  // ----- Lua to JSON -----

  /** Length of the array part up to its last non-nil element. */
  function MaxN(elems: seq<Lua>): (n: nat)
    ensures n <= |elems| && (n > 0 ==> elems[n - 1] != Nil)
    ensures forall i :: n <= i < |elems| ==> elems[i] == Nil
  {
    if elems == [] then 0
    else if elems[|elems| - 1] != Nil then |elems| else MaxN(elems[..|elems| - 1])
  }

  function GoValue(v: Lua): Json {
    match v
    case Nil => Null
    case LBool(b) => Bool(b)
    case LNumber(n) => Num(n)
    case LString(s) => Str(s)
    case LTable(elems, fields, isArray) =>
      var n := MaxN(elems);
      if isArray || n > 0 then Arr(seq(n, i requires 0 <= i < n => GoValue(elems[i])))
      else Obj(map k | k in fields && fields[k] != Nil :: GoValue(fields[k]))
  }

  method ToGoValue(v: Lua) returns (j: Json)
    ensures j == GoValue(v)
    decreases v
  {
    match v {
      case Nil => j := Null;
      case LBool(b) => j := Bool(b);
      case LNumber(n) => j := Num(n);
      case LString(s) => j := Str(s);
      case LTable(elems, fields, isArray) =>
        var maxn := MaxN(elems);
        if isArray || maxn > 0 {
          var items: seq<Json> := [];
          for i := 0 to maxn
            invariant |items| == i && forall k :: 0 <= k < i ==> items[k] == GoValue(elems[k])
          {
            var item := ToGoValue(elems[i]);
            items := items + [item];
          }
          j := Arr(items);
        } else {
          var members: map<string, Json> := map[];
          var rest := fields.Keys;
          while rest != {}
            invariant rest <= fields.Keys
            invariant members == map k | k in fields && k !in rest && fields[k] != Nil :: GoValue(fields[k])
          {
            var k :| k in rest;
            rest := rest - {k};
            if fields[k] != Nil {
              var member := ToGoValue(fields[k]);
              members := members[k := member];
            }
          }
          j := Obj(members);
        }
    }
  }

  // ----- what a round trip keeps -----

  /** The normal form of a JSON value: null members are dropped, nulls and arrays inside arrays are
      dropped, and an array left with nothing becomes the empty object. */
  function Normal(j: Json): Json
    decreases j, 1
  {
    match j
    case Obj(members) => Obj(map k | k in members && members[k] != Null :: Normal(members[k]))
    case Arr(items) => if NormalItems(items) == [] then Obj(map[]) else Arr(NormalItems(items))
    case _ => j
  }

  function NormalItems(items: seq<Json>): seq<Json>
    decreases items, 0
  {
    if items == [] then []
    else if Kept(items[0]) then [Normal(items[0])] + NormalItems(items[1..])
    else NormalItems(items[1..])
  }

  /** No null member, no empty array, no null or array inside an array, at any depth. */
  predicate Clean(j: Json)
    decreases j
  {
    match j
    case Obj(members) => forall k :: k in members ==> members[k] != Null && Clean(members[k])
    case Arr(items) => items != [] && forall i :: 0 <= i < |items| ==> Kept(items[i]) && Clean(items[i])
    case _ => true
  }

  /** An object sent through Lua and back is its normal form. */
  lemma {:induction false} RoundTrip(j: Json)
    requires j.Obj?
    ensures GoValue(TableOf(j)) == Normal(j)
    decreases j, 1
  {
    forall k | k in j.members && j.members[k] != Null
      ensures FieldOf(j.members[k]) != Nil && GoValue(FieldOf(j.members[k])) == Normal(j.members[k])
    {
      FieldRoundTrip(j.members[k]);
    }
  }

  lemma {:induction false} FieldRoundTrip(j: Json)
    requires j != Null
    ensures FieldOf(j) != Nil && GoValue(FieldOf(j)) == Normal(j)
    decreases j, 2
  {
    match j
    case Obj(_) => RoundTrip(j);
    case Arr(items) =>
      ItemsRoundTrip(items);
      FullArray(ItemsOf(items));
      assert GoValue(FieldOf(j)) == Normal(j);
    case _ =>
  }

  lemma {:induction false} ItemsRoundTrip(items: seq<Json>)
    ensures |ItemsOf(items)| == |NormalItems(items)|
    ensures forall i :: 0 <= i < |ItemsOf(items)| ==>
      ItemsOf(items)[i] != Nil && GoValue(ItemsOf(items)[i]) == NormalItems(items)[i]
    decreases items, 0
  {
    if items != [] {
      ItemsRoundTrip(items[1..]);
      if Kept(items[0]) { FieldRoundTrip(items[0]); }
    }
  }

  lemma FullArray(elems: seq<Lua>)
    requires forall i :: 0 <= i < |elems| ==> elems[i] != Nil
    ensures MaxN(elems) == |elems|
  {
  }

  lemma {:induction false} NormalIsClean(j: Json)
    ensures Clean(Normal(j))
    ensures Kept(j) ==> Kept(Normal(j))
    ensures j != Null ==> Normal(j) != Null
    decreases j, 1
  {
    match j
    case Obj(members) =>
      forall k | k in members && members[k] != Null
        ensures Normal(members[k]) != Null && Clean(Normal(members[k]))
      {
        NormalIsClean(members[k]);
      }
    case Arr(items) => NormalItemsClean(items);
    case _ =>
  }

  lemma {:induction false} NormalItemsClean(items: seq<Json>)
    ensures forall x :: x in NormalItems(items) ==> Kept(x) && Clean(x)
    decreases items, 0
  {
    if items != [] {
      NormalItemsClean(items[1..]);
      NormalIsClean(items[0]);
    }
  }

  /** The normal form is the value itself exactly for the values without the dropped shapes. */
  lemma {:induction false} NormalFixesClean(j: Json)
    ensures Normal(j) == j <==> Clean(j)
    decreases j, 1
  {
    if Clean(j) {
      match j
      case Obj(members) =>
        forall k | k in members ensures Normal(members[k]) == members[k] { NormalFixesClean(members[k]); }
      case Arr(items) => CleanItems(items);
      case _ =>
    } else if Normal(j) == j {
      NormalIsClean(j);
    }
  }

  lemma {:induction false} CleanItems(items: seq<Json>)
    requires forall i :: 0 <= i < |items| ==> Kept(items[i]) && Clean(items[i])
    ensures NormalItems(items) == items
    decreases items, 0
  {
    if items != [] {
      NormalFixesClean(items[0]);
      CleanItems(items[1..]);
    }
  }

  /** A round trip changes an object exactly when it has one of the dropped shapes, and a second
      round trip changes nothing. */
  lemma RoundTripStable(j: Json)
    requires j.Obj?
    ensures var back := GoValue(TableOf(j));
      && back.Obj?
      && (back == j <==> Clean(j))
      && GoValue(TableOf(back)) == back
  {
    RoundTrip(j);
    NormalFixesClean(j);
    NormalIsClean(j);
    NormalFixesClean(Normal(j));
    RoundTrip(Normal(j));
  }

  // ----- what a script can produce -----

  /** No object has a null member and no array ends in null, at any depth. */
  predicate Producible(j: Json)
    decreases j
  {
    match j
    case Obj(members) => forall k :: k in members ==> members[k] != Null && Producible(members[k])
    case Arr(items) =>
      && (items != [] ==> items[|items| - 1] != Null)
      && forall i :: 0 <= i < |items| ==> Producible(items[i])
    case _ => true
  }

  /** No array is empty, at any depth. */
  predicate NoEmptyArray(j: Json)
    decreases j
  {
    match j
    case Obj(members) => forall k :: k in members ==> NoEmptyArray(members[k])
    case Arr(items) => items != [] && forall i :: 0 <= i < |items| ==> NoEmptyArray(items[i])
    case _ => true
  }

  /** No table carries the flag `__is_array`. */
  predicate Unflagged(v: Lua)
    decreases v
  {
    v.LTable? ==>
      && !v.isArray && (forall i :: 0 <= i < |v.elems| ==> Unflagged(v.elems[i]))
      && forall k :: k in v.fields ==> Unflagged(v.fields[k])
  }

  /** A Lua value for a JSON value; only empty arrays need the flag. */
  function Scripted(j: Json): Lua {
    match j
    case Null => Nil
    case Bool(b) => LBool(b)
    case Num(n) => LNumber(n)
    case Str(s) => LString(s)
    case Arr(items) => LTable(seq(|items|, i requires 0 <= i < |items| => Scripted(items[i])), map[], items == [])
    case Obj(members) => LTable([], map k | k in members :: Scripted(members[k]), false)
  }

  lemma {:induction false} ScriptedComesBack(j: Json)
    requires Producible(j)
    ensures GoValue(Scripted(j)) == j && (Scripted(j) == Nil <==> j == Null)
    ensures NoEmptyArray(j) ==> Unflagged(Scripted(j))
    decreases j
  {
    match j
    case Obj(members) =>
      forall k | k in members { ScriptedComesBack(members[k]); }
    case Arr(items) =>
      forall i | 0 <= i < |items| { ScriptedComesBack(items[i]); }
      var elems := Scripted(j).elems;
      assert items != [] ==> elems[|elems| - 1] != Nil;
      assert MaxN(elems) == |elems|;
    case _ =>
  }

  lemma {:induction false} GoValueProducible(v: Lua)
    ensures Producible(GoValue(v)) && (GoValue(v) == Null <==> v == Nil)
    ensures Unflagged(v) ==> NoEmptyArray(GoValue(v))
    decreases v
  {
    if v.LTable? {
      forall i | 0 <= i < |v.elems| { GoValueProducible(v.elems[i]); }
      forall k | k in v.fields { GoValueProducible(v.fields[k]); }
    }
  }

  /** What a transformation script, which has to return a table, can make of an event: exactly the objects
      and arrays in which no object has a null member and no array ends in null; and without the flag, those
      of them that have no empty array. */
  lemma ScriptsProduceExactly(j: Json)
    ensures (exists v: Lua :: v.LTable? && GoValue(v) == j) <==> (j.Obj? || j.Arr?) && Producible(j)
    ensures (exists v: Lua :: v.LTable? && Unflagged(v) && GoValue(v) == j)
      <==> (j.Obj? || j.Arr?) && Producible(j) && NoEmptyArray(j)
  {
    if (j.Obj? || j.Arr?) && Producible(j) {
      ScriptedComesBack(j);
      assert Scripted(j).LTable?;
    }
    forall v: Lua | v.LTable? && GoValue(v) == j
      ensures (j.Obj? || j.Arr?) && Producible(j) && (Unflagged(v) ==> NoEmptyArray(j))
    {
      GoValueProducible(v);
    }
  }
}
