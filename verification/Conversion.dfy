/**
 Conversion between JSON and Lua values (src/scripting/conversion.rs). Lua tables cannot hold
 nil and do not tell arrays from objects; the theorem says exactly which JSON values come back
 unchanged.
 */
module Conversion {
  import opened Numbers

  /** Integers as JSON numbers carry them, and floats as exact reals. */
  datatype Json =
    | Null
    | Bool(b: bool)
    | Int(i: int)
    | Float(f: real)
    | Str(s: string)
    | Arr(items: seq<Json>)
    | Obj(fields: map<string, Json>)

  datatype Key = IntKey(i: int) | StrKey(s: string)

  /** `Opaque` stands for functions, userdata and threads. */
  datatype Lua =
    | Nil
    | Boolean(b: bool)
    | Integer(i: int)
    | Number(f: real)
    | Text(s: string)
    | Table(entries: map<Key, Lua>)
    | Opaque

  predicate FitsI64(i: int) {
    0 <= i + I64_LIMIT && i < I64_LIMIT
  }

  /** Assigning to a table key; assigning nil removes it. */
  function Set(t: map<Key, Lua>, k: Key, v: Lua): map<Key, Lua> {
    if v.Nil? then t - {k} else t[k := v]
  }

  // ---------------------------------------------------------------------------
  // JSON to Lua
  // ---------------------------------------------------------------------------

  /** The table made by assigning the values to 1, 2, 3 and so on. */
  function ArrayTable(vals: seq<Lua>): map<Key, Lua> {
    if vals == [] then map[]
    else Set(ArrayTable(vals[..|vals| - 1]), IntKey(|vals|), vals[|vals| - 1])
  }

  function StrKeys(names: set<string>): set<Key> {
    set s | s in names :: StrKey(s)
  }

  /** The table made by assigning every field to its name. */
  function ObjectTable(vals: map<string, Lua>): map<Key, Lua> {
    map k | k in StrKeys(vals.Keys) && !vals[k.s].Nil? :: vals[k.s]
  }

  function JsonToLua(v: Json): Lua
    decreases v
  {
    match v
    case Null => Nil
    case Bool(b) => Boolean(b)
    case Int(i) => if FitsI64(i) then Integer(i) else Number(i as real)
    case Float(f) => Number(f)
    case Str(s) => Text(s)
    case Arr(items) => Table(ArrayTable(seq(|items|, k requires 0 <= k < |items| => JsonToLua(items[k]))))
    case Obj(fields) => Table(ObjectTable(map s | s in fields :: JsonToLua(fields[s])))
  }

  method BuildArrayTable(vals: seq<Lua>) returns (t: map<Key, Lua>)
    ensures t == ArrayTable(vals)
  {
    t := map[];
    var k := 0;
    while k < |vals|
      invariant 0 <= k <= |vals| && t == ArrayTable(vals[..k])
    {
      t := Set(t, IntKey(k + 1), vals[k]);
      assert vals[..k + 1][..k] == vals[..k];
      k := k + 1;
    }
    assert vals[..k] == vals;
  }

  method BuildObjectTable(vals: map<string, Lua>) returns (t: map<Key, Lua>)
    ensures t == ObjectTable(vals)
  {
    t := map[];
    var todo := vals.Keys;
    while todo != {}
      invariant todo <= vals.Keys
      invariant forall k :: k in t <==> k in StrKeys(vals.Keys - todo) && !vals[k.s].Nil?
      invariant forall k :: k in t ==> t[k] == vals[k.s]
      decreases |todo|
    {
      var s :| s in todo;
      t := Set(t, StrKey(s), vals[s]);
      todo := todo - {s};
    }
    assert vals.Keys - todo == vals.Keys;
  }

  // ---------------------------------------------------------------------------
  // Lua to JSON
  // ---------------------------------------------------------------------------

  predicate PositiveKey(k: Key) {
    k.IntKey? && k.i > 0
  }

  ghost predicate ArrayLike(t: map<Key, Lua>) {
    forall k :: k in t ==> PositiveKey(k)
  }

  /** The largest index, or zero for the empty table. */
  ghost predicate IsMaxIndex(t: map<Key, Lua>, max: int) {
    && (forall k :: k in t && PositiveKey(k) ==> k.i <= max)
    && (if max == 0 then forall k :: k in t ==> !PositiveKey(k) else max > 0 && IntKey(max) in t)
  }

  /** The scan that decides whether a table becomes an array, over the pairs in any order. */
  method DetectArray(t: map<Key, Lua>) returns (isArray: bool, maxIndex: int)
    ensures isArray <==> ArrayLike(t)
    ensures isArray ==> IsMaxIndex(t, maxIndex)
  {
    isArray, maxIndex := true, 0;
    var todo := t.Keys;
    while todo != {}
      invariant todo <= t.Keys && isArray && maxIndex >= 0
      invariant forall k :: k in t && k !in todo ==> PositiveKey(k) && k.i <= maxIndex
      invariant maxIndex > 0 ==> IntKey(maxIndex) in t
      invariant maxIndex == 0 ==> todo == t.Keys
      decreases |todo|
    {
      var k :| k in todo;
      if k.IntKey? && k.i > 0 {
        maxIndex := if maxIndex < k.i then k.i else maxIndex;
      } else {
        isArray := false;
        break;
      }
      todo := todo - {k};
    }
  }

  lemma {:induction false} MaxIndexExists(t: map<Key, Lua>)
    ensures exists m :: IsMaxIndex(t, m)
    decreases |t|
  {
    if exists k :: k in t && PositiveKey(k) {
      var k :| k in t && PositiveKey(k);
      var rest := t - {k};
      assert rest.Keys == t.Keys - {k} && |rest.Keys| == |rest| && |t.Keys| == |t|;
      MaxIndexExists(rest);
      var m :| IsMaxIndex(rest, m);
      assert forall o :: o in t ==> o == k || o in rest;
      assert IsMaxIndex(t, if m < k.i then k.i else m);
    } else {
      assert IsMaxIndex(t, 0);
    }
  }

  lemma MaxIndexUnique(t: map<Key, Lua>, m: int, n: int)
    requires IsMaxIndex(t, m) && IsMaxIndex(t, n)
    ensures m == n
  {
  }

  ghost function MaxIndex(t: map<Key, Lua>): (m: int)
    ensures IsMaxIndex(t, m)
  {
    MaxIndexExists(t);
    var m :| IsMaxIndex(t, m);
    m
  }

  /** The object key an entry goes to. */
  function Name(k: Key): string {
    match k
    case IntKey(i) => if i < 0 then "-" + Decimal(-i) else Decimal(i)
    case StrKey(s) => s
  }

  ghost function Names(t: map<Key, Lua>): set<string> {
    set k | k in t :: Name(k)
  }

  /** Where several keys have the same name, one of them wins. */
  ghost function Winner(t: map<Key, Lua>, s: string): (k: Key)
    requires s in Names(t)
    ensures k in t && Name(k) == s
  {
    var k :| k in t && Name(k) == s;
    k
  }

  ghost function LuaToJson(l: Lua): Json
    decreases l
  {
    match l
    case Nil => Null
    case Boolean(b) => Bool(b)
    case Integer(i) => Int(i)
    case Number(f) => Float(f)
    case Text(s) => Str(s)
    case Table(t) =>
      if ArrayLike(t) && MaxIndex(t) > 0 then
        Arr(seq(MaxIndex(t), k requires 0 <= k < MaxIndex(t) =>
                  if IntKey(k + 1) in t then LuaToJson(t[IntKey(k + 1)]) else Null))
      else
        Obj(map s | s in Names(t) :: LuaToJson(t[Winner(t, s)]))
    case Opaque => Null
  }

  // ---------------------------------------------------------------------------
  // The round trip
  // ---------------------------------------------------------------------------

  /** At every depth: integers fit 64 signed bits, no null field, no empty array, no array ending in null. */
  predicate Survives(v: Json)
    decreases v
  {
    match v
    case Int(i) => FitsI64(i)
    case Arr(items) =>
      && items != [] && !items[|items| - 1].Null?
      && forall k :: 0 <= k < |items| ==> Survives(items[k])
    case Obj(fields) => forall s :: s in fields ==> !fields[s].Null? && Survives(fields[s])
    case _ => true
  }

  lemma NilOnlyForNull(v: Json)
    ensures JsonToLua(v).Nil? <==> v.Null?
  {
  }

  lemma {:induction false} ArrayTableEntries(vals: seq<Lua>)
    ensures forall k :: k in ArrayTable(vals)
                   <==> k.IntKey? && 1 <= k.i <= |vals| && !vals[k.i - 1].Nil?
    ensures forall k :: k in ArrayTable(vals) ==> ArrayTable(vals)[k] == vals[k.i - 1]
  {
    if vals != [] {
      ArrayTableEntries(vals[..|vals| - 1]);
    }
  }

  lemma MaxOfArrayTable(vals: seq<Lua>, t: map<Key, Lua>, k: nat)
    requires k < |vals| && !vals[k].Nil?
    requires forall o :: o in t <==> o.IntKey? && 1 <= o.i <= |vals| && !vals[o.i - 1].Nil?
    ensures var max := MaxIndex(t);
      0 < max <= |vals| && !vals[max - 1].Nil? && forall i :: max <= i < |vals| ==> vals[i].Nil?
  {
    assert IntKey(k + 1) in t;
    var max := MaxIndex(t);
    forall i | max <= i < |vals| ensures vals[i].Nil? {
      assert IntKey(i + 1) !in t;
    }
  }

  lemma ElementBack(vals: seq<Lua>, k: nat)
    requires ArrayLike(ArrayTable(vals)) && k < MaxIndex(ArrayTable(vals)) <= |vals|
    ensures LuaToJson(Table(ArrayTable(vals))).Arr?
    ensures |LuaToJson(Table(ArrayTable(vals))).items| == MaxIndex(ArrayTable(vals))
    ensures LuaToJson(Table(ArrayTable(vals))).items[k] == LuaToJson(vals[k])
  {
    ArrayTableEntries(vals);
    assert IntKey(k + 1) in ArrayTable(vals) <==> !vals[k].Nil?;
  }

  lemma NothingBack(vals: seq<Lua>)
    requires forall k :: 0 <= k < |vals| ==> vals[k].Nil?
    ensures LuaToJson(Table(ArrayTable(vals))) == Obj(map[])
  {
    var t := ArrayTable(vals);
    ArrayTableEntries(vals);
    assert t == map[];
    assert Names(t) == {};
    MaxIndexUnique(t, MaxIndex(t), 0);
  }

  /** The values up to the last that is not nil, or the empty object when all are. */
  ghost predicate Trimmed(vals: seq<Lua>, j: Json) {
    if forall k :: 0 <= k < |vals| ==> vals[k].Nil? then j == Obj(map[])
    else
      && j.Arr? && 0 < |j.items| <= |vals| && !vals[|j.items| - 1].Nil?
      && (forall k :: |j.items| <= k < |vals| ==> vals[k].Nil?)
      && (forall k :: 0 <= k < |j.items| ==> j.items[k] == LuaToJson(vals[k]))
  }

  lemma SomethingBack(vals: seq<Lua>, t: map<Key, Lua>, j: Json, k: nat)
    requires t == ArrayTable(vals) && j == LuaToJson(Table(t))
    requires k < |vals| && !vals[k].Nil?
    ensures Trimmed(vals, j)
  {
    ArrayTableEntries(vals);
    MaxOfArrayTable(vals, t, k);
    ElementBack(vals, 0);
    forall i | 0 <= i < |j.items| ensures j.items[i] == LuaToJson(vals[i]) {
      ElementBack(vals, i);
    }
  }

  /** What comes back for an array. */
  lemma ArrayBack(vals: seq<Lua>)
    ensures Trimmed(vals, LuaToJson(Table(ArrayTable(vals))))
  {
    if forall k :: 0 <= k < |vals| ==> vals[k].Nil? {
      NothingBack(vals);
    } else {
      var k :| 0 <= k < |vals| && !vals[k].Nil?;
      SomethingBack(vals, ArrayTable(vals), LuaToJson(Table(ArrayTable(vals))), k);
    }
  }

  lemma ObjectTableEntries(vals: map<string, Lua>)
    ensures forall k :: k in ObjectTable(vals) <==> k.StrKey? && k.s in vals && !vals[k.s].Nil?
    ensures forall k :: k in ObjectTable(vals) ==> ObjectTable(vals)[k] == vals[k.s]
  {
  }

  lemma ObjectIsNoArray(vals: map<string, Lua>)
    ensures ArrayLike(ObjectTable(vals)) ==> MaxIndex(ObjectTable(vals)) == 0
  {
    var t := ObjectTable(vals);
    ObjectTableEntries(vals);
    assert MaxIndex(t) > 0 ==> IntKey(MaxIndex(t)) in t;
  }

  lemma ObjectNames(vals: map<string, Lua>, s: string)
    ensures s in Names(ObjectTable(vals)) <==> s in vals && !vals[s].Nil?
    ensures s in Names(ObjectTable(vals)) ==> Winner(ObjectTable(vals), s) == StrKey(s)
  {
    var t := ObjectTable(vals);
    ObjectTableEntries(vals);
    if s in vals && !vals[s].Nil? {
      assert StrKey(s) in t && Name(StrKey(s)) == s;
    }
  }

  /** What comes back for an object: its fields that are not nil. */
  lemma ObjectBack(vals: map<string, Lua>, s: string)
    ensures var j := LuaToJson(Table(ObjectTable(vals)));
      && j.Obj? && (s in j.fields <==> s in vals && !vals[s].Nil?)
      && (s in j.fields ==> j.fields[s] == LuaToJson(vals[s]))
  {
    ObjectIsNoArray(vals);
    ObjectNames(vals, s);
    ObjectTableEntries(vals);
  }

  /** An element or field with its Lua value: nil exactly for null, and coming back exactly if it survives. */
  ghost predicate Carries(l: Lua, v: Json) {
    (l.Nil? <==> v.Null?) && (LuaToJson(l) == v <==> Survives(v))
  }

  lemma ArrayRoundTrip(items: seq<Json>, vals: seq<Lua>)
    requires |vals| == |items| && forall k :: 0 <= k < |items| ==> Carries(vals[k], items[k])
    ensures LuaToJson(Table(ArrayTable(vals))) == Arr(items) <==> Survives(Arr(items))
  {
    ArrayBack(vals);
    var j := LuaToJson(Table(ArrayTable(vals)));
    if items != [] {
      assert Carries(vals[|items| - 1], items[|items| - 1]);
      if Survives(Arr(items)) {
        assert j.items == items;
      } else if !items[|items| - 1].Null? {
        var k :| 0 <= k < |items| && !Survives(items[k]);
        assert Carries(vals[k], items[k]) && j.items[k] != items[k];
      }
    }
  }

  /** Field s of an object and what came back for it. */
  predicate FieldBack(fields: map<string, Json>, back: map<string, Json>, s: string) {
    && (s in back <==> s in fields && !fields[s].Null?)
    && (s in back ==> (back[s] == fields[s] <==> Survives(fields[s])))
  }

  lemma FieldsBack(fields: map<string, Json>, back: map<string, Json>)
    requires forall s :: FieldBack(fields, back, s)
    ensures back == fields <==> Survives(Obj(fields))
  {
    if back == fields {
      forall s | s in fields ensures !fields[s].Null? && Survives(fields[s]) {
        assert FieldBack(fields, back, s);
      }
    }
    if Survives(Obj(fields)) {
      forall s ensures s in back <==> s in fields
               ensures s in fields ==> back[s] == fields[s]
      {
        assert FieldBack(fields, back, s);
      }
    }
  }

  lemma ObjectRoundTrip(fields: map<string, Json>, vals: map<string, Lua>)
    requires vals.Keys == fields.Keys && forall s :: s in fields ==> Carries(vals[s], fields[s])
    ensures LuaToJson(Table(ObjectTable(vals))) == Obj(fields) <==> Survives(Obj(fields))
  {
    var j := LuaToJson(Table(ObjectTable(vals)));
    ObjectBack(vals, "");
    forall s ensures FieldBack(fields, j.fields, s) {
      ObjectBack(vals, s);
      assert s in fields ==> Carries(vals[s], fields[s]);
    }
    FieldsBack(fields, j.fields);
  }

  /** A JSON value survives the way to Lua and back exactly when `Survives` says so. */
  lemma {:induction false} RoundTripIff(v: Json)
    ensures LuaToJson(JsonToLua(v)) == v <==> Survives(v)
    decreases v
  {
    match v
    case Arr(items) =>
      var vals := seq(|items|, k requires 0 <= k < |items| => JsonToLua(items[k]));
      forall k | 0 <= k < |items| ensures Carries(vals[k], items[k]) {
        RoundTripIff(items[k]);
        NilOnlyForNull(items[k]);
      }
      assert JsonToLua(v) == Table(ArrayTable(vals));
      ArrayRoundTrip(items, vals);
    case Obj(fields) =>
      var vals := map s | s in fields :: JsonToLua(fields[s]);
      forall s | s in fields ensures Carries(vals[s], fields[s]) {
        RoundTripIff(fields[s]);
        NilOnlyForNull(fields[s]);
      }
      assert JsonToLua(v) == Table(ObjectTable(vals));
      ObjectRoundTrip(fields, vals);
    case _ =>
  }

  lemma NotNullBack(v: Json)
    requires !v.Null?
    ensures !LuaToJson(JsonToLua(v)).Null?
  {
  }

  lemma ArraySettles(items: seq<Json>, vals: seq<Lua>)
    requires |vals| == |items|
    requires forall k :: 0 <= k < |items| ==>
      Survives(LuaToJson(vals[k])) && (!vals[k].Nil? ==> !LuaToJson(vals[k]).Null?)
    ensures Survives(LuaToJson(Table(ArrayTable(vals))))
  {
    ArrayBack(vals);
    var j := LuaToJson(Table(ArrayTable(vals)));
    if j.Arr? {
      assert j.items[|j.items| - 1] == LuaToJson(vals[|j.items| - 1]);
    }
  }

  lemma ObjectSettles(vals: map<string, Lua>)
    requires forall s :: s in vals ==>
      Survives(LuaToJson(vals[s])) && (!vals[s].Nil? ==> !LuaToJson(vals[s]).Null?)
    ensures Survives(LuaToJson(Table(ObjectTable(vals))))
  {
    ObjectBack(vals, "");
    var j := LuaToJson(Table(ObjectTable(vals)));
    forall s | s in j.fields ensures !j.fields[s].Null? && Survives(j.fields[s]) {
      ObjectBack(vals, s);
    }
  }

  /** Whatever is lost is lost the first time: the result of a round trip survives every further one. */
  lemma {:induction false} SecondTripChangesNothing(v: Json)
    ensures Survives(LuaToJson(JsonToLua(v)))
    decreases v
  {
    match v
    case Arr(items) =>
      var vals := seq(|items|, k requires 0 <= k < |items| => JsonToLua(items[k]));
      forall k | 0 <= k < |items|
        ensures Survives(LuaToJson(vals[k])) && (!vals[k].Nil? ==> !LuaToJson(vals[k]).Null?)
      {
        SecondTripChangesNothing(items[k]);
        NilOnlyForNull(items[k]);
        if !items[k].Null? {
          NotNullBack(items[k]);
        }
      }
      assert JsonToLua(v) == Table(ArrayTable(vals));
      ArraySettles(items, vals);
    case Obj(fields) =>
      var vals := map s | s in fields :: JsonToLua(fields[s]);
      forall s | s in vals
        ensures Survives(LuaToJson(vals[s])) && (!vals[s].Nil? ==> !LuaToJson(vals[s]).Null?)
      {
        SecondTripChangesNothing(fields[s]);
        NilOnlyForNull(fields[s]);
        if !fields[s].Null? {
          NotNullBack(fields[s]);
        }
      }
      assert JsonToLua(v) == Table(ObjectTable(vals));
      ObjectSettles(vals);
    case _ =>
  }

  /** A null field is lost, and an empty array comes back as an empty object. */
  lemma NullsAndEmptyArraysAreLost(field: string)
    ensures LuaToJson(JsonToLua(Obj(map[field := Null]))) == Obj(map[])
    ensures LuaToJson(JsonToLua(Arr([]))) == Obj(map[])
  {
    assert JsonToLua(Obj(map[field := Null])) == Table(map[]);
    assert JsonToLua(Arr([])) == Table(map[]);
    assert Names(map[]) == {};
    assert LuaToJson(Table(map[])) == Obj(map[]);
  }

  // ---------------------------------------------------------------------------
  // Exactly what comes back
  // ---------------------------------------------------------------------------

  /** The items up to the last that is not null, each as it comes back. */
  ghost predicate ItemsBack(items: seq<Json>, back: seq<Json>)
    decreases items, 0
  {
    && 0 < |back| <= |items| && !items[|back| - 1].Null?
    && (forall k :: |back| <= k < |items| ==> items[k].Null?)
    && (forall k :: 0 <= k < |back| ==> ComesBackAs(items[k], back[k]))
  }

  ghost predicate ComesBackAs(v: Json, j: Json)
    decreases v, 1
  {
    match v
    case Int(i) => j == if FitsI64(i) then Int(i) else Float(i as real)
    case Arr(items) =>
      if forall k :: 0 <= k < |items| ==> items[k].Null? then j == Obj(map[])
      else j.Arr? && ItemsBack(items, j.items)
    case Obj(fields) =>
      && j.Obj? && (forall s :: s in j.fields <==> s in fields && !fields[s].Null?)
      && (forall s :: s in fields && !fields[s].Null? ==> s in j.fields && ComesBackAs(fields[s], j.fields[s]))
    case _ => j == v
  }

  lemma ArrayComesBack(items: seq<Json>, vals: seq<Lua>)
    requires |vals| == |items|
    requires forall k :: 0 <= k < |items| ==>
      ComesBackAs(items[k], LuaToJson(vals[k])) && (vals[k].Nil? <==> items[k].Null?)
    ensures ComesBackAs(Arr(items), LuaToJson(Table(ArrayTable(vals))))
  {
    ArrayBack(vals);
    TrimmedComesBack(items, vals, LuaToJson(Table(ArrayTable(vals))));
  }

  lemma TrimmedComesBack(items: seq<Json>, vals: seq<Lua>, j: Json)
    requires |vals| == |items| && Trimmed(vals, j)
    requires forall k :: 0 <= k < |items| ==>
      ComesBackAs(items[k], LuaToJson(vals[k])) && (vals[k].Nil? <==> items[k].Null?)
    ensures ComesBackAs(Arr(items), j)
  {
    if exists k :: 0 <= k < |items| && !items[k].Null? {
      var k :| 0 <= k < |items| && !items[k].Null?;
      assert !vals[k].Nil?;
      TrimmedBack(items, vals, j.items);
    }
  }

  lemma TrimmedBack(items: seq<Json>, vals: seq<Lua>, back: seq<Json>)
    requires |vals| == |items| && 0 < |back| <= |vals| && !vals[|back| - 1].Nil?
    requires forall k :: 0 <= k < |items| ==>
      ComesBackAs(items[k], LuaToJson(vals[k])) && (vals[k].Nil? <==> items[k].Null?)
    requires forall k :: |back| <= k < |vals| ==> vals[k].Nil?
    requires forall k :: 0 <= k < |back| ==> back[k] == LuaToJson(vals[k])
    ensures ItemsBack(items, back)
  {
    forall k | 0 <= k < |back| ensures ComesBackAs(items[k], back[k]) {
      assert back[k] == LuaToJson(vals[k]);
    }
  }

  lemma ObjectComesBack(fields: map<string, Json>, vals: map<string, Lua>)
    requires vals.Keys == fields.Keys
    requires forall s :: s in fields ==>
      ComesBackAs(fields[s], LuaToJson(vals[s])) && (vals[s].Nil? <==> fields[s].Null?)
    ensures ComesBackAs(Obj(fields), LuaToJson(Table(ObjectTable(vals))))
  {
    var j := LuaToJson(Table(ObjectTable(vals)));
    ObjectBack(vals, "");
    forall s
      ensures s in j.fields <==> s in fields && !fields[s].Null?
      ensures s in fields && !fields[s].Null? ==> ComesBackAs(fields[s], j.fields[s])
    {
      ObjectBack(vals, s);
    }
  }

  /** The way to Lua and back gives exactly that, for every JSON value. */
  lemma {:induction false} RoundTripIs(v: Json)
    ensures ComesBackAs(v, LuaToJson(JsonToLua(v)))
    decreases v
  {
    match v
    case Arr(items) =>
      var vals := seq(|items|, k requires 0 <= k < |items| => JsonToLua(items[k]));
      forall k | 0 <= k < |items|
        ensures ComesBackAs(items[k], LuaToJson(vals[k])) && (vals[k].Nil? <==> items[k].Null?)
      {
        RoundTripIs(items[k]);
        NilOnlyForNull(items[k]);
      }
      assert JsonToLua(v) == Table(ArrayTable(vals));
      ArrayComesBack(items, vals);
    case Obj(fields) =>
      var vals := map s | s in fields :: JsonToLua(fields[s]);
      forall s | s in fields
        ensures ComesBackAs(fields[s], LuaToJson(vals[s])) && (vals[s].Nil? <==> fields[s].Null?)
      {
        RoundTripIs(fields[s]);
        NilOnlyForNull(fields[s]);
      }
      assert JsonToLua(v) == Table(ObjectTable(vals));
      ObjectComesBack(fields, vals);
    case _ =>
  }

  lemma {:induction false} DecimalInjective(a: nat, b: nat)
    requires Decimal(a) == Decimal(b)
    ensures a == b
  {
    var s := Decimal(a);
    assert s[|s| - 1] == Digit(a % 10) && s[|s| - 1] == Digit(b % 10);
    if a >= 10 && b >= 10 {
      assert s[..|s| - 1] == Decimal(a / 10) && s[..|s| - 1] == Decimal(b / 10);
      DecimalInjective(a / 10, b / 10);
    }
  }

  lemma DashOrDigit(i: int)
    ensures Name(IntKey(i)) != "" && (Name(IntKey(i))[0] == '-' <==> i < 0)
  {
  }

  /** Two keys of a table go to the same field only if one is an integer and the other is its text. */
  lemma NamesClash(k: Key, l: Key)
    requires Name(k) == Name(l)
    ensures k == l || k.IntKey? != l.IntKey?
  {
    if k.IntKey? && l.IntKey? {
      if k.i < 0 && l.i < 0 {
        assert Name(k)[1..] == Decimal(-k.i) && Name(l)[1..] == Decimal(-l.i);
        DecimalInjective(-k.i, -l.i);
      } else if k.i >= 0 && l.i >= 0 {
        DecimalInjective(k.i, l.i);
      } else {
        DashOrDigit(k.i);
        DashOrDigit(l.i);
      }
    }
  }

  /** The field a key goes to: its own text, or the decimal text of an integer. */
  predicate GoesTo(k: Key, s: string) {
    match k
    case StrKey(t) => s == t
    case IntKey(i) => (i >= 0 && s == Decimal(i)) || (i < 0 && s == "-" + Decimal(-i))
  }

  /**
   What any table becomes. With positive integer keys only it is an array up to the largest, gaps
   being null. Otherwise it is an object with exactly the fields its keys go to, each with the value
   of a key that goes there.
   */
  lemma TableBack(t: map<Key, Lua>)
    ensures var j := LuaToJson(Table(t));
      if t != map[] && forall k :: k in t ==> k.IntKey? && k.i > 0 then
        && j.Arr? && IsMaxIndex(t, |j.items|)
        && (forall i :: 0 <= i < |j.items| ==>
              j.items[i] == if IntKey(i + 1) in t then LuaToJson(t[IntKey(i + 1)]) else Null)
      else
        && j.Obj? && (forall k, s {:trigger GoesTo(k, s)} :: k in t && GoesTo(k, s) ==> s in j.fields)
        && (forall s :: s in j.fields ==> exists k :: k in t && GoesTo(k, s) && j.fields[s] == LuaToJson(t[k]))
  {
    if t != map[] && forall k :: k in t ==> k.IntKey? && k.i > 0 {
      var k :| k in t;
      assert PositiveKey(k);
    } else {
      ObjectOfTable(t);
    }
  }

  lemma ObjectOfTable(t: map<Key, Lua>)
    requires !(t != map[] && forall k :: k in t ==> k.IntKey? && k.i > 0)
    ensures var j := LuaToJson(Table(t));
        && j.Obj? && (forall k, s {:trigger GoesTo(k, s)} :: k in t && GoesTo(k, s) ==> s in j.fields)
        && (forall s :: s in j.fields ==> exists k :: k in t && GoesTo(k, s) && j.fields[s] == LuaToJson(t[k]))
  {
    assert ArrayLike(t) ==> t == map[];
    var j := LuaToJson(Table(t));
    forall k, s | k in t && GoesTo(k, s) ensures s in j.fields {
      assert Name(k) == s;
    }
    forall s | s in j.fields ensures exists k :: k in t && GoesTo(k, s) && j.fields[s] == LuaToJson(t[k]) {
      var k := Winner(t, s);
      assert k in t && GoesTo(k, s);
    }
  }
}
