/**
  JSON documents in two forms.  `Json` is what the Python code holds: an object
  is a dict, so its members have an insertion order.  `Value` is what a JSON
  text means: an object is a finite map.  `Abs` forgets the order; the
  canonical dump with sorted keys identifies two documents exactly when their
  `Abs` are equal.
 */
module Json {

  datatype Json =
    | Null
    | Bool(b: bool)
    | Int(i: int)
    | Real(r: real)
    | Str(s: string)
    | Arr(items: seq<Json>)
    | Obj(fields: seq<Field>)

  datatype Field = Field(key: string, value: Json)

  datatype Value =
    | VNull
    | VBool(b: bool)
    | VInt(i: int)
    | VReal(r: real)
    | VStr(s: string)
    | VArr(items: seq<Value>)
    | VObj(members: map<string, Value>)

  // ----- Dict operations on ordered members -----

  predicate HasKey(fs: seq<Field>, key: string) {
    exists i | 0 <= i < |fs| :: fs[i].key == key
  }

  predicate DistinctKeys(fs: seq<Field>) {
    forall i, j | 0 <= i < j < |fs| :: fs[i].key != fs[j].key
  }

  /** `d[key]`. */
  function GetField(fs: seq<Field>, key: string): (v: Json)
    requires HasKey(fs, key)
    ensures exists i | 0 <= i < |fs| :: fs[i] == Field(key, v)
  {
    if fs[0].key == key then fs[0].value else GetField(fs[1..], key)
  }

  /** `d[key] = v`: an existing member keeps its position, a new one goes last. */
  function SetField(fs: seq<Field>, key: string, v: Json): (r: seq<Field>) {
    if fs == [] then [Field(key, v)]
    else if fs[0].key == key then [Field(key, v)] + fs[1..]
    else [fs[0]] + SetField(fs[1..], key, v)
  }

  /** `del d[key]`. */
  function DelField(fs: seq<Field>, key: string): (r: seq<Field>) {
    if fs == [] then []
    else if fs[0].key == key then fs[1..]
    else [fs[0]] + DelField(fs[1..], key)
  }

  /** Python dicts never hold a key twice, at any depth. */
  predicate WellFormed(j: Json)
    decreases j
  {
    match j
    case Arr(items) => forall i | 0 <= i < |items| :: WellFormed(items[i])
    case Obj(fields) => DistinctKeys(fields) && forall i | 0 <= i < |fields| :: WellFormed(fields[i].value)
    case _ => true
  }

  // ----- The meaning of a document -----

  function Abs(j: Json): Value
    decreases j, 0
  {
    match j
    case Null => VNull
    case Bool(b) => VBool(b)
    case Int(i) => VInt(i)
    case Real(r) => VReal(r)
    case Str(s) => VStr(s)
    case Arr(items) => VArr(AbsItems(items))
    case Obj(fields) => VObj(AbsFields(fields))
  }

  function AbsItems(items: seq<Json>): (r: seq<Value>)
    ensures |r| == |items| && forall i | 0 <= i < |items| :: r[i] == Abs(items[i])
    decreases items, 1
  {
    if items == [] then [] else [Abs(items[0])] + AbsItems(items[1..])
  }

  function AbsFields(fs: seq<Field>): map<string, Value>
    decreases fs, 1
  {
    if fs == [] then map[] else AbsFields(fs[1..])[fs[0].key := Abs(fs[0].value)]
  }

  lemma {:induction false} AbsGet(fs: seq<Field>, key: string)
    ensures HasKey(fs, key) <==> key in AbsFields(fs)
    ensures HasKey(fs, key) ==> AbsFields(fs)[key] == Abs(GetField(fs, key))
  {
    if fs != [] {
      AbsGet(fs[1..], key);
      assert fs[0].key != key && HasKey(fs, key) ==> HasKey(fs[1..], key) by {
        if fs[0].key != key && HasKey(fs, key) {
          var i :| 0 <= i < |fs| && fs[i].key == key;
          assert fs[1..][i - 1].key == key;
        }
      }
      assert HasKey(fs[1..], key) ==> HasKey(fs, key) by {
        if HasKey(fs[1..], key) {
          var i :| 0 <= i < |fs[1..]| && fs[1..][i].key == key;
          assert fs[i + 1].key == key;
        }
      }
    }
  }

  /** Assigning a dict member assigns the map entry, wherever the member sits. */
  lemma {:induction false} AbsSet(fs: seq<Field>, key: string, v: Json)
    ensures AbsFields(SetField(fs, key, v)) == AbsFields(fs)[key := Abs(v)]
  {
    if fs == [] {
      assert [Field(key, v)][1..] == [];
    } else {
      AbsSet(fs[1..], key, v);
      var r := SetField(fs, key, v);
      assert r[1..] == if fs[0].key == key then fs[1..] else SetField(fs[1..], key, v);
    }
  }

  lemma {:induction false} AbsDel(fs: seq<Field>, key: string)
    requires DistinctKeys(fs)
    ensures AbsFields(DelField(fs, key)) == AbsFields(fs) - {key}
  {
    if fs != [] {
      if fs[0].key == key {
        AbsGet(fs[1..], key);
      } else {
        AbsDel(fs[1..], key);
        assert DelField(fs, key)[1..] == DelField(fs[1..], key);
      }
    }
  }

  lemma {:induction false} SetKeepsWellFormed(fs: seq<Field>, key: string, v: Json)
    requires WellFormed(Obj(fs)) && WellFormed(v)
    ensures WellFormed(Obj(SetField(fs, key, v)))
    ensures forall k :: HasKey(SetField(fs, key, v), k) <==> k == key || HasKey(fs, k)
  {
    if fs == [] {
      assert SetField(fs, key, v)[0].key == key;
    } else {
      HasKeySplit(fs);
      assert WellFormed(Obj(fs[1..]));
      SetKeepsWellFormed(fs[1..], key, v);
      var r := SetField(fs, key, v);
      HasKeySplit(r);
      if fs[0].key == key {
        assert r[1..] == fs[1..];
      } else {
        assert r[1..] == SetField(fs[1..], key, v);
        forall i | 0 < i < |r| ensures r[i].key != r[0].key && WellFormed(r[i].value) {
          assert r[1..][i - 1] == r[i];
          assert !HasKey(fs[1..], fs[0].key);
          assert HasKey(r[1..], r[i].key);
        }
        assert forall i, j | 0 < i < j < |r| :: r[1..][i - 1] == r[i] && r[1..][j - 1] == r[j];
      }
    }
  }

  lemma {:induction false} HasKeySplit(fs: seq<Field>)
    requires fs != []
    ensures forall k :: HasKey(fs, k) <==> k == fs[0].key || HasKey(fs[1..], k)
  {
    forall k ensures HasKey(fs, k) <==> k == fs[0].key || HasKey(fs[1..], k) {
      if HasKey(fs, k) {
        var i :| 0 <= i < |fs| && fs[i].key == k;
        assert i > 0 ==> fs[1..][i - 1] == fs[i];
      }
      if HasKey(fs[1..], k) {
        var i :| 0 <= i < |fs[1..]| && fs[1..][i].key == k;
        assert fs[i + 1] == fs[1..][i];
      }
    }
  }

  lemma {:induction false} DelKeepsWellFormed(fs: seq<Field>, key: string)
    requires WellFormed(Obj(fs))
    ensures WellFormed(Obj(DelField(fs, key)))
    ensures forall k :: HasKey(DelField(fs, key), k) ==> HasKey(fs, k)
  {
    if fs != [] {
      HasKeySplit(fs);
      assert WellFormed(Obj(fs[1..]));
      DelKeepsWellFormed(fs[1..], key);
      var r := DelField(fs, key);
      if fs[0].key != key {
        HasKeySplit(r);
        assert r[1..] == DelField(fs[1..], key);
        forall i | 0 < i < |r| ensures r[i].key != r[0].key && WellFormed(r[i].value) {
          assert r[1..][i - 1] == r[i];
          assert !HasKey(fs[1..], fs[0].key);
          assert HasKey(r[1..], r[i].key);
        }
        assert forall i, j | 0 < i < j < |r| :: r[1..][i - 1] == r[i] && r[1..][j - 1] == r[j];
      }
    }
  }

  /** Assigning an absent key appends a member. */
  lemma {:induction false} SetAbsent(fs: seq<Field>, key: string, v: Json)
    requires !HasKey(fs, key)
    ensures SetField(fs, key, v) == fs + [Field(key, v)]
  {
    if fs != [] {
      HasKeySplit(fs);
      SetAbsent(fs[1..], key, v);
    }
  }

  /** Reading after an assignment. */
  lemma {:induction false} SetThenGet(fs: seq<Field>, key: string, v: Json)
    ensures HasKey(SetField(fs, key, v), key) && GetField(SetField(fs, key, v), key) == v
    ensures forall k | k != key :: HasKey(SetField(fs, key, v), k) <==> HasKey(fs, k)
    ensures forall k | k != key && HasKey(fs, k) :: GetField(SetField(fs, key, v), k) == GetField(fs, k)
  {
    var r := SetField(fs, key, v);
    if fs == [] {
      assert r[0].key == key;
    } else {
      HasKeySplit(fs);
      HasKeySplit(r);
      if fs[0].key == key {
        assert r[1..] == fs[1..];
      } else {
        SetThenGet(fs[1..], key, v);
        assert r[1..] == SetField(fs[1..], key, v);
      }
    }
  }

  // ----- Python equality -----

  /** Python's `==` does not tell `True` from `1` nor `1.0` from `1`. */
  function Unify(v: Value): Value {
    match v
    case VBool(b) => VInt(if b then 1 else 0)
    case VReal(r) => if r == r.Floor as real then VInt(r.Floor) else v
    case VArr(items) => VArr(seq(|items|, i requires 0 <= i < |items| => Unify(items[i])))
    case VObj(members) => VObj(map k | k in members :: Unify(members[k]))
    case _ => v
  }

  predicate PyEqual(a: Json, b: Json) {
    Unify(Abs(a)) == Unify(Abs(b))
  }

  // ----- Equal documents -----

  /** Some member of `fs` has this key and an equal value. */
  ghost predicate HasSame(f: Field, fs: seq<Field>)
    decreases f, 0
  {
    exists j :: 0 <= j < |fs| && fs[j].key == f.key && SameJson(f.value, fs[j].value)
  }

  /** Equal documents: the same kind and value, the same elements in order, the same members in any order. */
  ghost predicate SameJson(a: Json, b: Json)
    decreases a, 1
  {
    match a
    case Arr(items) => b.Arr? && |items| == |b.items| && forall i | 0 <= i < |items| :: SameJson(items[i], b.items[i])
    case Obj(fields) =>
      && b.Obj? && (forall i | 0 <= i < |fields| :: HasSame(fields[i], b.fields))
      && forall j | 0 <= j < |b.fields| :: HasKey(fields, b.fields[j].key)
    case _ => a == b
  }

  lemma {:induction false} MemberAt(fs: seq<Field>, i: nat)
    requires DistinctKeys(fs) && i < |fs|
    ensures fs[i].key in AbsFields(fs) && AbsFields(fs)[fs[i].key] == Abs(fs[i].value)
  {
    AbsGet(fs, fs[i].key);
    var j :| 0 <= j < |fs| && fs[j] == Field(fs[i].key, GetField(fs, fs[i].key));
    assert j == i;
  }

  /** Well-formed documents have equal values if and only if they are equal up to the order of members. */
  lemma {:induction false} SameJsonIff(a: Json, b: Json)
    requires WellFormed(a) && WellFormed(b)
    ensures Abs(a) == Abs(b) <==> SameJson(a, b)
    decreases a
  {
    if a.Arr? && b.Arr? {
      SameArrayIff(a, b);
    } else if a.Obj? && b.Obj? {
      if SameJson(a, b) { SameMembersSameValue(a, b); }
      if Abs(a) == Abs(b) { SameValueSameMembers(a, b); }
    }
  }

  lemma {:induction false} SameArrayIff(a: Json, b: Json)
    requires a.Arr? && b.Arr? && WellFormed(a) && WellFormed(b)
    ensures Abs(a) == Abs(b) <==> SameJson(a, b)
    decreases a, 0
  {
    var x, y := AbsItems(a.items), AbsItems(b.items);
    if |a.items| == |b.items| {
      forall i | 0 <= i < |a.items| ensures x[i] == y[i] <==> SameJson(a.items[i], b.items[i]) {
        SameJsonIff(a.items[i], b.items[i]);
      }
    }
  }

  lemma {:induction false} SameMembersSameValue(a: Json, b: Json)
    requires a.Obj? && b.Obj? && WellFormed(a) && WellFormed(b) && SameJson(a, b)
    ensures Abs(a) == Abs(b)
    decreases a, 0
  {
    var x, y := AbsFields(a.fields), AbsFields(b.fields);
    forall key ensures key in x <==> key in y {
      AbsGet(a.fields, key);
      AbsGet(b.fields, key);
      if key in x {
        var i :| 0 <= i < |a.fields| && a.fields[i].key == key;
        assert HasSame(a.fields[i], b.fields);
      }
      if key in y {
        var j :| 0 <= j < |b.fields| && b.fields[j].key == key;
        assert HasKey(a.fields, b.fields[j].key);
      }
    }
    forall key | key in x ensures x[key] == y[key] {
      AbsGet(a.fields, key);
      var i :| 0 <= i < |a.fields| && a.fields[i].key == key;
      assert HasSame(a.fields[i], b.fields);
      var j :| 0 <= j < |b.fields| && b.fields[j].key == key && SameJson(a.fields[i].value, b.fields[j].value);
      SameJsonIff(a.fields[i].value, b.fields[j].value);
      MemberAt(a.fields, i);
      MemberAt(b.fields, j);
    }
    assert x == y;
  }

  lemma {:induction false} SameValueSameMembers(a: Json, b: Json)
    requires a.Obj? && b.Obj? && WellFormed(a) && WellFormed(b) && Abs(a) == Abs(b)
    ensures SameJson(a, b)
    decreases a, 0
  {
    assert AbsFields(a.fields) == AbsFields(b.fields);
    forall i | 0 <= i < |a.fields| ensures HasSame(a.fields[i], b.fields) {
      MemberAt(a.fields, i);
      AbsGet(b.fields, a.fields[i].key);
      var j :| 0 <= j < |b.fields| && b.fields[j].key == a.fields[i].key;
      MemberAt(b.fields, j);
      SameJsonIff(a.fields[i].value, b.fields[j].value);
    }
    forall j | 0 <= j < |b.fields| ensures HasKey(a.fields, b.fields[j].key) {
      MemberAt(b.fields, j);
      AbsGet(a.fields, b.fields[j].key);
    }
  }
}
