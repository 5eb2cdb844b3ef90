/** What the operations do at list elements and object members, in terms of the printed pointer. */
module JsonPatchItems {
  import opened Basics
  import opened Decimal
  import opened Json
  import opened JsonPatch
  import opened JsonPatchLaws

  // ----- Pointers -----

  /** A pointer is refused exactly when it is not empty and does not start with a slash. */
  lemma {:induction false} SplitFailsIff(ptr: string)
    ensures Split(ptr).Err? <==> ptr != "" && ptr[0] != '/'
    ensures Split(ptr).Err? ==> Split(ptr).error == InvalidPointer
  {}

  // ----- List elements -----

  /** The pointer to the element `i` of the list at `path`. */
  function ItemPointer(path: seq<string>, i: nat): string {
    Print(path + [ToDecimal(i)])
  }

  lemma {:induction false} LookupBelow(doc: Json, path: seq<string>, token: string)
    ensures Lookup(doc, path + [token]) == if Lookup(doc, path).Ok? then Child(Lookup(doc, path).value, token) else Lookup(doc, path)
  {
    if path == [] {
      assert [] + [token] == [token] && [token][1..] == [];
      assert Child(doc, token).Ok? ==> Lookup(Child(doc, token).value, []) == Child(doc, token);
    } else {
      assert (path + [token])[0] == path[0] && (path + [token])[1..] == path[1..] + [token];
      if Child(doc, path[0]).Ok? {
        LookupBelow(Child(doc, path[0]).value, path[1..], token);
      }
    }
  }

  lemma {:induction false} ItemIndex(items: seq<Json>, i: nat)
    ensures Child(Arr(items), ToDecimal(i)) == if i < |items| then Ok(items[i]) else Err(InvalidListIndex)
  {
    ParsePrinted(i);
  }

  /** Every element of a list is found under its printed index, from 0 on, and nothing else is. */
  lemma {:induction false} GetItem(doc: Json, path: seq<string>, items: seq<Json>, i: nat)
    requires Get(doc, Print(path)) == Ok(Arr(items))
    ensures Get(doc, ItemPointer(path, i)) == if i < |items| then Ok(items[i]) else Err(InvalidListIndex)
  {
    SplitInvertsPrint(path);
    SplitInvertsPrint(path + [ToDecimal(i)]);
    LookupBelow(doc, path, ToDecimal(i));
    ItemIndex(items, i);
  }

  /** The document with another value in the place of the list at `path`, or the error of putting none there. */
  function Instead(doc: Json, path: seq<string>, items: Outcome<seq<Json>>): Outcome<Json> {
    if items.Err? then Err(items.error) else Replace(doc, Print(path), Arr(items.value))
  }

  /** What an edit makes of the list itself. */
  function EditedItems(items: seq<Json>, i: nat, edit: LeafEdit<Json>): Outcome<seq<Json>> {
    match edit
    case Insert(v) => if i <= |items| then Ok(items[..i] + [v] + items[i..]) else Err(InvalidListIndex)
    case Delete => if i < |items| then Ok(items[..i] + items[i + 1..]) else Err(InvalidListIndex)
    case Assign(v) => if i < |items| then Ok(items[..i] + [v] + items[i + 1..]) else Err(InvalidListIndex)
  }

  lemma {:induction false} HyphenIsNoNumber()
    ensures !IsDigits("-")
  {
    assert !IsDigit("-"[0]);
  }

  lemma {:induction false} EditItem(items: seq<Json>, i: nat, edit: LeafEdit<Json>)
    ensures EditLeaf(Arr(items), ToDecimal(i), edit) ==
            if EditedItems(items, i, edit).Ok? then Ok(Arr(EditedItems(items, i, edit).value)) else Err(InvalidListIndex)
  {
    ParsePrinted(i);
    HyphenIsNoNumber();
    if edit.Assign? && i < |items| {
      assert items[i := edit.value] == items[..i] + [edit.value] + items[i + 1..];
    }
  }

  /** An edit below a path is an edit of the value at that path. */
  lemma {:induction false} EditBelow(doc: Json, path: seq<string>, token: string, edit: LeafEdit<Json>)
    requires Lookup(doc, path).Ok?
    ensures Edit(doc, path + [token], edit) ==
            var edited := EditLeaf(Lookup(doc, path).value, token, edit);
            if edited.Err? then edited else if path == [] then edited else Edit(doc, path, Assign(edited.value))
  {
    if path == [] {
      assert [] + [token] == [token];
    } else {
      assert (path + [token])[0] == path[0] && (path + [token])[1..] == path[1..] + [token];
      EditBelow(Child(doc, path[0]).value, path[1..], token, edit);
      if |path| == 1 {
        assert path[1..] == [];
        AssignChild(doc, path[0]);
      }
    }
  }

  /** A child that exists can be assigned. */
  lemma {:induction false} AssignChild(doc: Json, token: string)
    requires Child(doc, token).Ok?
    ensures forall c :: EditLeaf(doc, token, Assign(c)) == Ok(PutChild(doc, token, c))
  {}

  lemma {:induction false} EditItemBelow(doc: Json, path: seq<string>, items: seq<Json>, i: nat, edit: LeafEdit<Json>)
    requires Lookup(doc, path) == Ok(Arr(items))
    ensures Edit(doc, path + [ToDecimal(i)], edit) == Instead(doc, path, EditedItems(items, i, edit))
  {
    EditBelow(doc, path, ToDecimal(i), edit);
    EditItem(items, i, edit);
    SplitInvertsPrint(path);
  }

  /** `add` at an element inserts before it; it succeeds up to one past the end. */
  lemma {:induction false} AddItem(doc: Json, path: seq<string>, items: seq<Json>, i: nat, v: Json)
    requires Get(doc, Print(path)) == Ok(Arr(items))
    ensures Add(doc, ItemPointer(path, i), v) ==
            if i <= |items| then Replace(doc, Print(path), Arr(items[..i] + [v] + items[i..])) else Err(InvalidListIndex)
  {
    SplitInvertsPrint(path);
    SplitInvertsPrint(path + [ToDecimal(i)]);
    EditItemBelow(doc, path, items, i, Insert(v));
  }

  /** `remove` at an element takes it out; it succeeds exactly for the elements there are. */
  lemma {:induction false} RemoveItem(doc: Json, path: seq<string>, items: seq<Json>, i: nat)
    requires Get(doc, Print(path)) == Ok(Arr(items))
    ensures Remove(doc, ItemPointer(path, i)) ==
            if i < |items| then Replace(doc, Print(path), Arr(items[..i] + items[i + 1..])) else Err(InvalidListIndex)
  {
    SplitInvertsPrint(path);
    SplitInvertsPrint(path + [ToDecimal(i)]);
    EditItemBelow(doc, path, items, i, Delete);
  }

  /** `replace` at an element overwrites it; it succeeds exactly for the elements there are. */
  lemma {:induction false} ReplaceItem(doc: Json, path: seq<string>, items: seq<Json>, i: nat, v: Json)
    requires Get(doc, Print(path)) == Ok(Arr(items))
    ensures Replace(doc, ItemPointer(path, i), v) ==
            if i < |items| then Replace(doc, Print(path), Arr(items[..i] + [v] + items[i + 1..])) else Err(InvalidListIndex)
  {
    SplitInvertsPrint(path);
    SplitInvertsPrint(path + [ToDecimal(i)]);
    LookupBelow(doc, path, ToDecimal(i));
    ItemIndex(items, i);
    EditItemBelow(doc, path, items, i, Assign(v));
  }

  /** `add` at `-` appends; no other operation finds anything there. */
  lemma {:induction false} AppendItem(doc: Json, path: seq<string>, items: seq<Json>, v: Json)
    requires Get(doc, Print(path)) == Ok(Arr(items))
    ensures Add(doc, Print(path + ["-"]), v) == Replace(doc, Print(path), Arr(items + [v]))
    ensures Get(doc, Print(path + ["-"])) == Err(InvalidListIndex)
    ensures Remove(doc, Print(path + ["-"])) == Err(InvalidListIndex)
    ensures Replace(doc, Print(path + ["-"]), v) == Err(InvalidListIndex)
  {
    SplitInvertsPrint(path);
    SplitInvertsPrint(path + ["-"]);
    LookupBelow(doc, path, "-");
    EditBelow(doc, path, "-", Insert(v));
    EditBelow(doc, path, "-", Delete);
    HyphenIsNoNumber();
  }

  /** What stands at a path that exists is what `replace` puts there; at the root it is the whole document. */
  lemma {:induction false} ReplaceThenGet(doc: Json, path: seq<string>, v: Json)
    requires Get(doc, Print(path)).Ok?
    ensures Replace(doc, Print(path), v).Ok? && Get(Replace(doc, Print(path), v).value, Print(path)) == Ok(v)
    ensures path == [] ==> Replace(doc, Print(path), v) == Ok(v)
  {
    SplitInvertsPrint(path);
    if path != [] {
      AssignThenLookup(doc, path, v);
    }
  }

  lemma {:induction false} AssignThenLookup(doc: Json, path: seq<string>, v: Json)
    requires path != [] && Lookup(doc, path).Ok?
    ensures Edit(doc, path, Assign(v)).Ok? && Lookup(Edit(doc, path, Assign(v)).value, path) == Ok(v)
  {
    var child := Child(doc, path[0]).value;
    if |path| == 1 {
      assert path[1..] == [];
      AssignChild(doc, path[0]);
      PutThenGetChild(doc, path[0], v);
    } else {
      AssignThenLookup(child, path[1..], v);
      PutThenGetChild(doc, path[0], Edit(child, path[1..], Assign(v)).value);
    }
  }

  lemma {:induction false} PutThenGetChild(doc: Json, token: string, c: Json)
    requires Child(doc, token).Ok?
    ensures Child(PutChild(doc, token, c), token) == Ok(c)
  {
    if doc.Obj? {
      SetThenGet(doc.fields, token, c);
    }
  }

  lemma {:induction false} LeadingZero(s: string)
    requires IsDigits(s)
    ensures IsDigits("0" + s) && ParseNat("0" + s) == ParseNat(s)
  {
    var t := "0" + s;
    assert forall k | 0 <= k < |s| :: t[k + 1] == s[k];
    if |s| == 1 {
      assert t[..|t| - 1] == "0";
    } else {
      assert t[..|t| - 1] == "0" + s[..|s| - 1];
      LeadingZero(s[..|s| - 1]);
    }
  }

  /** Leading zeros do not matter: such a token finds the same element and edits it alike. */
  lemma {:induction false} LeadingZeroItem(items: seq<Json>, digits: string, edit: LeafEdit<Json>)
    requires IsDigits(digits)
    ensures Child(Arr(items), "0" + digits) == Child(Arr(items), digits)
    ensures EditLeaf(Arr(items), "0" + digits, edit) == EditLeaf(Arr(items), digits, edit)
  {
    LeadingZero(digits);
    HyphenIsNoNumber();
  }

  /** No element of a list is found under a token that is empty or holds anything but digits. */
  lemma {:induction false} NoItem(doc: Json, path: seq<string>, items: seq<Json>, token: string, v: Json)
    requires Get(doc, Print(path)) == Ok(Arr(items)) && token != "-"
    requires token == "" || exists k | 0 <= k < |token| :: !('0' <= token[k] <= '9')
    ensures
      var ptr := Print(path + [token]);
      Get(doc, ptr) == Add(doc, ptr, v) == Remove(doc, ptr) == Replace(doc, ptr, v) == Err(InvalidListIndex)
  {
    SplitInvertsPrint(path);
    SplitInvertsPrint(path + [token]);
    LookupBelow(doc, path, token);
    EditBelow(doc, path, token, Insert(v));
    EditBelow(doc, path, token, Delete);
  }

  // ----- Object members -----

  /** At an object member: `add` sets it, the others need it to be there. */
  lemma {:induction false} EditMember(doc: Json, path: seq<string>, fields: seq<Field>, key: string, v: Json)
    requires Get(doc, Print(path)) == Ok(Obj(fields))
    ensures
      var ptr := Print(path + [key]);
      && Get(doc, ptr) == (if HasKey(fields, key) then Ok(GetField(fields, key)) else Err(PathNotFound))
      && Add(doc, ptr, v) == Replace(doc, Print(path), Obj(SetField(fields, key, v)))
      && Remove(doc, ptr) == (if HasKey(fields, key) then Replace(doc, Print(path), Obj(DelField(fields, key))) else Err(PathNotFound))
      && Replace(doc, ptr, v) == (if HasKey(fields, key) then Replace(doc, Print(path), Obj(SetField(fields, key, v))) else Err(PathNotFound))
  {
    SplitInvertsPrint(path);
    SplitInvertsPrint(path + [key]);
    LookupBelow(doc, path, key);
    EditBelow(doc, path, key, Insert(v));
    EditBelow(doc, path, key, Delete);
    EditBelow(doc, path, key, Assign(v));
  }

  // ----- Operations by name -----

  /** An operation as the prompt shows it: a name, a path, and one more member. */
  function Op(name: string, path: string, key: string, v: Json): Json {
    Obj([Field("op", Str(name)), Field("path", Str(path)), Field(key, v)])
  }

  lemma {:induction false} OpMembers(name: string, path: string, key: string, v: Json)
    requires key != "op" && key != "path"
    ensures
      var fs := Op(name, path, key, v).fields;
      && HasKey(fs, "op") && GetField(fs, "op") == Str(name)
      && HasKey(fs, "path") && GetField(fs, "path") == Str(path)
      && HasKey(fs, key) && GetField(fs, key) == v
  {
    var fs := Op(name, path, key, v).fields;
    assert |"op"| != |"path"|;
    assert fs[0].key == "op" && fs[1].key == "path" && fs[2].key == key;
    assert fs[1..][0] == fs[1] && fs[1..][1..][0] == fs[2];
  }

  lemma {:induction false} OtherKeys(key: string)
    requires key == "value" || key == "from"
    ensures key != "op" && key != "path"
  {
    assert key[0] != "op"[0] && key[0] != "path"[0];
  }

  /** An object with these members names an operation, a path and a value or another path. */
  predicate Names(fs: seq<Field>, name: string, path: string, key: string, v: Json) {
    && HasKey(fs, "op") && GetField(fs, "op") == Str(name)
    && HasKey(fs, "path") && GetField(fs, "path") == Str(path)
    && HasKey(fs, key) && GetField(fs, key) == v
  }

  lemma {:induction false} AddOperation(doc: Json, fs: seq<Field>, path: string, v: Json)
    requires Names(fs, "add", path, "value", v)
    ensures ApplyOp(doc, Obj(fs)) == Add(doc, path, v)
  {}

  lemma {:induction false} ReplaceOperation(doc: Json, fs: seq<Field>, path: string, v: Json)
    requires Names(fs, "replace", path, "value", v)
    ensures ApplyOp(doc, Obj(fs)) == Replace(doc, path, v)
  {}

  lemma {:induction false} RemoveOperation(doc: Json, fs: seq<Field>, path: string, key: string, v: Json)
    requires Names(fs, "remove", path, key, v)
    ensures ApplyOp(doc, Obj(fs)) == Remove(doc, path)
  {}

  lemma {:induction false} CopyOperation(doc: Json, fs: seq<Field>, path: string, from: string)
    requires Names(fs, "copy", path, "from", Str(from))
    ensures ApplyOp(doc, Obj(fs)) == if Get(doc, from).Err? then Get(doc, from) else Add(doc, path, Get(doc, from).value)
  {}

  lemma {:induction false} MoveOperation(doc: Json, fs: seq<Field>, path: string, from: string)
    requires Names(fs, "move", path, "from", Str(from))
    ensures ApplyOp(doc, Obj(fs)) ==
            if Get(doc, from).Err? then Get(doc, from)
            else if Remove(doc, from).Err? then Remove(doc, from)
            else Add(Remove(doc, from).value, path, Get(doc, from).value)
  {}

  lemma {:induction false} TestOperation(doc: Json, fs: seq<Field>, path: string, v: Json)
    requires Names(fs, "test", path, "value", v)
    ensures ApplyOp(doc, Obj(fs)) ==
            if Get(doc, path).Err? then Get(doc, path)
            else if SameValue(Abs(Get(doc, path).value), Abs(v)) then Ok(doc)
            else Err(TestFailed)
  {
    if Get(doc, path).Ok? {
      SameValueIff(Abs(Get(doc, path).value), Abs(v));
    }
  }

  /**
    What the operations do, as they are written: `add`, `remove` and `replace`
    edit, `copy` adds what is found, `move` also removes it first, and `test`
    changes nothing and fails on a different value.
   */
  lemma {:induction false} OperationsByName(doc: Json, path: string, from: string, v: Json)
    ensures ApplyOp(doc, Op("add", path, "value", v)) == Add(doc, path, v)
    ensures ApplyOp(doc, Op("replace", path, "value", v)) == Replace(doc, path, v)
    ensures ApplyOp(doc, Op("remove", path, "value", v)) == Remove(doc, path)
    ensures ApplyOp(doc, Op("copy", path, "from", Str(from))) ==
            if Get(doc, from).Err? then Get(doc, from) else Add(doc, path, Get(doc, from).value)
    ensures ApplyOp(doc, Op("move", path, "from", Str(from))) ==
            if Get(doc, from).Err? then Get(doc, from)
            else if Remove(doc, from).Err? then Remove(doc, from)
            else Add(Remove(doc, from).value, path, Get(doc, from).value)
    ensures ApplyOp(doc, Op("test", path, "value", v)) ==
            if Get(doc, path).Err? then Get(doc, path)
            else if SameValue(Abs(Get(doc, path).value), Abs(v)) then Ok(doc)
            else Err(TestFailed)
  {
    OtherKeys("value");
    OtherKeys("from");
    OpMembers("add", path, "value", v);
    OpMembers("replace", path, "value", v);
    OpMembers("remove", path, "value", v);
    OpMembers("copy", path, "from", Str(from));
    OpMembers("move", path, "from", Str(from));
    OpMembers("test", path, "value", v);
    AddOperation(doc, Op("add", path, "value", v).fields, path, v);
    ReplaceOperation(doc, Op("replace", path, "value", v).fields, path, v);
    RemoveOperation(doc, Op("remove", path, "value", v).fields, path, "value", v);
    CopyOperation(doc, Op("copy", path, "from", Str(from)).fields, path, from);
    MoveOperation(doc, Op("move", path, "from", Str(from)).fields, path, from);
    TestOperation(doc, Op("test", path, "value", v).fields, path, v);
  }

  // ----- Equality of values in `test` -----

  predicate IsNumber(v: Value) {
    v.VInt? || v.VReal? || v.VBool?
  }

  /** Python counts `True` as 1 and `False` as 0. */
  function NumberOf(v: Value): real
    requires IsNumber(v)
  {
    match v
    case VInt(i) => i as real
    case VReal(r) => r
    case VBool(b) => if b then 1.0 else 0.0
  }

  /** Equal as numbers, as strings, or member by member. */
  predicate SameValue(v: Value, w: Value) {
    if IsNumber(v) || IsNumber(w) then IsNumber(v) && IsNumber(w) && NumberOf(v) == NumberOf(w)
    else match v
         case VArr(items) => w.VArr? && |items| == |w.items| && forall i | 0 <= i < |items| :: SameValue(items[i], w.items[i])
         case VObj(members) => w.VObj? && members.Keys == w.members.Keys && forall k | k in members :: SameValue(members[k], w.members[k])
         case _ => v == w
  }

  lemma {:induction false} SameNumber(v: Value, w: Value)
    requires IsNumber(v) && IsNumber(w)
    ensures Unify(v) == Unify(w) <==> NumberOf(v) == NumberOf(w)
  {}

  lemma {:induction false} SameValueIff(v: Value, w: Value)
    ensures Unify(v) == Unify(w) <==> SameValue(v, w)
    decreases v
  {
    if IsNumber(v) && IsNumber(w) {
      SameNumber(v, w);
    } else if v.VArr? && w.VArr? && |v.items| == |w.items| {
      forall i | 0 <= i < |v.items| ensures Unify(v.items[i]) == Unify(w.items[i]) <==> SameValue(v.items[i], w.items[i]) {
        SameValueIff(v.items[i], w.items[i]);
      }
      SameItems(v.items, w.items);
    } else if v.VObj? && w.VObj? && v.members.Keys == w.members.Keys {
      forall k | k in v.members ensures Unify(v.members[k]) == Unify(w.members[k]) <==> SameValue(v.members[k], w.members[k]) {
        SameValueIff(v.members[k], w.members[k]);
      }
      SameMembers(v.members, w.members);
    } else if v.VObj? && w.VObj? {
      DifferentKeys(v.members, w.members);
    }
  }

  lemma {:induction false} SameItems(a: seq<Value>, b: seq<Value>)
    requires |a| == |b|
    ensures Unify(VArr(a)) == Unify(VArr(b)) <==> forall i | 0 <= i < |a| :: Unify(a[i]) == Unify(b[i])
  {
    var x, y := Unify(VArr(a)).items, Unify(VArr(b)).items;
    assert forall i | 0 <= i < |a| :: x[i] == Unify(a[i]) && y[i] == Unify(b[i]);
  }

  lemma {:induction false} SameMembers(a: map<string, Value>, b: map<string, Value>)
    requires a.Keys == b.Keys
    ensures Unify(VObj(a)) == Unify(VObj(b)) <==> forall k | k in a :: Unify(a[k]) == Unify(b[k])
  {
    var x, y := Unify(VObj(a)).members, Unify(VObj(b)).members;
    assert forall k | k in a :: x[k] == Unify(a[k]) && y[k] == Unify(b[k]);
  }

  lemma {:induction false} DifferentKeys(a: map<string, Value>, b: map<string, Value>)
    requires a.Keys != b.Keys
    ensures Unify(VObj(a)) != Unify(VObj(b))
  {
    assert Unify(VObj(a)).members.Keys == a.Keys && Unify(VObj(b)).members.Keys == b.Keys;
  }
}
