/**
  Rewriting the references of a plan: the code's `rewrite_obj`, the renaming
  it should be, and exactly when the two agree.
 */
module PlanRewrite {
  import opened Json
  import opened Graphs
  import opened PlanStructure

  type IdMap = map<int, int>

  /** Where an id is sent; unmapped ids stay. */
  function Image(sigma: IdMap, r: int): int {
    if r in sigma then sigma[r] else r
  }

  /** `map_ref`, with internal ids and scan ids in one map. */
  function MapRef(sigma: IdMap, v: Json): Json {
    if Intish(v) && ToInt(v) in sigma then Int(sigma[ToInt(v)]) else v
  }

  function MapRefs(sigma: IdMap, items: seq<Json>): (r: seq<Json>)
    ensures |r| == |items| && forall i | 0 <= i < |items| :: r[i] == MapRef(sigma, items[i])
  {
    seq(|items|, i requires 0 <= i < |items| => MapRef(sigma, items[i]))
  }

  lemma {:induction false} MapRefIs(sigma: IdMap, v: Json)
    requires Intish(v)
    ensures Intish(MapRef(sigma, v)) && ToInt(MapRef(sigma, v)) == Image(sigma, ToInt(v))
  {}

  /** `rewrite_obj`. */
  function Rewrite(sigma: IdMap, j: Json): Json
    decreases j
  {
    match j
    case Obj(fields) => Obj(seq(|fields|, i requires 0 <= i < |fields| => RewriteField(sigma, fields[i])))
    case Arr(items) => Arr(seq(|items|, i requires 0 <= i < |items| => Rewrite(sigma, items[i])))
    case _ => j
  }

  /** A scalar reference key whose value is no id is copied without looking below it. */
  function RewriteField(sigma: IdMap, f: Field): (r: Field)
    ensures r.key == f.key
    decreases f
  {
    if IsScalarKey(f.key) then Field(f.key, MapRef(sigma, f.value))
    else if IsListRef(f) then Field(f.key, Arr(MapRefs(sigma, f.value.items)))
    else Field(f.key, Rewrite(sigma, f.value))
  }

  /** The renaming of every reference that the finders and validators see. */
  function Rename(sigma: IdMap, j: Json): Json
    decreases j
  {
    match j
    case Obj(fields) => Obj(seq(|fields|, i requires 0 <= i < |fields| => RenameField(sigma, fields[i])))
    case Arr(items) => Arr(seq(|items|, i requires 0 <= i < |items| => Rename(sigma, items[i])))
    case _ => j
  }

  function RenameField(sigma: IdMap, f: Field): (r: Field)
    ensures r.key == f.key
    decreases f
  {
    if IsScalarRef(f) then Field(f.key, MapRef(sigma, f.value))
    else if IsListRef(f) then Field(f.key, Arr(MapRefs(sigma, f.value.items)))
    else Field(f.key, Rename(sigma, f.value))
  }

  // ----- References below a non-integer `input`, `left` or `right` -----

  /** Every reference of the document is already what `map_ref` makes of it. */
  predicate RefsFixed(sigma: IdMap, j: Json)
    decreases j
  {
    match j
    case Obj(fields) => forall i | 0 <= i < |fields| :: FieldFixed(sigma, fields[i])
    case Arr(items) => forall i | 0 <= i < |items| :: RefsFixed(sigma, items[i])
    case _ => true
  }

  predicate FieldFixed(sigma: IdMap, f: Field)
    decreases f
  {
    if IsScalarRef(f) then MapRef(sigma, f.value) == f.value
    else if IsListRef(f) then forall i | 0 <= i < |f.value.items| :: MapRef(sigma, f.value.items[i]) == f.value.items[i]
    else RefsFixed(sigma, f.value)
  }

  /** The references hidden below a scalar key whose value is no id are fixed. */
  predicate HiddenFixed(sigma: IdMap, j: Json)
    decreases j
  {
    match j
    case Obj(fields) => forall i | 0 <= i < |fields| :: FieldHiddenFixed(sigma, fields[i])
    case Arr(items) => forall i | 0 <= i < |items| :: HiddenFixed(sigma, items[i])
    case _ => true
  }

  predicate FieldHiddenFixed(sigma: IdMap, f: Field)
    decreases f
  {
    if IsScalarRef(f) || IsListRef(f) then true
    else if IsScalarKey(f.key) then RefsFixed(sigma, f.value)
    else HiddenFixed(sigma, f.value)
  }

  lemma {:induction false} RenameFixes(sigma: IdMap, j: Json)
    ensures Rename(sigma, j) == j <==> RefsFixed(sigma, j)
    decreases j
  {
    match j
    case Obj(fields) =>
      var r := Rename(sigma, j).fields;
      forall i | 0 <= i < |fields| ensures r[i] == fields[i] <==> FieldFixed(sigma, fields[i]) {
        RenameFieldFixes(sigma, fields[i]);
      }
      if forall i | 0 <= i < |fields| :: FieldFixed(sigma, fields[i]) {
        assert r == fields;
      }
    case Arr(items) =>
      var r := Rename(sigma, j).items;
      forall i | 0 <= i < |items| ensures r[i] == items[i] <==> RefsFixed(sigma, items[i]) {
        RenameFixes(sigma, items[i]);
      }
      if forall i | 0 <= i < |items| :: RefsFixed(sigma, items[i]) {
        assert r == items;
      }
    case _ =>
  }

  lemma {:induction false} RenameFieldFixes(sigma: IdMap, f: Field)
    ensures RenameField(sigma, f) == f <==> FieldFixed(sigma, f)
    decreases f
  {
    if IsScalarRef(f) {
    } else if IsListRef(f) {
      var items := f.value.items;
      if RenameField(sigma, f) == f {
        assert MapRefs(sigma, items) == items;
      }
      if FieldFixed(sigma, f) {
        assert MapRefs(sigma, items) == items;
      }
    } else {
      RenameFixes(sigma, f.value);
    }
  }

  /**
    The code renames exactly the references it should if and only if every
    reference hidden below a non-integer `input`, `left` or `right` needs no
    renaming.
   */
  lemma {:induction false} RewriteIsRenameIff(sigma: IdMap, j: Json)
    ensures Rewrite(sigma, j) == Rename(sigma, j) <==> HiddenFixed(sigma, j)
    decreases j
  {
    match j
    case Obj(fields) =>
      var a, b := Rewrite(sigma, j).fields, Rename(sigma, j).fields;
      forall i | 0 <= i < |fields| ensures a[i] == b[i] <==> FieldHiddenFixed(sigma, fields[i]) {
        RewriteFieldIff(sigma, fields[i]);
      }
      if forall i | 0 <= i < |fields| :: FieldHiddenFixed(sigma, fields[i]) {
        assert a == b;
      }
    case Arr(items) =>
      var a, b := Rewrite(sigma, j).items, Rename(sigma, j).items;
      forall i | 0 <= i < |items| ensures a[i] == b[i] <==> HiddenFixed(sigma, items[i]) {
        RewriteIsRenameIff(sigma, items[i]);
      }
      if forall i | 0 <= i < |items| :: HiddenFixed(sigma, items[i]) {
        assert a == b;
      }
    case _ =>
  }

  lemma {:induction false} RewriteFieldIff(sigma: IdMap, f: Field)
    ensures RewriteField(sigma, f) == RenameField(sigma, f) <==> FieldHiddenFixed(sigma, f)
    decreases f
  {
    if !IsScalarRef(f) && !IsListRef(f) {
      if IsScalarKey(f.key) {
        RenameFixes(sigma, f.value);
      } else {
        RewriteIsRenameIff(sigma, f.value);
      }
    }
  }

  /** A hidden reference that the code leaves behind: the operator below `input` still refers to the old id 5. */
  lemma {:induction false} HiddenReferenceIsMissed()
    ensures
      var inner := Obj([Field("left", Int(5))]);
      var node := Obj([Field("input", inner)]);
      Rewrite(map[5 := 7], node) == node && Rename(map[5 := 7], node) != node
  {
    var inner := Obj([Field("left", Int(5))]);
    var node := Obj([Field("input", inner)]);
    var sigma := map[5 := 7];
    assert Rewrite(sigma, node).fields == node.fields;
    assert !FieldFixed(sigma, inner.fields[0]);
    assert !FieldFixed(sigma, node.fields[0]);
    RenameFixes(sigma, node);
  }

  // ----- The references of a rewritten document -----

  /** References at positions that the code rewrites. */
  function Visible(j: Json): set<int>
    decreases j
  {
    match j
    case Obj(fields) => set i, x | 0 <= i < |fields| && x in FieldVisible(fields[i]) :: x
    case Arr(items) => set i, x | 0 <= i < |items| && x in Visible(items[i]) :: x
    case _ => {}
  }

  function FieldVisible(f: Field): set<int>
    decreases f
  {
    if IsScalarRef(f) || IsListRef(f) then FieldRefs(f)
    else if IsScalarKey(f.key) then {}
    else Visible(f.value)
  }

  /** References that the validators see and the code does not rewrite. */
  function Hidden(j: Json): set<int>
    decreases j
  {
    match j
    case Obj(fields) => set i, x | 0 <= i < |fields| && x in FieldHidden(fields[i]) :: x
    case Arr(items) => set i, x | 0 <= i < |items| && x in Hidden(items[i]) :: x
    case _ => {}
  }

  function FieldHidden(f: Field): set<int>
    decreases f
  {
    if IsScalarRef(f) || IsListRef(f) then {}
    else if IsScalarKey(f.key) then Refs(f.value)
    else Hidden(f.value)
  }

  lemma {:induction false} RefsSplit(j: Json)
    ensures Refs(j) == Visible(j) + Hidden(j)
    decreases j
  {
    match j
    case Obj(fields) =>
      forall i | 0 <= i < |fields| ensures FieldRefs(fields[i]) == FieldVisible(fields[i]) + FieldHidden(fields[i]) {
        FieldRefsSplit(fields[i]);
      }
    case Arr(items) =>
      forall i | 0 <= i < |items| ensures Refs(items[i]) == Visible(items[i]) + Hidden(items[i]) {
        RefsSplit(items[i]);
      }
    case _ =>
  }

  lemma {:induction false} FieldRefsSplit(f: Field)
    ensures FieldRefs(f) == FieldVisible(f) + FieldHidden(f)
    decreases f
  {
    if !IsScalarRef(f) && !IsListRef(f) && !IsScalarKey(f.key) {
      RefsSplit(f.value);
    }
  }

  function Images(sigma: IdMap, s: set<int>): set<int> {
    set r | r in s :: Image(sigma, r)
  }

  /** After the rewrite, the visible references are mapped and the hidden ones are not. */
  lemma {:induction false} RewrittenRefs(sigma: IdMap, j: Json)
    ensures Refs(Rewrite(sigma, j)) == Images(sigma, Visible(j)) + Hidden(j)
    decreases j
  {
    match j
    case Obj(fields) =>
      var r := Rewrite(sigma, j).fields;
      forall i | 0 <= i < |fields|
        ensures FieldRefs(r[i]) == Images(sigma, FieldVisible(fields[i])) + FieldHidden(fields[i])
      {
        RewrittenFieldRefs(sigma, fields[i]);
      }
      UnionOfFields(sigma, fields, r);
    case Arr(items) =>
      var r := Rewrite(sigma, j).items;
      forall i | 0 <= i < |items| ensures Refs(r[i]) == Images(sigma, Visible(items[i])) + Hidden(items[i]) {
        RewrittenRefs(sigma, items[i]);
      }
      UnionOfItems(sigma, items, r);
    case _ =>
  }

  lemma {:induction false} UnionOfFields(sigma: IdMap, fields: seq<Field>, r: seq<Field>)
    requires |r| == |fields|
    requires forall i | 0 <= i < |fields| :: FieldRefs(r[i]) == Images(sigma, FieldVisible(fields[i])) + FieldHidden(fields[i])
    ensures Refs(Obj(r)) == Images(sigma, Visible(Obj(fields))) + Hidden(Obj(fields))
  {
    forall x ensures x in Refs(Obj(r)) <==> x in Images(sigma, Visible(Obj(fields))) + Hidden(Obj(fields)) {
      if x in Refs(Obj(r)) {
        var i :| 0 <= i < |r| && x in FieldRefs(r[i]);
        if x in Images(sigma, FieldVisible(fields[i])) {
          var y :| y in FieldVisible(fields[i]) && Image(sigma, y) == x;
          assert y in Visible(Obj(fields));
        } else {
          assert x in FieldHidden(fields[i]);
        }
      }
      if x in Images(sigma, Visible(Obj(fields))) {
        var y :| y in Visible(Obj(fields)) && Image(sigma, y) == x;
        var i :| 0 <= i < |fields| && y in FieldVisible(fields[i]);
        assert x in FieldRefs(r[i]);
      }
      if x in Hidden(Obj(fields)) {
        var i :| 0 <= i < |fields| && x in FieldHidden(fields[i]);
        assert x in FieldRefs(r[i]);
      }
    }
  }

  lemma {:induction false} UnionOfItems(sigma: IdMap, items: seq<Json>, r: seq<Json>)
    requires |r| == |items|
    requires forall i | 0 <= i < |items| :: Refs(r[i]) == Images(sigma, Visible(items[i])) + Hidden(items[i])
    ensures Refs(Arr(r)) == Images(sigma, Visible(Arr(items))) + Hidden(Arr(items))
  {
    forall x ensures x in Refs(Arr(r)) <==> x in Images(sigma, Visible(Arr(items))) + Hidden(Arr(items)) {
      if x in Refs(Arr(r)) {
        var i :| 0 <= i < |r| && x in Refs(r[i]);
        if x in Images(sigma, Visible(items[i])) {
          var y :| y in Visible(items[i]) && Image(sigma, y) == x;
          assert y in Visible(Arr(items));
        } else {
          assert x in Hidden(items[i]);
        }
      }
      if x in Images(sigma, Visible(Arr(items))) {
        var y :| y in Visible(Arr(items)) && Image(sigma, y) == x;
        var i :| 0 <= i < |items| && y in Visible(items[i]);
        assert x in Refs(r[i]);
      }
      if x in Hidden(Arr(items)) {
        var i :| 0 <= i < |items| && x in Hidden(items[i]);
        assert x in Refs(r[i]);
      }
    }
  }

  lemma {:induction false} MappedListRefs(sigma: IdMap, items: seq<Json>)
    requires AllIntish(items)
    ensures AllIntish(MapRefs(sigma, items))
    ensures Elements(ToInts(MapRefs(sigma, items))) == Images(sigma, Elements(ToInts(items)))
  {
    var r := MapRefs(sigma, items);
    forall i | 0 <= i < |items| ensures Intish(r[i]) && ToInt(r[i]) == Image(sigma, ToInt(items[i])) {
      MapRefIs(sigma, items[i]);
    }
    assert |ToInts(r)| == |ToInts(items)|;
    forall x | x in Images(sigma, Elements(ToInts(items))) ensures x in ToInts(r) {
      var y :| y in ToInts(items) && Image(sigma, y) == x;
      var i :| 0 <= i < |items| && ToInts(items)[i] == y;
      assert ToInts(r)[i] == x;
    }
    forall x | x in ToInts(r) ensures x in Images(sigma, Elements(ToInts(items))) {
      var i :| 0 <= i < |r| && ToInts(r)[i] == x;
      assert ToInts(items)[i] in Elements(ToInts(items));
    }
  }

  lemma {:induction false} RewrittenFieldRefs(sigma: IdMap, f: Field)
    ensures FieldRefs(RewriteField(sigma, f)) == Images(sigma, FieldVisible(f)) + FieldHidden(f)
    decreases f
  {
    if IsScalarRef(f) {
      MapRefIs(sigma, f.value);
    } else if IsListRef(f) {
      MappedListRefs(sigma, f.value.items);
    } else if !IsScalarKey(f.key) {
      RewrittenRefs(sigma, f.value);
      RewriteKeepsListness(sigma, f);
    }
  }

  lemma {:induction false} RewriteKeepsIntish(sigma: IdMap, j: Json)
    ensures Intish(Rewrite(sigma, j)) <==> Intish(j)
  {}

  /** A list that is no reference list does not become one. */
  lemma {:induction false} RewriteKeepsListness(sigma: IdMap, f: Field)
    requires !IsScalarKey(f.key) && !IsListRef(f)
    ensures !IsListRef(Field(f.key, Rewrite(sigma, f.value)))
  {
    if f.value.Arr? && !AllIntish(f.value.items) {
      var i :| 0 <= i < |f.value.items| && !Intish(f.value.items[i]);
      RewriteKeepsIntish(sigma, f.value.items[i]);
      assert !Intish(Rewrite(sigma, f.value).items[i]);
    }
  }
}
