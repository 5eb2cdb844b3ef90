/** The references that the transfer sees in a plan are the inputs that the codec wrote into it. */
module PlanReferences {
  import opened Basics
  import opened Decimal
  import opened Json
  import opened Graphs
  import opened PlanStructure
  import opened PlanRewrite
  import opened PlanMeaning
  import Codec = PlanCodec
  import RoundTrip = PlanCodecRoundTrip

  // ----- What counts as a reference -----

  /** An integer is a reference exactly under `input`, `left` and `right`. */
  lemma {:induction false} ScalarReference(key: string, n: int)
    ensures FieldRefs(Field(key, Int(n))) == if key in ["input", "left", "right"] then {n} else {}
    ensures DirectRefs([Field(key, Int(n))]) == if key in ["input", "left", "right"] then [n] else []
  {
    assert [Field(key, Int(n))][1..] == [];
    assert DirectRefs([]) == [];
  }

  lemma {:induction false} IdListIsIntish(ids: seq<int>)
    ensures AllIntish(Codec.IdList(ids)) && ToInts(Codec.IdList(ids)) == ids
  {
    var items := Codec.IdList(ids);
    assert forall i | 0 <= i < |ids| :: items[i] == Int(ids[i]);
  }

  lemma {:induction false} NoRefsInIds(ids: seq<int>)
    ensures Refs(Arr(Codec.IdList(ids))) == {}
  {
    var items := Codec.IdList(ids);
    assert forall i | 0 <= i < |items| :: items[i] == Int(ids[i]) && Refs(items[i]) == {};
  }

  /** A list of integers is one of references exactly under `inputs` and `children`. */
  lemma {:induction false} ListReference(key: string, ids: seq<int>)
    ensures FieldRefs(Field(key, Arr(Codec.IdList(ids)))) == if key in ["inputs", "children"] then Elements(ids) else {}
    ensures DirectRefs([Field(key, Arr(Codec.IdList(ids)))]) == if key in ["inputs", "children"] then ids else []
  {
    var f := Field(key, Arr(Codec.IdList(ids)));
    IdListIsIntish(ids);
    NoRefsInIds(ids);
    assert [f][1..] == [] && DirectRefs([]) == [];
    assert !IsScalarRef(f);
  }

  /** An id may also be written as a decimal numeral, and a Boolean counts as 0 or 1; nothing else is an id. */
  lemma {:induction false} ReferenceForms(v: Json, n: nat)
    ensures FieldRefs(Field("input", Str(ToDecimal(n)))) == {n}
    ensures FieldRefs(Field("input", Bool(true))) == {1} && FieldRefs(Field("input", Bool(false))) == {0}
    ensures v.Null? || v.Real? || (v.Str? && !IsDigits(v.s)) ==> FieldRefs(Field("input", v)) == {}
  {
    ParsePrinted(n);
  }

  // ----- Operators as the codec writes them -----

  /** No reference in the configuration itself. */
  predicate Quiet(config: seq<Field>) {
    forall i | 0 <= i < |config| :: FieldRefs(config[i]) == {}
  }

  lemma {:induction false} RefsOfConcat(a: seq<Field>, b: seq<Field>)
    ensures Refs(Obj(a + b)) == Refs(Obj(a)) + Refs(Obj(b))
  {
    var c := a + b;
    forall x | x in Refs(Obj(c)) ensures x in Refs(Obj(a)) + Refs(Obj(b)) {
      var i :| 0 <= i < |c| && x in FieldRefs(c[i]);
      assert if i < |a| then c[i] == a[i] else c[i] == b[i - |a|];
    }
    forall x | x in Refs(Obj(a)) ensures x in Refs(Obj(c)) {
      var i :| 0 <= i < |a| && x in FieldRefs(a[i]);
      assert c[i] == a[i];
    }
    forall x | x in Refs(Obj(b)) ensures x in Refs(Obj(c)) {
      var i :| 0 <= i < |b| && x in FieldRefs(b[i]);
      assert c[|a| + i] == b[i];
    }
    SameElements(Refs(Obj(c)), Refs(Obj(a)) + Refs(Obj(b)));
  }

  lemma {:induction false} RefsOfOne(f: Field)
    ensures Refs(Obj([f])) == FieldRefs(f)
  {
    var one := [f];
    assert Obj(one).fields == one && one[0] == f;
    forall x | x in FieldRefs(f) ensures x in Refs(Obj(one)) {
      assert x in FieldRefs(one[0]);
    }
    SameElements(Refs(Obj(one)), FieldRefs(f));
  }

  lemma {:induction false} QuietRefs(config: seq<Field>)
    requires Quiet(config)
    ensures Refs(Obj(config)) == {} && DirectRefs(config) == []
  {
    QuietDirect(config);
    EmptySet(Refs(Obj(config)));
  }

  lemma {:induction false} QuietDirect(config: seq<Field>)
    requires Quiet(config)
    ensures DirectRefs(config) == []
  {
    if config != [] {
      assert FieldRefs(config[0]) == {};
      if IsListRef(config[0]) {
        NoIdsNoItems(config[0].value.items);
      }
      QuietDirect(config[1..]);
    }
  }

  lemma {:induction false} DirectCons(f: Field, fs: seq<Field>)
    ensures DirectRefs([f] + fs) == DirectRefs([f]) + DirectRefs(fs)
  {
    assert ([f] + fs)[1..] == fs && [f][1..] == [];
  }

  lemma {:induction false} Associate<T>(a: seq<T>, b: seq<T>, c: seq<T>)
    ensures a + b + c == a + (b + c)
  {}

  lemma {:induction false} DirectConcat(a: seq<Field>, b: seq<Field>)
    ensures DirectRefs(a + b) == DirectRefs(a) + DirectRefs(b)
  {
    if a == [] {
      assert [] + b == b;
    } else {
      var head, tail := a[0], a[1..];
      DirectConcat(tail, b);
      DirectCons(head, tail + b);
      DirectCons(head, tail);
      Associate([head], tail, b);
      Associate(DirectRefs([head]), DirectRefs(tail), DirectRefs(b));
      assert a == [head] + tail;
    }
  }

  /** The members that hold the inputs refer to exactly these, in order. */
  lemma {:induction false} InputRefs(q: Codec.Plan, ids: seq<int>)
    requires Codec.ValidPlan(q) && Codec.FitsArity(q) && |ids| == |q.children|
    ensures Refs(Obj(RoundTrip.NumberedMembers(q, ids))) == Elements(ids)
    ensures DirectRefs(RoundTrip.NumberedMembers(q, ids)) == ids
  {
    match q.shape
    case Leaf =>
      EmptySet(Refs(Obj([])));
      EmptySet(Elements([]));
    case Unary =>
      ScalarReference("input", ids[0]);
      RefsOfOne(Field("input", Int(ids[0])));
      OnlyElement(ids);
    case Binary =>
      var l, r := Field("left", Int(ids[0])), Field("right", Int(ids[1]));
      ScalarReference("left", ids[0]);
      ScalarReference("right", ids[1]);
      RefsOfOne(l);
      RefsOfOne(r);
      assert [l, r] == [l] + [r];
      RefsOfConcat([l], [r]);
      DirectConcat([l], [r]);
      TwoElements(ids);
    case Nary =>
      ListReference("inputs", ids);
      RefsOfOne(Field("inputs", Arr(Codec.IdList(ids))));
      assert |ids| < 3 ==> ids == [] && Codec.IdList([]) == [];
  }

  lemma {:induction false} OnlyElement(ids: seq<int>)
    requires |ids| == 1
    ensures Elements(ids) == {ids[0]} && ids == [ids[0]]
  {
    SameElements(Elements(ids), {ids[0]});
  }

  lemma {:induction false} TwoElements(ids: seq<int>)
    requires |ids| == 2
    ensures Elements(ids) == {ids[0]} + {ids[1]} && ids == [ids[0]] + [ids[1]]
  {
    SameElements(Elements(ids), {ids[0]} + {ids[1]});
  }

  /** The operator that the codec writes for `q` refers to exactly its inputs. */
  lemma {:induction false} OperatorRefs(q: Codec.Plan, ids: seq<int>)
    requires Codec.ValidPlan(q) && Codec.FitsArity(q) && |ids| == |q.children| && Quiet(q.config)
    ensures Refs(RoundTrip.NodeWith(q, RoundTrip.NumberedMembers(q, ids))) == Elements(ids)
  {
    var members := q.config + RoundTrip.NumberedMembers(q, ids);
    QuietRefs(q.config);
    InputRefs(q, ids);
    RefsOfConcat(q.config, RoundTrip.NumberedMembers(q, ids));
    RefsOfOne(Field(q.name, Obj(members)));
  }

  lemma {:induction false} KeepsAll(ids: seq<int>, among: set<int>)
    requires forall k | 0 <= k < |ids| :: ids[k] in among
    ensures Keep(ids, among) == ids
  {
    if ids != [] {
      var first, rest := ids[0], ids[1..];
      forall k | 0 <= k < |rest| ensures rest[k] in among {
        assert rest[k] == ids[k + 1];
      }
      KeepsAll(rest, among);
      assert ids == [first] + rest;
    }
  }

  /** In the traversal its children are its inputs, in order. */
  lemma {:induction false} OperatorChildren(plan: seq<Field>, id: int, q: Codec.Plan, ids: seq<int>)
    requires Codec.ValidPlan(q) && Codec.FitsArity(q) && |ids| == |q.children| && Quiet(q.config)
    requires id in NodesById(plan) && NodesById(plan)[id] == RoundTrip.NodeWith(q, RoundTrip.NumberedMembers(q, ids))
    requires forall x | x in ids :: x in NodeIds(plan)
    ensures Children(ChildGraph(plan), id) == ids
  {
    QuietRefs(q.config);
    InputRefs(q, ids);
    DirectConcat(q.config, RoundTrip.NumberedMembers(q, ids));
    assert [] + ids == ids;
    forall k | 0 <= k < |ids| ensures ids[k] in NodeIds(plan) {
      assert ids[k] in ids;
    }
    KeepsAll(ids, NodeIds(plan));
  }

  function ImagesOf(sigma: IdMap, ids: seq<int>): (r: seq<int>)
    ensures |r| == |ids| && forall i | 0 <= i < |r| :: r[i] == Image(sigma, ids[i])
  {
    seq(|ids|, i requires 0 <= i < |ids| => Image(sigma, ids[i]))
  }

  lemma {:induction false} RewriteConcat(sigma: IdMap, a: seq<Field>, b: seq<Field>)
    ensures Rewrite(sigma, Obj(a + b)) == Obj(Rewrite(sigma, Obj(a)).fields + Rewrite(sigma, Obj(b)).fields)
  {
    var c := a + b;
    var r := Rewrite(sigma, Obj(a)).fields + Rewrite(sigma, Obj(b)).fields;
    forall i | 0 <= i < |c| ensures Rewrite(sigma, Obj(c)).fields[i] == r[i] {
      assert if i < |a| then c[i] == a[i] else c[i] == b[i - |a|];
    }
    assert Rewrite(sigma, Obj(c)).fields == r;
  }

  lemma {:induction false} RewriteOne(sigma: IdMap, f: Field)
    ensures Rewrite(sigma, Obj([f])) == Obj([RewriteField(sigma, f)])
  {
    assert Rewrite(sigma, Obj([f])).fields == [RewriteField(sigma, f)];
  }

  /** Rewriting the members that hold the inputs renames exactly these. */
  lemma {:induction false} RewriteTwo(sigma: IdMap, f: Field, g: Field)
    ensures Rewrite(sigma, Obj([f, g])) == Obj([RewriteField(sigma, f), RewriteField(sigma, g)])
  {
    assert [f, g] == [f] + [g];
    RewriteConcat(sigma, [f], [g]);
    RewriteOne(sigma, f);
    RewriteOne(sigma, g);
  }

  lemma {:induction false} RewriteIds(sigma: IdMap, ids: seq<int>)
    ensures Rewrite(sigma, Obj([Field("inputs", Arr(Codec.IdList(ids)))])) == Obj([Field("inputs", Arr(Codec.IdList(ImagesOf(sigma, ids))))])
  {
    RewriteOne(sigma, Field("inputs", Arr(Codec.IdList(ids))));
    IdListIsIntish(ids);
    assert MapRefs(sigma, Codec.IdList(ids)) == Codec.IdList(ImagesOf(sigma, ids));
  }

  lemma {:induction false} InputsRewritten(sigma: IdMap, q: Codec.Plan, ids: seq<int>)
    requires Codec.ValidPlan(q) && Codec.FitsArity(q) && |ids| == |q.children|
    ensures Rewrite(sigma, Obj(RoundTrip.NumberedMembers(q, ids))) == Obj(RoundTrip.NumberedMembers(q, ImagesOf(sigma, ids)))
  {
    match q.shape
    case Leaf => assert Rewrite(sigma, Obj([])).fields == [];
    case Unary => RewriteOne(sigma, Field("input", Int(ids[0])));
    case Binary =>
      RewriteTwo(sigma, Field("left", Int(ids[0])), Field("right", Int(ids[1])));
    case Nary =>
      RewriteIds(sigma, ids);
      assert |ids| < 3 ==> ids == [] && Codec.IdList([]) == [];
  }

  /** Rewriting an operator as the codec writes it renames exactly its inputs. */
  lemma {:induction false} OperatorRewritten(sigma: IdMap, q: Codec.Plan, ids: seq<int>)
    requires Codec.ValidPlan(q) && Codec.FitsArity(q) && |ids| == |q.children| && Quiet(q.config)
    requires q.name !in ["input", "left", "right"]
    ensures Rewrite(sigma, RoundTrip.NodeWith(q, RoundTrip.NumberedMembers(q, ids))) ==
            RoundTrip.NodeWith(q, RoundTrip.NumberedMembers(q, ImagesOf(sigma, ids)))
  {
    var members := RoundTrip.NumberedMembers(q, ids);
    QuietRefs(q.config);
    NoRefsNoChange(sigma, Obj(q.config));
    InputsRewritten(sigma, q, ids);
    RewriteConcat(sigma, q.config, members);
    RewriteOne(sigma, Field(q.name, Obj(q.config + members)));
  }

  // ----- Nodes by id -----

  /** The nodes of a plan: the last member whose key is a numeral of the id. */
  lemma {:induction false} NodesAre(plan: seq<Field>, id: int)
    ensures id in NodesById(plan) <==> exists i :: 0 <= i < |plan| && IsDigits(plan[i].key) && ParseNat(plan[i].key) == id
    ensures forall i | 0 <= i < |plan| && IsDigits(plan[i].key) && ParseNat(plan[i].key) == id
              && (forall j | i < j < |plan| && IsDigits(plan[j].key) :: ParseNat(plan[j].key) != id) ::
              id in NodesById(plan) && NodesById(plan)[id] == plan[i].value
  {
    if plan != [] {
      NodesAre(plan[..|plan| - 1], id);
    }
  }
}
