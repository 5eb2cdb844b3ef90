/**
  What a plan means: the operator tree that a reference unfolds to, with scans
  known by their signatures only.  Renaming ids along a correspondence keeps
  the unfolding of every reference to every depth, and keeps acyclicity.
 */
module PlanMeaning {
  import opened Json
  import opened Sorting
  import opened Graphs
  import opened PlanStructure
  import opened ScanMatching
  import opened PlanRewrite

  type Nodes = map<int, Json>

  datatype Term =
    | TAtom(j: Json)
    | TArr(items: seq<Term>)
    | TObj(fields: seq<TermField>)
    | TTableScan(sig: Value)
    | TScanNode(sig: Value)
    | TDangling(id: int)
    | TCut

  datatype TermField = TermField(key: string, value: Term)

  /** A configuration in which every reference is replaced by what it refers to, `n` levels deep. */
  function Unfold(plan: Nodes, sigs: Signatures, j: Json, n: nat): Term
    decreases n, 1, j
  {
    match j
    case Obj(fields) =>
      TObj(seq(|fields|, i requires 0 <= i < |fields| =>
        TermField(fields[i].key, UnfoldField(plan, sigs, fields[i], n))))
    case Arr(items) => TArr(seq(|items|, i requires 0 <= i < |items| => Unfold(plan, sigs, items[i], n)))
    case _ => TAtom(j)
  }

  function UnfoldField(plan: Nodes, sigs: Signatures, f: Field, n: nat): Term
    decreases n, 1, f
  {
    if IsScalarRef(f) then UnfoldRef(plan, sigs, ToInt(f.value), n)
    else if IsListRef(f) then
      TArr(seq(|f.value.items|, i requires 0 <= i < |f.value.items| => UnfoldRef(plan, sigs, ToInt(f.value.items[i]), n)))
    else Unfold(plan, sigs, f.value, n)
  }

  /** A plan node, a scan of the table information, or nothing. */
  function UnfoldRef(plan: Nodes, sigs: Signatures, r: int, n: nat): Term
    decreases n, 0
  {
    if n == 0 then TCut
    else if r in plan then
      if IsScanNode(plan[r]) && Signature(plan[r]).Ok? then TScanNode(Signature(plan[r]).value)
      else Unfold(plan, sigs, plan[r], n - 1)
    else if r in sigs then TTableScan(sigs[r])
    else TDangling(r)
  }

  /** The renaming `sigma` carries the first plan onto the second. */
  ghost predicate Corresponds(plan1: Nodes, sigs1: Signatures, plan2: Nodes, sigs2: Signatures, sigma: IdMap) {
    && sigma.Keys == plan1.Keys + sigs1.Keys
    && (forall r | r in plan1 :: NodeCorresponds(plan1[r], plan2, sigma, r))
    && (forall r | r in sigs1 && r !in plan1 :: sigma[r] in sigs2 && sigma[r] !in plan2 && sigs2[sigma[r]] == sigs1[r])
  }

  ghost predicate NodeCorresponds(node: Json, plan2: Nodes, sigma: IdMap, r: int) {
    && r in sigma && sigma[r] in plan2
    && plan2[sigma[r]] == Rewrite(sigma, node)
    && HiddenFixed(sigma, node)
    && Refs(node) <= sigma.Keys
    && (IsScanNode(node) ==> Refs(node) == {})
  }

  // ----- Unfoldings are kept -----

  lemma {:induction false} NoRefsNoChange(sigma: IdMap, j: Json)
    requires Refs(j) == {}
    ensures Rewrite(sigma, j) == j
    decreases j
  {
    match j
    case Obj(fields) =>
      forall i | 0 <= i < |fields| ensures RewriteField(sigma, fields[i]) == fields[i] {
        NoFieldRefsNoChange(sigma, j, i);
      }
      assert Rewrite(sigma, j).fields == fields;
    case Arr(items) =>
      forall i | 0 <= i < |items| ensures Rewrite(sigma, items[i]) == items[i] {
        assert forall x | x in Refs(items[i]) :: x in Refs(j);
        NoRefsNoChange(sigma, items[i]);
      }
      assert Rewrite(sigma, j).items == items;
    case _ =>
  }

  lemma {:induction false} NoIdsNoItems(items: seq<Json>)
    requires AllIntish(items)
    ensures Elements(ToInts(items)) == {} ==> items == []
  {
    if items != [] {
      assert ToInts(items)[0] in Elements(ToInts(items));
    }
  }

  lemma {:induction false} NoFieldRefsNoChange(sigma: IdMap, j: Json, i: nat)
    requires j.Obj? && i < |j.fields| && Refs(j) == {}
    ensures RewriteField(sigma, j.fields[i]) == j.fields[i]
    decreases j, 0
  {
    var f := j.fields[i];
    assert FieldRefs(f) == {} by {
      assert forall x | x in FieldRefs(f) :: x in Refs(j);
    }
    if IsListRef(f) {
      NoIdsNoItems(f.value.items);
      assert MapRefs(sigma, f.value.items) == f.value.items;
    } else if !IsScalarRef(f) && !IsScalarKey(f.key) {
      NoRefsNoChange(sigma, f.value);
    }
  }

  lemma {:induction false} SameScanNode(sigma: IdMap, node: Json)
    ensures IsScanNode(Rewrite(sigma, node)) <==> IsScanNode(node)
  {
    if node.Obj? {
      var fs, gs := node.fields, Rewrite(sigma, node).fields;
      assert forall i | 0 <= i < |fs| :: gs[i].key == fs[i].key;
      if HasKey(fs, "parquetScan") {
        var i :| 0 <= i < |fs| && fs[i].key == "parquetScan";
        assert gs[i].key == "parquetScan";
      }
      if HasKey(gs, "parquetScan") {
        var i :| 0 <= i < |gs| && gs[i].key == "parquetScan";
        assert fs[i].key == "parquetScan";
      }
    }
  }

  /** Renaming a configuration and then unfolding it in the second plan is unfolding it in the first. */
  lemma {:induction false} RenamedUnfolds(plan1: Nodes, sigs1: Signatures, plan2: Nodes, sigs2: Signatures, sigma: IdMap,
                                          j: Json, n: nat)
    requires Corresponds(plan1, sigs1, plan2, sigs2, sigma) && Refs(j) <= sigma.Keys
    ensures Unfold(plan1, sigs1, j, n) == Unfold(plan2, sigs2, Rename(sigma, j), n)
    decreases n, 1, j
  {
    match j
    case Obj(fields) =>
      var a, b := Unfold(plan1, sigs1, j, n).fields, Unfold(plan2, sigs2, Rename(sigma, j), n).fields;
      forall i | 0 <= i < |fields| ensures a[i] == b[i] {
        assert forall x | x in FieldRefs(fields[i]) :: x in Refs(j);
        RenamedFieldUnfolds(plan1, sigs1, plan2, sigs2, sigma, fields[i], n);
      }
      assert a == b;
    case Arr(items) =>
      var a, b := Unfold(plan1, sigs1, j, n).items, Unfold(plan2, sigs2, Rename(sigma, j), n).items;
      forall i | 0 <= i < |items| ensures a[i] == b[i] {
        assert forall x | x in Refs(items[i]) :: x in Refs(j);
        RenamedUnfolds(plan1, sigs1, plan2, sigs2, sigma, items[i], n);
      }
      assert a == b;
    case _ =>
  }

  lemma {:induction false} RenamedFieldUnfolds(plan1: Nodes, sigs1: Signatures, plan2: Nodes, sigs2: Signatures, sigma: IdMap,
                                               f: Field, n: nat)
    requires Corresponds(plan1, sigs1, plan2, sigs2, sigma) && FieldRefs(f) <= sigma.Keys
    ensures UnfoldField(plan1, sigs1, f, n) == UnfoldField(plan2, sigs2, RenameField(sigma, f), n)
    decreases n, 1, f
  {
    if IsScalarRef(f) {
      MapRefIs(sigma, f.value);
      UnfoldingKept(plan1, sigs1, plan2, sigs2, sigma, ToInt(f.value), n);
    } else if IsListRef(f) {
      var items, mapped := f.value.items, MapRefs(sigma, f.value.items);
      MappedListRefs(sigma, items);
      var a, b := UnfoldField(plan1, sigs1, f, n).items, UnfoldField(plan2, sigs2, RenameField(sigma, f), n).items;
      forall i | 0 <= i < |items| ensures a[i] == b[i] {
        MapRefIs(sigma, items[i]);
        assert ToInts(items)[i] in FieldRefs(f);
        UnfoldingKept(plan1, sigs1, plan2, sigs2, sigma, ToInt(items[i]), n);
      }
      assert a == b;
    } else {
      RenamedUnfolds(plan1, sigs1, plan2, sigs2, sigma, f.value, n);
      if IsListKey(f.key) {
        RenameKeepsListness(sigma, f);
      }
      if IsScalarKey(f.key) {
        assert !Intish(Rename(sigma, f.value));
      }
    }
  }

  lemma {:induction false} RenameKeepsListness(sigma: IdMap, f: Field)
    requires IsListKey(f.key) && !IsListRef(f)
    ensures !IsListRef(Field(f.key, Rename(sigma, f.value)))
  {
    if f.value.Arr? && !AllIntish(f.value.items) {
      var i :| 0 <= i < |f.value.items| && !Intish(f.value.items[i]);
      assert !Intish(Rename(sigma, f.value).items[i]);
    }
  }

  /**
    From every node and scan, for every depth, cyclic plans included, the
    renamed reference unfolds in the second plan to the same operator tree.
   */
  lemma {:induction false} UnfoldingKept(plan1: Nodes, sigs1: Signatures, plan2: Nodes, sigs2: Signatures, sigma: IdMap,
                                         r: int, n: nat)
    requires Corresponds(plan1, sigs1, plan2, sigs2, sigma) && r in sigma
    ensures UnfoldRef(plan1, sigs1, r, n) == UnfoldRef(plan2, sigs2, sigma[r], n)
    decreases n, 0
  {
    if n > 0 && r in plan1 {
      var node := plan1[r];
      assert NodeCorresponds(node, plan2, sigma, r);
      SameScanNode(sigma, node);
      if IsScanNode(node) {
        NoRefsNoChange(sigma, node);
      }
      RewriteIsRenameIff(sigma, node);
      RenamedUnfolds(plan1, sigs1, plan2, sigs2, sigma, node, n - 1);
    }
  }

  // ----- Acyclicity is kept -----

  /** The references among the nodes of a plan. */
  function RefGraph(plan: Nodes): Graph {
    map r | r in plan :: Sorted(Refs(plan[r]) * plan.Keys)
  }

  lemma {:induction false} RefEdge(plan: Nodes, a: int, b: int)
    ensures Edge(RefGraph(plan), a, b) <==> a in plan && b in plan && b in Refs(plan[a])
  {}

  /** Fixed hidden references are their own images, so the rewrite maps all references. */
  lemma {:induction false} HiddenAreFixed(sigma: IdMap, j: Json)
    requires HiddenFixed(sigma, j)
    ensures forall r | r in Hidden(j) :: Image(sigma, r) == r
    decreases j
  {
    match j
    case Obj(fields) =>
      forall r | r in Hidden(j) ensures Image(sigma, r) == r {
        var i :| 0 <= i < |fields| && r in FieldHidden(fields[i]);
        assert FieldHiddenFixed(sigma, fields[i]);
        if IsScalarKey(fields[i].key) {
          FixedImages(sigma, fields[i].value);
        } else {
          HiddenAreFixed(sigma, fields[i].value);
        }
      }
    case Arr(items) =>
      forall r | r in Hidden(j) ensures Image(sigma, r) == r {
        var i :| 0 <= i < |items| && r in Hidden(items[i]);
        assert HiddenFixed(sigma, items[i]);
        HiddenAreFixed(sigma, items[i]);
      }
    case _ =>
  }

  lemma {:induction false} FixedImages(sigma: IdMap, j: Json)
    requires RefsFixed(sigma, j)
    ensures forall r | r in Refs(j) :: Image(sigma, r) == r
    decreases j
  {
    match j
    case Obj(fields) =>
      forall r | r in Refs(j) ensures Image(sigma, r) == r {
        var i :| 0 <= i < |fields| && r in FieldRefs(fields[i]);
        var f := fields[i];
        assert FieldFixed(sigma, f);
        if IsScalarRef(f) {
          MapRefIs(sigma, f.value);
        } else if IsListRef(f) {
          var k :| 0 <= k < |f.value.items| && ToInts(f.value.items)[k] == r;
          MapRefIs(sigma, f.value.items[k]);
          assert MapRef(sigma, f.value.items[k]) == f.value.items[k];
        } else {
          FixedImages(sigma, f.value);
        }
      }
    case Arr(items) =>
      forall r | r in Refs(j) ensures Image(sigma, r) == r {
        var i :| 0 <= i < |items| && r in Refs(items[i]);
        assert RefsFixed(sigma, items[i]);
        FixedImages(sigma, items[i]);
      }
    case _ =>
  }

  lemma {:induction false} RenamedRefs(sigma: IdMap, j: Json)
    requires HiddenFixed(sigma, j)
    ensures Refs(Rewrite(sigma, j)) == Images(sigma, Refs(j))
  {
    RewrittenRefs(sigma, j);
    RefsSplit(j);
    HiddenAreFixed(sigma, j);
    assert forall r | r in Hidden(j) :: Image(sigma, r) in Images(sigma, Refs(j));
  }

  ghost predicate InjectiveOn(sigma: IdMap, s: set<int>) {
    forall a, b | a in s && b in s && a in sigma && b in sigma && sigma[a] == sigma[b] :: a == b
  }

  ghost predicate AllImages(plan1: Nodes, plan2: Nodes, sigma: IdMap) {
    forall c | c in plan2 :: exists r :: r in plan1 && r in sigma && sigma[r] == c
  }

  /** A plan is acyclic exactly when its renamed form is. */
  lemma {:induction false} AcyclicityKept(plan1: Nodes, sigs1: Signatures, plan2: Nodes, sigs2: Signatures, sigma: IdMap)
    requires Corresponds(plan1, sigs1, plan2, sigs2, sigma) && InjectiveOn(sigma, plan1.Keys)
    requires AllImages(plan1, plan2, sigma)
    ensures HasCycle(RefGraph(plan1)) <==> HasCycle(RefGraph(plan2))
  {
    var g, h := RefGraph(plan1), RefGraph(plan2);
    forall a, b | Edge(g, a, b) ensures a in sigma && b in sigma && Edge(h, sigma[a], sigma[b]) {
      RefEdge(plan1, a, b);
      RefEdge(plan2, sigma[a], sigma[b]);
      assert NodeCorresponds(plan1[a], plan2, sigma, a) && NodeCorresponds(plan1[b], plan2, sigma, b);
      RenamedRefs(sigma, plan1[a]);
      assert Image(sigma, b) in Images(sigma, Refs(plan1[a]));
    }
    if HasCycle(g) {
      CycleMaps(g, h, sigma);
    }
    if HasCycle(h) {
      var back := map c | c in plan2 :: Origin(plan1, sigma, plan2, c);
      forall a, b | Edge(h, a, b) ensures a in back && b in back && Edge(g, back[a], back[b]) {
        RefEdge(plan2, a, b);
        var x := Origin(plan1, sigma, plan2, a);
        assert NodeCorresponds(plan1[x], plan2, sigma, x);
        RenamedRefs(sigma, plan1[x]);
        var y :| y in Refs(plan1[x]) && Image(sigma, y) == b;
        assert y in plan1;
        RefEdge(plan1, x, y);
        assert back[b] == y;
      }
      CycleMaps(h, g, back);
    }
  }

  ghost function Origin(plan1: Nodes, sigma: IdMap, plan2: Nodes, c: int): (r: int)
    requires plan1.Keys <= sigma.Keys && c in plan2
    requires AllImages(plan1, plan2, sigma)
    ensures r in plan1 && sigma[r] == c
  {
    var r :| r in plan1 && sigma[r] == c;
    r
  }

  // ----- What an unfolding tells -----

  /** Unfoldings tell operators apart: equal ones have the same members, with equal unfoldings, in the same order. */
  lemma {:induction false} UnfoldingTellsMembers(plan1: Nodes, sigs1: Signatures, r1: int, plan2: Nodes, sigs2: Signatures, r2: int, n: nat)
    requires r1 in plan1 && r2 in plan2 && plan1[r1].Obj? && plan2[r2].Obj? && !IsScanNode(plan1[r1]) && !IsScanNode(plan2[r2])
    requires UnfoldRef(plan1, sigs1, r1, n + 1) == UnfoldRef(plan2, sigs2, r2, n + 1)
    ensures
      var a, b := plan1[r1].fields, plan2[r2].fields;
      |a| == |b| && forall i | 0 <= i < |a| ::
        a[i].key == b[i].key && UnfoldField(plan1, sigs1, a[i], n) == UnfoldField(plan2, sigs2, b[i], n)
  {
    var a, b := plan1[r1].fields, plan2[r2].fields;
    var u, v := Unfold(plan1, sigs1, plan1[r1], n).fields, Unfold(plan2, sigs2, plan2[r2], n).fields;
    assert u == v;
    forall i | 0 <= i < |a|
      ensures a[i].key == b[i].key && UnfoldField(plan1, sigs1, a[i], n) == UnfoldField(plan2, sigs2, b[i], n)
    {
      assert u[i] == TermField(a[i].key, UnfoldField(plan1, sigs1, a[i], n));
      assert v[i] == TermField(b[i].key, UnfoldField(plan2, sigs2, b[i], n));
    }
  }

  /** And scans by signature, in the plan or in the table. */
  lemma {:induction false} UnfoldingTellsScans(plan1: Nodes, sigs1: Signatures, r1: int, plan2: Nodes, sigs2: Signatures, r2: int, n: nat)
    requires UnfoldRef(plan1, sigs1, r1, n + 1) == UnfoldRef(plan2, sigs2, r2, n + 1)
    ensures r1 !in plan1 && r1 in sigs1 ==> r2 !in plan2 && r2 in sigs2 && sigs2[r2] == sigs1[r1]
    ensures r1 !in plan1 && r1 !in sigs1 ==> r2 !in plan2 && r2 !in sigs2 && r2 == r1
    ensures r1 in plan1 && IsScanNode(plan1[r1]) && Signature(plan1[r1]).Ok? ==>
              r2 in plan2 && IsScanNode(plan2[r2]) && Signature(plan2[r2]) == Signature(plan1[r1])
  {}

  /** Below a member an unfolding tells the id's target, and values as they are. */
  lemma {:induction false} UnfoldingOfMembers(plan: Nodes, sigs: Signatures, key: string, id: int, v: Json, n: nat)
    ensures key in ["input", "left", "right"] ==> UnfoldField(plan, sigs, Field(key, Int(id)), n) == UnfoldRef(plan, sigs, id, n)
    ensures key !in ["input", "left", "right"] ==> UnfoldField(plan, sigs, Field(key, Int(id)), n) == TAtom(Int(id))
    ensures !v.Obj? && !v.Arr? ==> Unfold(plan, sigs, v, n) == TAtom(v)
  {}
}
