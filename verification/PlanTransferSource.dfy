/** What a transfer preserves, in terms of the source plan and the target table. */
module PlanTransferSource {
  import opened Basics
  import opened Json
  import opened Graphs
  import opened PlanStructure
  import opened ScanMatching
  import opened ScanRebinding
  import opened Renumbering
  import opened PlanRewrite
  import opened PlanMeaning
  import opened PlanTransfer
  import opened PlanTransferMeaning

  // ----- Scans without references -----

  lemma {:induction false} NoRefsIff(fs: seq<Field>)
    ensures Refs(Obj(fs)) == {} <==> forall i | 0 <= i < |fs| :: FieldRefs(fs[i]) == {}
  {
    if Refs(Obj(fs)) == {} {
      forall i | 0 <= i < |fs| ensures FieldRefs(fs[i]) == {} {
        forall x ensures x !in FieldRefs(fs[i]) {
          assert x in FieldRefs(fs[i]) ==> x in Refs(Obj(fs));
        }
        EmptySet(FieldRefs(fs[i]));
      }
    }
    if forall i | 0 <= i < |fs| :: FieldRefs(fs[i]) == {} {
      forall x ensures x !in Refs(Obj(fs)) {}
      EmptySet(Refs(Obj(fs)));
    }
  }

  lemma {:induction false} SetKeepsNoRefs(fs: seq<Field>, key: string, v: Json)
    requires Refs(Obj(fs)) == {} && FieldRefs(Field(key, v)) == {}
    ensures Refs(Obj(SetField(fs, key, v))) == {}
  {
    var r := SetField(fs, key, v);
    NoRefsIff(fs);
    if fs != [] && fs[0].key != key {
      NoRefsIff(fs[1..]);
      SetKeepsNoRefs(fs[1..], key, v);
      NoRefsIff(r[1..]);
      assert r == [fs[0]] + SetField(fs[1..], key, v);
    }
    forall i | 0 <= i < |r| ensures FieldRefs(r[i]) == {} {
      if i > 0 { assert r[i] == r[1..][i - 1]; }
    }
    NoRefsIff(r);
  }

  lemma {:induction false} MemberHasNoRefs(fs: seq<Field>, key: string)
    requires Refs(Obj(fs)) == {} && HasKey(fs, key)
    ensures FieldRefs(Field(key, GetField(fs, key))) == {}
  {
    NoRefsIff(fs);
    var i :| 0 <= i < |fs| && fs[i] == Field(key, GetField(fs, key));
  }

  lemma {:induction false} ObjectMemberHasNoRefs(fs: seq<Field>, key: string)
    requires Refs(Obj(fs)) == {} && HasKey(fs, key) && GetField(fs, key).Obj?
    ensures Refs(GetField(fs, key)) == {}
  {
    MemberHasNoRefs(fs, key);
  }

  /** A scan without references, bound to an entry without references, has none. */
  lemma {:induction false} ReboundHasNoRefs(node: Json, target: Json)
    requires IsScanNode(node) && Signature(node).Ok? && Refs(node) == {} && Refs(target) == {}
    ensures Refs(RebindNode(node, target)) == {}
  {
    ObjectMemberHasNoRefs(node.fields, "parquetScan");
    var scan1 := GetField(node.fields, "parquetScan").fields;
    var pred := MemberOr(scan1, "predicate", Null);
    if !pred.Null? && target.Obj? {
      var scan := MemberOr(target.fields, "parquetScan", Obj([]));
      if scan.Obj? {
        MemberHasNoRefs(scan1, "predicate");
        if HasKey(target.fields, "parquetScan") {
          ObjectMemberHasNoRefs(target.fields, "parquetScan");
        } else {
          NoRefsIff([]);
        }
        SetKeepsNoRefs(scan.fields, "predicate", pred);
        var scan' := Obj(SetField(scan.fields, "predicate", pred));
        SetKeepsNoRefs(target.fields, "parquetScan", scan');
      }
    }
  }

  predicate QuietScans(plan: seq<Field>, entries: seq<Entry>) {
    && (forall i | 0 <= i < |plan| && IsScanNode(plan[i].value) :: Refs(plan[i].value) == {})
    && forall e | e in entries :: Refs(e.node) == {}
  }

  /** The same node, or a scan without references in both plans. */
  predicate SameRefs(a: Json, b: Json) {
    a == b || (Refs(a) == {} && Refs(b) == {})
  }

  lemma {:induction false} RebindKeepsRefs(opt: seq<Field>, entries: seq<Entry>, i: nat)
    requires DigitKeys(opt) && (forall e | e in entries :: IntegerId(e)) && Rebind(opt, entries).Ok? && QuietScans(opt, entries)
    requires i < |opt|
    ensures |Rebind(opt, entries).value| == |opt| && Rebind(opt, entries).value[i].key == opt[i].key
    ensures SameRefs(opt[i].value, Rebind(opt, entries).value[i].value)
  {
    if IsScanNode(opt[i].value) {
      RankFits(opt, i);
      var targets := Targets(entries, Signature(opt[i].value).value);
      assert targets[Rank(opt, i)] in targets;
      ReboundHasNoRefs(opt[i].value, targets[Rank(opt, i)].node);
    }
  }

  /** Plans with the same keys in the same order, node by node with the same references. */
  ghost predicate SameShape(a: seq<Field>, b: seq<Field>) {
    |a| == |b| && forall i | 0 <= i < |a| :: b[i].key == a[i].key && SameRefs(a[i].value, b[i].value)
  }

  lemma {:induction false} RebindKeepsShape(opt: seq<Field>, entries: seq<Entry>)
    requires DigitKeys(opt) && (forall e | e in entries :: IntegerId(e)) && Rebind(opt, entries).Ok? && QuietScans(opt, entries)
    ensures SameShape(opt, Rebind(opt, entries).value)
  {
    forall i | 0 <= i < |opt|
      ensures Rebind(opt, entries).value[i].key == opt[i].key && SameRefs(opt[i].value, Rebind(opt, entries).value[i].value)
    {
      RebindKeepsRefs(opt, entries, i);
    }
  }

  // ----- Plans of the same shape -----

  lemma {:induction false} SameNodes(a: seq<Field>, b: seq<Field>)
    requires SameShape(a, b)
    ensures NodesById(a).Keys == NodesById(b).Keys
    ensures forall r | r in NodesById(a) :: SameRefs(NodesById(a)[r], NodesById(b)[r])
  {
    if a != [] {
      SameNodes(a[..|a| - 1], b[..|b| - 1]);
    }
  }

  lemma {:induction false} ScalarRefHasId(f: Field)
    ensures IsScalarRef(f) ==> FieldRefs(f) != {}
  {
    if IsScalarRef(f) {
      assert ToInt(f.value) in FieldRefs(f);
    }
  }

  lemma {:induction false} NoDirectRefs(fs: seq<Field>)
    requires Refs(Obj(fs)) == {}
    ensures DirectRefs(fs) == []
  {
    if fs != [] {
      NoRefsIff(fs);
      NoRefsIff(fs[1..]);
      NoDirectRefs(fs[1..]);
      assert FieldRefs(fs[0]) == {};
      ScalarRefHasId(fs[0]);
      if IsListRef(fs[0]) {
        NoIdsNoItems(fs[0].value.items);
      }
    }
  }

  lemma {:induction false} NoChildren(node: Json, among: set<int>)
    requires Refs(node) == {}
    ensures ChildrenOf(node, among) == []
  {
    if node.Obj? && |node.fields| == 1 && node.fields[0].value.Obj? {
      NoRefsIff(node.fields);
      NoDirectRefs(node.fields[0].value.fields);
    }
  }

  lemma {:induction false} SameChildren(a: Json, b: Json, among: set<int>)
    requires SameRefs(a, b)
    ensures ChildrenOf(a, among) == ChildrenOf(b, among)
  {
    if a != b {
      NoChildren(a, among);
      NoChildren(b, among);
    }
  }

  lemma {:induction false} SameChildGraph(a: seq<Field>, b: seq<Field>)
    requires SameShape(a, b)
    ensures ChildGraph(a) == ChildGraph(b)
  {
    SameNodes(a, b);
    forall r | r in NodesById(a) ensures ChildGraph(a)[r] == ChildGraph(b)[r] {
      SameChildren(NodesById(a)[r], NodesById(b)[r], NodeIds(a));
    }
    assert ChildGraph(a).Keys == ChildGraph(b).Keys;
  }

  lemma {:induction false} SamePlanRefs(a: seq<Field>, b: seq<Field>)
    requires SameShape(a, b)
    ensures PlanRefs(a) == PlanRefs(b)
  {
    forall i | 0 <= i < |a| ensures Refs(a[i].value) == Refs(b[i].value) {
      assert SameRefs(a[i].value, b[i].value);
    }
  }

  /** Plans of the same shape are renumbered alike. */
  lemma {:induction false} SameRenumbering(a: seq<Field>, b: seq<Field>, reserved: set<int>)
    requires SameShape(a, b)
    ensures Renumber(a, reserved) == Renumber(b, reserved)
  {
    SameChildGraph(a, b);
    SamePlanRefs(a, b);
    SameNodes(a, b);
    assert Starts(a) == Starts(b);
  }

  lemma {:induction false} SameRefGraph(a: seq<Field>, b: seq<Field>)
    requires SameShape(a, b)
    ensures RefGraph(NodesById(a)) == RefGraph(NodesById(b))
  {
    SameNodes(a, b);
    var p, q := NodesById(a), NodesById(b);
    forall r | r in p ensures Refs(p[r]) == Refs(q[r]) {}
    assert RefGraph(p).Keys == RefGraph(q).Keys;
  }

  // ----- Faithful sources -----

  /** Where the transfer sends node ids and source scan ids. */
  function SourceSigma(s: Setting): IdMap
    requires ReadableTables(s) && s.opt.Obj? && Matchable(Sf1(s), Sf2(s))
  {
    Combine(Renumber(s.opt.fields, Sf2(s).Keys), ScanMapping(Sf1(s), Sf2(s)).value)
  }

  /**
    References of the source plan resolve, hidden ones need no change, and
    neither its scan nodes nor the target's table entries hold references.
   */
  predicate FaithfulSource(s: Setting)
    requires ReadableTables(s) && s.opt.Obj? && Matchable(Sf1(s), Sf2(s))
  {
    QuietScans(s.opt.fields, Entries2(s)) && Faithful(s.opt.fields, SourceSigma(s))
  }

  /** Fixed references are fixed where they are hidden. */
  lemma {:induction false} FixedIsHiddenFixed(sigma: IdMap, j: Json)
    requires RefsFixed(sigma, j)
    ensures HiddenFixed(sigma, j)
    decreases j
  {
    match j
    case Obj(fields) =>
      forall i | 0 <= i < |fields| ensures FieldHiddenFixed(sigma, fields[i]) {
        assert FieldFixed(sigma, fields[i]);
        if !IsScalarRef(fields[i]) && !IsListRef(fields[i]) {
          FixedIsHiddenFixed(sigma, fields[i].value);
        }
      }
    case Arr(items) =>
      forall i | 0 <= i < |items| ensures HiddenFixed(sigma, items[i]) {
        FixedIsHiddenFixed(sigma, items[i]);
      }
    case _ =>
  }

  lemma {:induction false} QuietIsFixed(sigma: IdMap, j: Json)
    requires Refs(j) == {}
    ensures RefsFixed(sigma, j)
    decreases j
  {
    match j
    case Obj(fields) =>
      NoRefsIff(fields);
      forall i | 0 <= i < |fields| ensures FieldFixed(sigma, fields[i]) {
        ScalarRefHasId(fields[i]);
        if IsListRef(fields[i]) {
          NoIdsNoItems(fields[i].value.items);
        } else {
          QuietIsFixed(sigma, fields[i].value);
        }
      }
    case Arr(items) =>
      forall i | 0 <= i < |items| ensures RefsFixed(sigma, items[i]) {
        ItemHasNoRefs(items, i);
        QuietIsFixed(sigma, items[i]);
      }
    case _ =>
  }

  lemma {:induction false} ItemHasNoRefs(items: seq<Json>, i: nat)
    requires Refs(Arr(items)) == {} && i < |items|
    ensures Refs(items[i]) == {}
  {
    forall x ensures x !in Refs(items[i]) {
      assert x in Refs(items[i]) ==> x in Refs(Arr(items));
    }
    EmptySet(Refs(items[i]));
  }

  lemma {:induction false} QuietIsFaithful(node: Json, sigma: IdMap)
    requires Refs(node) == {}
    ensures FaithfulNode(node, sigma)
  {
    QuietIsFixed(sigma, node);
    FixedIsHiddenFixed(sigma, node);
  }

  lemma {:induction false} SameShapeIsFaithful(a: seq<Field>, b: seq<Field>, sigma: IdMap)
    requires SameShape(a, b) && Faithful(a, sigma)
    ensures Faithful(b, sigma)
  {
    forall i | 0 <= i < |b| ensures FaithfulNode(b[i].value, sigma) {
      assert FaithfulNode(a[i].value, sigma) && SameRefs(a[i].value, b[i].value);
      if a[i].value != b[i].value {
        QuietIsFaithful(b[i].value, sigma);
      }
    }
  }

  /** The rebound plan of a faithful source. */
  lemma {:induction false} SourceIsFaithful(s: Setting)
    requires Transferable(s) && Matchable(Sf1(s), Sf2(s)) && FaithfulSource(s)
    ensures SameShape(s.opt.fields, Rebased(s))
    ensures Sigma(s) == SourceSigma(s) && Faithful(Rebased(s), Sigma(s))
  {
    RebasedHasSourceShape(s);
    SameShapeIsFaithful(s.opt.fields, Rebased(s), SourceSigma(s));
  }

  lemma {:induction false} RebasedHasSourceShape(s: Setting)
    requires ReadableTables(s) && s.opt.Obj? && DigitKeys(s.opt.fields) && Rebind(s.opt.fields, Entries2(s)).Ok?
    requires Matchable(Sf1(s), Sf2(s)) && QuietScans(s.opt.fields, Entries2(s))
    ensures SameShape(s.opt.fields, Rebased(s)) && Sigma(s) == SourceSigma(s)
  {
    RebindKeepsShape(s.opt.fields, Entries2(s));
    SameRenumbering(s.opt.fields, Rebased(s), Sf2(s).Keys);
  }

  /**
    Transfer preserves the plan.  Ids are sent injectively, node ids clear of
    the target's scan ids, scans to scans of equal signature; and from every
    node and scan of the patched source plan the operator tree, unfolded to any
    depth with scans known by signature, is the one that the transferred plan
    unfolds to from the image.
   */
  lemma {:induction false} TransferPreservesMeaning(s: Setting, r: int, n: nat)
    requires WellFormed(s.opt) && Transferable(s) && ScanEntries(Entries2(s))
    requires Matchable(Sf1(s), Sf2(s)) && FaithfulSource(s)
    requires r in NodeIds(s.opt.fields) || r in Sf1(s)
    ensures TransferPatched(s.base1, s.info1, s.base2, s.info2, s.opt).Ok?
    ensures r in SourceSigma(s) && Injective(SourceSigma(s))
    ensures UnfoldRef(NodesById(s.opt.fields), Sf1(s), r, n) == UnfoldRef(Transferred(s), Sf2(s), SourceSigma(s)[r], n)
  {
    SourceIsFaithful(s);
    RebasedTransferKeepsMeaning(s, r, n);
  }

  /** The transferred plan is acyclic if and only if the source plan is. */
  lemma {:induction false} TransferPreservesAcyclicity(s: Setting)
    requires WellFormed(s.opt) && Transferable(s) && Matchable(Sf1(s), Sf2(s)) && FaithfulSource(s)
    ensures TransferPatched(s.base1, s.info1, s.base2, s.info2, s.opt).Ok?
    ensures HasCycle(RefGraph(NodesById(s.opt.fields))) <==> HasCycle(RefGraph(Transferred(s)))
  {
    SourceIsFaithful(s);
    SameRefGraph(s.opt.fields, Rebased(s));
    RebasedTransferKeepsAcyclicity(s);
  }
}
