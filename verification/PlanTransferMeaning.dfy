/** End-to-end theorems about `transfer_plan`. */
module PlanTransferMeaning {
  import opened Basics
  import opened Decimal
  import opened Json
  import opened Graphs
  import opened PlanStructure
  import opened ScanMatching
  import opened ScanRebinding
  import opened Renumbering
  import opened FreshIds
  import opened PlanRewrite
  import opened PlanMeaning
  import opened PlanTransfer
  import opened PlanTransferTheorems
  import Patching = JsonPatch
  import PatchSpec = JsonPatchSpec

  // ----- Success -----

  /** The arguments and intermediate values of a transfer whose patch applied. */
  datatype Setting = Setting(base1: Json, info1: Json, base2: Json, info2: Json, opt: Json)

  predicate ValidInputs(s: Setting) {
    ValidStructure(s.base1) && ValidStructure(s.base2) && ValidStructure(s.opt)
  }

  predicate ReadableTables(s: Setting) {
    SignatureMap(s.info1).Ok? && SignatureMap(s.info2).Ok?
  }

  function Sf1(s: Setting): Signatures
    requires ReadableTables(s)
  {
    SignatureMap(s.info1).value
  }

  function Sf2(s: Setting): Signatures
    requires ReadableTables(s)
  {
    SignatureMap(s.info2).value
  }

  function Entries2(s: Setting): (r: seq<Entry>)
    requires ReadableTables(s)
    ensures forall e | e in r :: IntegerId(e)
  {
    EntriesAreInteger(map[], TableInfoEntries(s.info2).value);
    TableInfoEntries(s.info2).value
  }

  ghost predicate InjectionExists(s: Setting)
    requires ReadableTables(s)
  {
    exists m :: Preserving(m, Sf1(s), Sf2(s))
  }

  /** Everything that a successful transfer needs. */
  ghost predicate Transferable(s: Setting) {
    && ValidInputs(s) && ReadableTables(s) && InjectionExists(s)
    && DigitKeys(s.opt.fields)
    && MatchedTransferable(s.opt.fields, Entries2(s), Sf1(s), Sf2(s))
  }

  lemma {:induction false} StructureIs(s: Setting)
    requires ValidInputs(s) && ReadableTables(s)
    ensures DigitKeys(s.opt.fields)
    ensures TransferStructure(s.base1, s.info1, s.base2, s.info2, s.opt) ==
            if ScanMapping(Sf1(s), Sf2(s)).Err? then Err(ScanMapping(Sf1(s), Sf2(s)).error)
            else TransferMatched(s.opt.fields, Entries2(s), Sf2(s), ScanMapping(Sf1(s), Sf2(s)).value)
  {
    ValidHasDigitKeys(s.opt);
  }

  /** The result of `_transfer_plan` passes every later check. */
  lemma {:induction false} LaterChecksNeverFire(s: Setting)
    requires TransferStructure(s.base1, s.info1, s.base2, s.info2, s.opt).Ok?
    ensures
      var t := TransferStructure(s.base1, s.info1, s.base2, s.info2, s.opt);
      Validated(t, s.info2) == t
  {
    ValidHasDigitKeys(s.opt);
    StructureIs(s);
    var scans := ScanMapping(Sf1(s), Sf2(s)).value;
    var rebased := Rebind(s.opt.fields, Entries2(s)).value;
    RenumberAvoids(rebased, Sf2(s).Keys);
    LeafCheckNeverFires(rebased, Renumber(rebased, Sf2(s).Keys), scans, Sf2(s).Keys);
  }

  lemma {:induction false} StructureSucceedsIff(s: Setting)
    requires WellFormed(s.opt)
    ensures TransferStructure(s.base1, s.info1, s.base2, s.info2, s.opt).Ok? <==> Transferable(s)
  {
    if ValidInputs(s) && ReadableTables(s) {
      StructureIs(s);
      MatchableIffInjection(Sf1(s), Sf2(s));
      if Matchable(Sf1(s), Sf2(s)) {
        MappingPreserves(Sf1(s), Sf2(s));
        MatchedIs(s.opt.fields, Entries2(s), Sf1(s), Sf2(s), ScanMapping(Sf1(s), Sf2(s)).value);
      }
    }
  }

  lemma {:induction false} PatchedIs(s: Setting)
    ensures TransferPatched(s.base1, s.info1, s.base2, s.info2, s.opt).Ok? <==>
            TransferStructure(s.base1, s.info1, s.base2, s.info2, s.opt).Ok?
    ensures TransferPatched(s.base1, s.info1, s.base2, s.info2, s.opt).Ok? ==>
              TransferPatched(s.base1, s.info1, s.base2, s.info2, s.opt) ==
              TransferStructure(s.base1, s.info1, s.base2, s.info2, s.opt)
  {
    if TransferStructure(s.base1, s.info1, s.base2, s.info2, s.opt).Ok? {
      LaterChecksNeverFire(s);
    }
  }

  /**
    Exactly when `transfer_plan` returns a plan: the patch applies, the three
    structures are plans, the tables are readable, some injection of the source
    scans into the target scans keeps signatures, the embedded scans can be
    rebound, the keys are canonical, and the references are acceptable.
   */
  lemma {:induction false} TransferSucceedsIff(base1: Json, info1: Json, base2: Json, info2: Json, patch: Json)
    requires WellFormed(base1) && WellFormed(patch)
    ensures Transfer(base1, info1, base2, info2, patch).Ok? <==>
            && Patching.Apply(base1, patch).Ok?
            && Transferable(Setting(base1, info1, base2, info2, Patching.Apply(base1, patch).value))
  {
    PatchSpec.ApplyRefines(base1, patch);
    if Patching.Apply(base1, patch).Ok? {
      var s := Setting(base1, info1, base2, info2, Patching.Apply(base1, patch).value);
      StructureSucceedsIff(s);
      PatchedIs(s);
    }
  }

  // ----- Plans without embedded scans or unresolvable references -----

  predicate NoEmbeddedScans(plan: seq<Field>) {
    forall i | 0 <= i < |plan| :: !IsScanNode(plan[i].value)
  }

  lemma {:induction false} NothingToRebind(plan: seq<Field>, entries: seq<Entry>)
    requires DigitKeys(plan) && NoEmbeddedScans(plan) && forall e | e in entries :: IntegerId(e)
    ensures Rebind(plan, entries) == Ok(plan)
  {
    var r := Rebind(plan, entries).value;
    assert forall i | 0 <= i < |plan| :: r[i] == plan[i];
    assert r == plan;
  }

  lemma {:induction false} VisibleAreRefs(plan: seq<Field>)
    ensures PlanRefs(plan) == PlanVisible(plan) + PlanHidden(plan)
  {
    forall i | 0 <= i < |plan| ensures Refs(plan[i].value) == Visible(plan[i].value) + Hidden(plan[i].value) {
      RefsSplit(plan[i].value);
    }
  }

  /** References that resolve at the source scale, none of them hidden. */
  predicate Resolved(plan: seq<Field>, sf1: Signatures) {
    PlanRefs(plan) <= NodeIds(plan) + sf1.Keys && PlanHidden(plan) == {}
  }

  lemma {:induction false} TidyIsTransferable(opt: seq<Field>, entries: seq<Entry>, sf1: Signatures, sf2: Signatures)
    requires ValidStructure(Obj(opt)) && DigitKeys(opt) && (forall e | e in entries :: IntegerId(e))
    requires CanonicalKeys(opt) && NoEmbeddedScans(opt)
    requires PlanVisible(opt) <= NodeIds(opt) + sf1.Keys + sf2.Keys && PlanHidden(opt) == {}
    ensures MatchedTransferable(opt, entries, sf1, sf2)
  {
    NothingToRebind(opt, entries);
  }

  /**
    Completeness.  For readable tables and a plan with canonical keys, no
    embedded scan, no hidden reference, and references that resolve at the
    source scale, a transfer raises exactly when there is no injection of the
    source scans into the target scans that keeps signatures.
   */
  lemma {:induction false} RaisesIffNoInjection(s: Setting)
    requires WellFormed(s.opt) && ValidInputs(s) && ReadableTables(s)
    requires CanonicalKeys(s.opt.fields) && NoEmbeddedScans(s.opt.fields) && Resolved(s.opt.fields, Sf1(s))
    ensures TransferPatched(s.base1, s.info1, s.base2, s.info2, s.opt).Err? <==> !InjectionExists(s)
  {
    ValidHasDigitKeys(s.opt);
    assert Obj(s.opt.fields) == s.opt;
    VisibleAreRefs(s.opt.fields);
    TidyIsTransferable(s.opt.fields, Entries2(s), Sf1(s), Sf2(s));
    StructureSucceedsIff(s);
    PatchedIs(s);
  }

  /** A plan of one filter whose input is `id`. */
  function FilterOf(id: int): seq<Field> {
    [Field("1", Obj([Field("filter", Obj([Field("input", Int(id))]))]))]
  }

  lemma {:induction false} FilterRefs(id: int)
    ensures PlanVisible(FilterOf(id)) == {id} == PlanRefs(FilterOf(id)) && PlanHidden(FilterOf(id)) == {}
    ensures NodeIds(FilterOf(id)) == {1}
  {
    var config := Obj([Field("input", Int(id))]);
    var node := Obj([Field("filter", config)]);
    var plan := FilterOf(id);
    assert FieldVisible(config.fields[0]) == {id} && FieldHidden(config.fields[0]) == {};
    assert Visible(config) == {id} && Hidden(config) == {};
    assert FieldVisible(node.fields[0]) == {id} && FieldHidden(node.fields[0]) == {};
    assert Visible(node) == {id} && Hidden(node) == {};
    assert plan[0].value == node;
    assert PlanVisible(plan) == {id} && PlanHidden(plan) == {};
    VisibleAreRefs(plan);
    assert plan[..0] == [] && ParseNat("1") == 1 && IsDigits("1");
    assert NodesById(plan).Keys == {1};
  }

  lemma {:induction false} FilterIsValid(id: int)
    ensures ValidStructure(Obj(FilterOf(id))) && DigitKeys(FilterOf(id)) && CanonicalKeys(FilterOf(id))
    ensures NoEmbeddedScans(FilterOf(id)) && DistinctKeys(FilterOf(id))
  {
    var plan := FilterOf(id);
    assert ToDecimal(1) == "1" && IsDigits("1") && ParseNat("1") == 1;
    assert "filter" != "parquetScan" by { assert |"filter"| != |"parquetScan"|; }
    assert forall i | 0 <= i < |plan[0].value.fields| :: plan[0].value.fields[i].key == "filter";
    assert ValidNode(plan[0]);
  }

  // ----- Plans without embedded scans -----

  lemma {:induction false} PlainIsTransferableIff(opt: seq<Field>, entries: seq<Entry>, sf1: Signatures, sf2: Signatures)
    requires ValidStructure(Obj(opt)) && DigitKeys(opt) && (forall e | e in entries :: IntegerId(e))
    requires CanonicalKeys(opt) && NoEmbeddedScans(opt)
    ensures MatchedTransferable(opt, entries, sf1, sf2) <==> RefsLand(opt, sf1, sf2)
  {
    NothingToRebind(opt, entries);
  }

  /**
    Exactly when a plan without embedded scans is transferred: the scans can be
    matched, and every reference is a node id, a source scan id, a target scan
    id, or one of the fresh ids of the nodes whose ids collide with target scan
    ids.  A reference that resolves to nothing at the source is caught only if
    it is none of the last two either.
   */
  lemma {:induction false} PlainTransferSucceedsIff(s: Setting)
    requires WellFormed(s.opt) && ValidInputs(s) && ReadableTables(s)
    requires CanonicalKeys(s.opt.fields) && NoEmbeddedScans(s.opt.fields)
    ensures TransferPatched(s.base1, s.info1, s.base2, s.info2, s.opt).Ok? <==>
            InjectionExists(s) && RefsLand(s.opt.fields, Sf1(s), Sf2(s))
  {
    ValidHasDigitKeys(s.opt);
    assert Obj(s.opt.fields) == s.opt;
    PlainIsTransferableIff(s.opt.fields, Entries2(s), Sf1(s), Sf2(s));
    StructureSucceedsIff(s);
    PatchedIs(s);
  }

  /** A target table with one scan of this id. */
  function OneScan(id: int): Json {
    Arr([Obj([Field("id", Int(id)), Field("node", Null)])])
  }

  lemma {:induction false} OneScanIs(id: int)
    ensures SignatureMap(OneScan(id)) == Ok(map[id := VNull])
  {
    var fs := [Field("id", Int(id)), Field("node", Null)];
    var item := Obj(fs);
    assert "id" != "node" by { assert |"id"| != |"node"|; }
    assert fs[0].key == "id" && fs[1].key == "node" && fs[1..] == [Field("node", Null)];
    assert HasKey(fs, "id") && HasKey(fs, "node");
    assert GetField(fs, "id") == Int(id) && GetField(fs, "node") == Null;
    assert [item][1..] == [];
    assert EntriesOf([item]) == [Entry(Int(id), Null)];
    assert [Entry(Int(id), Null)][1..] == [];
    assert Signature(Null) == Ok(VNull);
    assert AddSignature(map[], Entry(Int(id), Null)) == Ok(map[id := VNull]);
    assert SignaturesFrom(map[], [Entry(Int(id), Null)]) == SignaturesFrom(map[id := VNull], []);
  }

  lemma {:induction false} FilterIsWellFormed(id: int)
    ensures WellFormed(Obj(FilterOf(id)))
  {
    var config := Obj([Field("input", Int(id))]);
    assert WellFormed(config);
    assert WellFormed(Obj([Field("filter", config)]));
  }

  /** The filter on `id`, without source scans, for a target whose only scan is `scan`. */
  function FilterSetting(id: int, scan: int): Setting {
    Setting(Obj(FilterOf(id)), Null, Obj([]), OneScan(scan), Obj(FilterOf(id)))
  }

  lemma {:induction false} FilterSettingIs(id: int, scan: int)
    ensures ValidInputs(FilterSetting(id, scan)) && ReadableTables(FilterSetting(id, scan))
    ensures Sf1(FilterSetting(id, scan)) == map[] && Sf2(FilterSetting(id, scan)) == map[scan := VNull]
    ensures InjectionExists(FilterSetting(id, scan))
  {
    var s := FilterSetting(id, scan);
    OneScanIs(scan);
    FilterIsValid(id);
    assert SignatureMap(Null) == Ok(map[]);
    assert Preserving(map[], Sf1(s), Sf2(s));
  }

  /** Such a transfer succeeds if and only if the reference lands. */
  lemma {:induction false} FilterTransfersIff(id: int, scan: int)
    ensures Transfer(Obj(FilterOf(id)), Null, Obj([]), OneScan(scan), Arr([])).Ok? <==>
            id in {1} + {scan} + FreshFor(FilterOf(id), {scan})
  {
    var s := FilterSetting(id, scan);
    EmptyPatchTransfers(s.base1, s.info1, s.base2, s.info2);
    FilterSettingTransfersIff(id, scan);
  }

  lemma {:induction false} FilterSettingTransfersIff(id: int, scan: int)
    ensures
      var s := FilterSetting(id, scan);
      TransferPatched(s.base1, s.info1, s.base2, s.info2, s.opt).Ok? <==> id in {1} + {scan} + FreshFor(FilterOf(id), {scan})
  {
    var s := FilterSetting(id, scan);
    FilterIsValid(id);
    FilterIsWellFormed(id);
    FilterSettingIs(id, scan);
    PlainTransferSucceedsIff(s);
    FilterLands(id, scan);
  }

  lemma {:induction false} FilterLands(id: int, scan: int)
    ensures RefsLand(FilterOf(id), map[], map[scan := VNull]) <==> id in {1} + {scan} + FreshFor(FilterOf(id), {scan})
  {
    FilterRefs(id);
    OneKey(scan, VNull);
  }

  lemma {:induction false} LeastFreshId()
    ensures Fresh({1}, 1) == {0}
  {
    assert NextFree(0, {1}) == 0;
    assert Fresh({1} + {0}, 0) == {};
  }

  lemma {:induction false} OneReserved<T>(ids: set<T>, x: T)
    requires ids == {x}
    ensures ids + {x} == {x} && |ids * {x}| == 1 && ids - {x} == {}
  {
    assert ids * {x} == {x};
  }

  lemma {:induction false} NoneReserved<T>(ids: set<T>, x: T)
    requires x !in ids
    ensures |ids * {x}| == 0
  {
    assert ids * {x} == {};
  }

  /** The one fresh id that the filter can get. */
  lemma {:induction false} FreshForFilter(id: int, scan: int)
    ensures FreshFor(FilterOf(id), {scan}) == if scan == 1 then {0} else {}
  {
    FilterRefs(id);
    if scan == 1 {
      OneReserved(NodeIds(FilterOf(id)), 1);
      LeastFreshId();
    } else {
      NoneReserved(NodeIds(FilterOf(id)), scan);
    }
  }

  /**
    A transfer whose only reference resolves to nothing at the source: the source
    table is empty and the reference is no node id.  It returns a plan if and
    only if the reference happens to be the scan id of the target, or the id that
    the renumbering makes up.
   */
  lemma {:induction false} DanglingReferenceIsCaptured(id: int, scan: int)
    requires id != 1
    ensures SignatureMap(Null) == Ok(map[]) && !Resolved(FilterOf(id), map[])
    ensures Transfer(Obj(FilterOf(id)), Null, Obj([]), OneScan(scan), Arr([])).Ok? <==> id == scan || (scan == 1 && id == 0)
  {
    FilterRefs(id);
    FilterTransfersIff(id, scan);
    FreshForFilter(id, scan);
  }

  lemma {:induction false} EmptyPatchTransfers(base1: Json, info1: Json, base2: Json, info2: Json)
    ensures Transfer(base1, info1, base2, info2, Arr([])) == TransferPatched(base1, info1, base2, info2, base1)
  {
    assert Patching.Apply(base1, Arr([])) == Ok(base1);
  }

  // ----- Meaning -----

  function Rebased(s: Setting): (r: seq<Field>)
    requires ReadableTables(s) && s.opt.Obj? && DigitKeys(s.opt.fields) && Rebind(s.opt.fields, Entries2(s)).Ok?
  {
    Rebind(s.opt.fields, Entries2(s)).value
  }

  /** Where the transfer sends node ids and source scan ids. */
  function Sigma(s: Setting): IdMap
    requires ReadableTables(s) && s.opt.Obj? && DigitKeys(s.opt.fields) && Rebind(s.opt.fields, Entries2(s)).Ok?
    requires Matchable(Sf1(s), Sf2(s))
  {
    Combine(Renumber(Rebased(s), Sf2(s).Keys), ScanMapping(Sf1(s), Sf2(s)).value)
  }

  /** The references of a node are integers or hidden ones that need no change, resolve, and are not inside a scan. */
  predicate FaithfulNode(node: Json, sigma: IdMap) {
    HiddenFixed(sigma, node) && Refs(node) <= sigma.Keys && (IsScanNode(node) ==> Refs(node) == {})
  }

  predicate Faithful(plan: seq<Field>, sigma: IdMap) {
    forall i | 0 <= i < |plan| :: FaithfulNode(plan[i].value, sigma)
  }

  lemma {:induction false} NodeIsCarried(rebased: seq<Field>, internal: IdMap, scans: IdMap, r: int)
    requires Renumbers(rebased, internal) && AllRekeyable(rebased, internal) && r in NodesById(rebased)
    requires Faithful(rebased, Combine(internal, scans))
    ensures NodeCorresponds(NodesById(rebased)[r], NodesById(NewNodes(rebased, internal, scans)), Combine(internal, scans), r)
  {
    RewrittenNode(rebased, internal, scans, r);
    var i := PositionOfNode(rebased, r);
    assert FaithfulNode(rebased[i].value, Combine(internal, scans));
  }

  lemma {:induction false} NodesCorrespond(rebased: seq<Field>, internal: IdMap, scans: IdMap, sf1: Signatures, sf2: Signatures)
    requires Renumbers(rebased, internal) && AllRekeyable(rebased, internal) && Preserving(scans, sf1, sf2)
    requires internal.Values !! sf2.Keys && Faithful(rebased, Combine(internal, scans))
    ensures Corresponds(NodesById(rebased), sf1, NodesById(NewNodes(rebased, internal, scans)), sf2, Combine(internal, scans))
  {
    var sigma, nodes1, nodes2 := Combine(internal, scans), NodesById(rebased), NodesById(NewNodes(rebased, internal, scans));
    forall r | r in nodes1 ensures NodeCorresponds(nodes1[r], nodes2, sigma, r) {
      NodeIsCarried(rebased, internal, scans, r);
    }
    RewrittenIds(rebased, internal, scans);
    assert nodes2.Keys == internal.Values && nodes1.Keys == internal.Keys;
    CorrespondsFrom(nodes1, sf1, nodes2, sf2, internal, scans);
  }

  lemma {:induction false} CorrespondsFrom(nodes1: Nodes, sf1: Signatures, nodes2: Nodes, sf2: Signatures, internal: IdMap, scans: IdMap)
    requires Preserving(scans, sf1, sf2) && nodes1.Keys == internal.Keys && nodes2.Keys == internal.Values
    requires internal.Values !! sf2.Keys
    requires forall r | r in nodes1 :: NodeCorresponds(nodes1[r], nodes2, Combine(internal, scans), r)
    ensures Corresponds(nodes1, sf1, nodes2, sf2, Combine(internal, scans))
  {
    var sigma := Combine(internal, scans);
    forall r | r in sf1 && r !in nodes1 ensures sigma[r] in sf2 && sigma[r] !in nodes2 && sf2[sigma[r]] == sf1[r] {
      assert scans[r] in sf2.Keys;
    }
  }

  lemma {:induction false} CombinedInjective(internal: IdMap, scans: IdMap, sf1: Signatures, sf2: Signatures)
    requires Injective(internal) && Preserving(scans, sf1, sf2) && internal.Values !! sf2.Keys
    ensures Injective(Combine(internal, scans))
  {
    var sigma := Combine(internal, scans);
    assert forall i | i in internal :: internal[i] in internal.Values && internal[i] !in sf2;
    assert forall j | j in scans :: scans[j] in sf2;
    forall i, j | i in sigma && j in sigma && sigma[i] == sigma[j] ensures i == j {
      assert i in internal <==> j in internal;
    }
  }

  /** Two plans that differ in embedded scans of equal signature only. */
  ghost predicate SameButScans(a: Nodes, b: Nodes) {
    && a.Keys == b.Keys
    && forall r | r in a :: a[r] == b[r] || SameScan(a[r], b[r])
  }

  ghost predicate SameScan(a: Json, b: Json) {
    IsScanNode(a) && IsScanNode(b) && Signature(a).Ok? && Signature(b) == Signature(a)
  }

  lemma {:induction false} SameButScansUnfolds(a: Nodes, b: Nodes, sigs: Signatures, r: int, n: nat)
    requires SameButScans(a, b)
    ensures UnfoldRef(a, sigs, r, n) == UnfoldRef(b, sigs, r, n)
    decreases n, 0
  {
    if n > 0 && r in a && a[r] == b[r] {
      SameButScansUnfoldsIn(a, b, sigs, a[r], n - 1);
    }
  }

  lemma {:induction false} SameButScansUnfoldsIn(a: Nodes, b: Nodes, sigs: Signatures, j: Json, n: nat)
    requires SameButScans(a, b)
    ensures Unfold(a, sigs, j, n) == Unfold(b, sigs, j, n)
    decreases n, 1, j
  {
    match j
    case Obj(fields) =>
      forall i | 0 <= i < |fields| ensures UnfoldField(a, sigs, fields[i], n) == UnfoldField(b, sigs, fields[i], n) {
        SameButScansUnfoldsField(a, b, sigs, fields[i], n);
      }
      assert Unfold(a, sigs, j, n).fields == Unfold(b, sigs, j, n).fields;
    case Arr(items) =>
      forall i | 0 <= i < |items| ensures Unfold(a, sigs, items[i], n) == Unfold(b, sigs, items[i], n) {
        SameButScansUnfoldsIn(a, b, sigs, items[i], n);
      }
      assert Unfold(a, sigs, j, n).items == Unfold(b, sigs, j, n).items;
    case _ =>
  }

  lemma {:induction false} SameButScansUnfoldsField(a: Nodes, b: Nodes, sigs: Signatures, f: Field, n: nat)
    requires SameButScans(a, b)
    ensures UnfoldField(a, sigs, f, n) == UnfoldField(b, sigs, f, n)
    decreases n, 1, f
  {
    if IsScalarRef(f) {
      SameButScansUnfolds(a, b, sigs, ToInt(f.value), n);
    } else if IsListRef(f) {
      var items := f.value.items;
      forall i | 0 <= i < |items|
        ensures UnfoldRef(a, sigs, ToInt(items[i]), n) == UnfoldRef(b, sigs, ToInt(items[i]), n)
      {
        SameButScansUnfolds(a, b, sigs, ToInt(items[i]), n);
      }
      assert UnfoldField(a, sigs, f, n).items == UnfoldField(b, sigs, f, n).items;
    } else {
      SameButScansUnfoldsIn(a, b, sigs, f.value, n);
    }
  }

  lemma {:induction false} RebasedIsSame(opt: seq<Field>, entries: seq<Entry>)
    requires DigitKeys(opt) && DistinctKeys(opt) && CanonicalKeys(opt) && ScanEntries(entries) && Rebind(opt, entries).Ok?
    ensures SameButScans(NodesById(opt), NodesById(Rebind(opt, entries).value))
  {
    var rebased := Rebind(opt, entries).value;
    RebindKeepsKeys(opt, entries);
    forall r | r in NodesById(opt)
      ensures r in NodesById(rebased)
      ensures NodesById(opt)[r] == NodesById(rebased)[r] || SameScan(NodesById(opt)[r], NodesById(rebased)[r])
    {
      var i := PositionOfNode(opt, r);
      NodeAt(rebased, i);
      RebindKeeps(opt, entries, i);
    }
    forall r | r in NodesById(rebased) ensures r in NodesById(opt) {
      var i := PositionOfNode(rebased, r);
      NodeAt(opt, i);
    }
    SameElements(NodesById(opt).Keys, NodesById(rebased).Keys);
  }

  /** The transferred plan of a transferable setting. */
  lemma {:induction false} TransferredIs(s: Setting)
    requires WellFormed(s.opt) && Transferable(s)
    ensures Matchable(Sf1(s), Sf2(s)) && Preserving(ScanMapping(Sf1(s), Sf2(s)).value, Sf1(s), Sf2(s))
    ensures
      var internal := Renumber(Rebased(s), Sf2(s).Keys);
      && Renumbers(Rebased(s), internal) && AllRekeyable(Rebased(s), internal) && internal.Values !! Sf2(s).Keys
      && TransferPatched(s.base1, s.info1, s.base2, s.info2, s.opt)
      == Ok(Obj(NewNodes(Rebased(s), internal, ScanMapping(Sf1(s), Sf2(s)).value)))
  {
    MatchableIffInjection(Sf1(s), Sf2(s));
    MappingPreserves(Sf1(s), Sf2(s));
    StructureSucceedsIff(s);
    StructureIs(s);
    PatchedIs(s);
    RebindKeepsKeys(s.opt.fields, Entries2(s));
    RenumberIs(Rebased(s), Sf2(s).Keys);
    RenumberAvoids(Rebased(s), Sf2(s).Keys);
    MatchedIs(s.opt.fields, Entries2(s), Sf1(s), Sf2(s), ScanMapping(Sf1(s), Sf2(s)).value);
  }

  /** The nodes of the transferred plan. */
  ghost function Transferred(s: Setting): (r: Nodes)
    requires TransferPatched(s.base1, s.info1, s.base2, s.info2, s.opt).Ok?
  {
    var t := TransferPatched(s.base1, s.info1, s.base2, s.info2, s.opt).value;
    if t.Obj? then NodesById(t.fields) else map[]
  }

  /** Sending a renumbered plan to its images keeps every unfolding. */
  lemma {:induction false} NewNodesUnfold(rebased: seq<Field>, internal: IdMap, scans: IdMap, sf1: Signatures, sf2: Signatures, r: int, n: nat)
    requires Renumbers(rebased, internal) && AllRekeyable(rebased, internal) && Preserving(scans, sf1, sf2)
    requires internal.Values !! sf2.Keys && Faithful(rebased, Combine(internal, scans))
    requires r in NodeIds(rebased) || r in sf1
    ensures r in Combine(internal, scans) && Injective(Combine(internal, scans))
    ensures UnfoldRef(NodesById(rebased), sf1, r, n) ==
            UnfoldRef(NodesById(NewNodes(rebased, internal, scans)), sf2, Combine(internal, scans)[r], n)
  {
    NodesCorrespond(rebased, internal, scans, sf1, sf2);
    CombinedInjective(internal, scans, sf1, sf2);
    UnfoldingKept(NodesById(rebased), sf1, NodesById(NewNodes(rebased, internal, scans)), sf2, Combine(internal, scans), r, n);
  }

  /** Rebinding scans keeps the ids and every unfolding. */
  lemma {:induction false} RebasedUnfolds(opt: seq<Field>, entries: seq<Entry>, sigs: Signatures, r: int, n: nat)
    requires DigitKeys(opt) && DistinctKeys(opt) && CanonicalKeys(opt) && ScanEntries(entries) && Rebind(opt, entries).Ok?
    ensures NodeIds(opt) == NodeIds(Rebind(opt, entries).value)
    ensures UnfoldRef(NodesById(opt), sigs, r, n) == UnfoldRef(NodesById(Rebind(opt, entries).value), sigs, r, n)
  {
    RebasedIsSame(opt, entries);
    SameButScansUnfolds(NodesById(opt), NodesById(Rebind(opt, entries).value), sigs, r, n);
  }

  lemma {:induction false} NodesOfResult(s: Setting, newPlan: seq<Field>)
    requires TransferPatched(s.base1, s.info1, s.base2, s.info2, s.opt) == Ok(Obj(newPlan))
    ensures Transferred(s) == NodesById(newPlan)
  {}

  lemma {:induction false} TransferredNodes(s: Setting)
    requires WellFormed(s.opt) && Transferable(s) && Matchable(Sf1(s), Sf2(s))
    ensures TransferPatched(s.base1, s.info1, s.base2, s.info2, s.opt).Ok?
    ensures
      var internal := Renumber(Rebased(s), Sf2(s).Keys);
      && Renumbers(Rebased(s), internal) && AllRekeyable(Rebased(s), internal) && internal.Values !! Sf2(s).Keys
      && Transferred(s) == NodesById(NewNodes(Rebased(s), internal, ScanMapping(Sf1(s), Sf2(s)).value))
  {
    TransferredIs(s);
    NodesOfResult(s, NewNodes(Rebased(s), Renumber(Rebased(s), Sf2(s).Keys), ScanMapping(Sf1(s), Sf2(s)).value));
  }

  lemma {:induction false} RebasedMeaning(s: Setting, r: int, n: nat)
    requires ReadableTables(s) && s.opt.Obj? && DigitKeys(s.opt.fields) && Rebind(s.opt.fields, Entries2(s)).Ok?
    requires Matchable(Sf1(s), Sf2(s)) && Faithful(Rebased(s), Sigma(s))
    requires Renumbers(Rebased(s), Renumber(Rebased(s), Sf2(s).Keys)) && AllRekeyable(Rebased(s), Renumber(Rebased(s), Sf2(s).Keys))
    requires Renumber(Rebased(s), Sf2(s).Keys).Values !! Sf2(s).Keys
    requires DistinctKeys(s.opt.fields) && CanonicalKeys(s.opt.fields) && ScanEntries(Entries2(s))
    requires r in NodeIds(s.opt.fields) || r in Sf1(s)
    ensures r in Sigma(s) && Injective(Sigma(s))
    ensures
      var newPlan := NewNodes(Rebased(s), Renumber(Rebased(s), Sf2(s).Keys), ScanMapping(Sf1(s), Sf2(s)).value);
      UnfoldRef(NodesById(s.opt.fields), Sf1(s), r, n) == UnfoldRef(NodesById(newPlan), Sf2(s), Sigma(s)[r], n)
  {
    MappingPreserves(Sf1(s), Sf2(s));
    RebasedUnfolds(s.opt.fields, Entries2(s), Sf1(s), r, n);
    NewNodesUnfold(Rebased(s), Renumber(Rebased(s), Sf2(s).Keys), ScanMapping(Sf1(s), Sf2(s)).value, Sf1(s), Sf2(s), r, n);
  }

  /** Transfer preserves the plan, for references that are faithful after the scans were rebound. */
  lemma {:induction false} RebasedTransferKeepsMeaning(s: Setting, r: int, n: nat)
    requires WellFormed(s.opt) && Transferable(s) && ScanEntries(Entries2(s))
    requires Matchable(Sf1(s), Sf2(s)) && Faithful(Rebased(s), Sigma(s))
    requires r in NodeIds(s.opt.fields) || r in Sf1(s)
    ensures TransferPatched(s.base1, s.info1, s.base2, s.info2, s.opt).Ok?
    ensures r in Sigma(s) && Injective(Sigma(s))
    ensures UnfoldRef(NodesById(s.opt.fields), Sf1(s), r, n) == UnfoldRef(Transferred(s), Sf2(s), Sigma(s)[r], n)
  {
    TransferredNodes(s);
    RebasedMeaning(s, r, n);
  }

  lemma {:induction false} NewNodesAreImages(rebased: seq<Field>, internal: IdMap, scans: IdMap)
    requires Renumbers(rebased, internal) && AllRekeyable(rebased, internal)
    ensures AllImages(NodesById(rebased), NodesById(NewNodes(rebased, internal, scans)), Combine(internal, scans))
  {
    var sigma, nodes1, nodes2 := Combine(internal, scans), NodesById(rebased), NodesById(NewNodes(rebased, internal, scans));
    RewrittenIds(rebased, internal, scans);
    forall c | c in nodes2 ensures exists r :: r in nodes1 && r in sigma && sigma[r] == c {
      var r := KeyOfValue(internal, c);
      assert r in nodes1 && sigma[r] == c;
    }
  }

  lemma {:induction false} NewNodesAcyclicIff(rebased: seq<Field>, internal: IdMap, scans: IdMap, sf1: Signatures, sf2: Signatures)
    requires Renumbers(rebased, internal) && AllRekeyable(rebased, internal) && Preserving(scans, sf1, sf2)
    requires internal.Values !! sf2.Keys && Faithful(rebased, Combine(internal, scans))
    ensures HasCycle(RefGraph(NodesById(rebased))) <==> HasCycle(RefGraph(NodesById(NewNodes(rebased, internal, scans))))
  {
    NodesCorrespond(rebased, internal, scans, sf1, sf2);
    CombinedInjective(internal, scans, sf1, sf2);
    NewNodesAreImages(rebased, internal, scans);
    AcyclicityKept(NodesById(rebased), sf1, NodesById(NewNodes(rebased, internal, scans)), sf2, Combine(internal, scans));
  }

  /** The transferred plan is acyclic exactly when the rebased source plan is. */
  lemma {:induction false} RebasedTransferKeepsAcyclicity(s: Setting)
    requires WellFormed(s.opt) && Transferable(s)
    requires Matchable(Sf1(s), Sf2(s)) && Faithful(Rebased(s), Sigma(s))
    ensures TransferPatched(s.base1, s.info1, s.base2, s.info2, s.opt).Ok?
    ensures HasCycle(RefGraph(NodesById(Rebased(s)))) <==> HasCycle(RefGraph(Transferred(s)))
  {
    TransferredIs(s);
    NewNodesAcyclicIff(Rebased(s), Renumber(Rebased(s), Sf2(s).Keys), ScanMapping(Sf1(s), Sf2(s)).value, Sf1(s), Sf2(s));
  }

  // ----- Structures that are refused -----

  /** A member that is no node: its key is no numeral, or its value is not an object with a single operator. */
  predicate IsNoNode(f: Field) {
    !IsDigits(f.key) || !f.value.Obj? || |f.value.fields| != 1
  }

  /** A patched plan with such a member, or that is no object at all, is refused before anything else, and so are such base plans. */
  lemma {:induction false} MalformedIsRefused(base1: Json, info1: Json, base2: Json, info2: Json, opt: Json)
    ensures !opt.Obj? || (exists i :: 0 <= i < |opt.fields| && IsNoNode(opt.fields[i])) ==>
              TransferPatched(base1, info1, base2, info2, opt) == Err(InvalidStructure)
    ensures !base1.Obj? || (exists i :: 0 <= i < |base1.fields| && IsNoNode(base1.fields[i])) ==>
              TransferPatched(base1, info1, base2, info2, opt) == Err(InvalidStructure)
    ensures !base2.Obj? || (exists i :: 0 <= i < |base2.fields| && IsNoNode(base2.fields[i])) ==>
              TransferPatched(base1, info1, base2, info2, opt) == Err(InvalidStructure)
  {
    NoNodeNoStructure(opt);
    NoNodeNoStructure(base1);
    NoNodeNoStructure(base2);
  }

  lemma {:induction false} NoNodeNoStructure(j: Json)
    ensures ValidStructure(j) <==> j.Obj? && forall i | 0 <= i < |j.fields| :: !IsNoNode(j.fields[i])
  {
    if j.Obj? {
      forall i | 0 <= i < |j.fields| ensures ValidNode(j.fields[i]) <==> !IsNoNode(j.fields[i]) {}
    }
  }

  // ----- A reference captured by a renumbered node -----

  lemma {:induction false} OnlyEntry<K, V>(m: map<K, V>, k: K, v: V)
    requires m.Keys == {k} && m.Values == {v}
    ensures m == map[k := v]
  {
    assert k in m.Keys;
    assert m[k] in m.Values;
  }

  lemma {:induction false} OneFreshId()
    ensures FreshFor(FilterOf(0), {1}) == {0} && Renumber(FilterOf(0), {1}) == map[1 := 0]
  {
    FilterRefs(0);
    OneReserved(NodeIds(FilterOf(0)), 1);
    FreshForFilter(0, 1);
    RenumberedIds(FilterOf(0), {1});
    RenumberAvoids(FilterOf(0), {1});
    OnlyEntry(Renumber(FilterOf(0), {1}), 1, 0);
  }

  lemma {:induction false} SelfLoopIsCycle(g: Graph, a: int)
    requires Edge(g, a, a)
    ensures HasCycle(g)
  {
    assert Step(g, [a, a], 0);
    assert IsCycle(g, [a, a]);
  }

  lemma {:induction false} FilterIsAcyclic(id: int)
    requires id != 1
    ensures !HasCycle(RefGraph(NodesById(FilterOf(id))))
  {
    var g: Graph, rank: map<int, int> := RefGraph(NodesById(FilterOf(id))), map[];
    forall a, b ensures !Edge(g, a, b) {
      FilterHasNoEdge(id, a, b);
    }
    RankedIsAcyclic(g, rank);
  }

  lemma {:induction false} FilterHasNoEdge(id: int, a: int, b: int)
    requires id != 1
    ensures !Edge(RefGraph(NodesById(FilterOf(id))), a, b)
  {
    RefEdge(NodesById(FilterOf(id)), a, b);
    FilterRefs(id);
    if a in NodesById(FilterOf(id)) {
      var i := PositionOfNode(FilterOf(id), a);
      assert Refs(FilterOf(id)[i].value) <= PlanRefs(FilterOf(id));
    }
  }

  /** The rewritten filter on 0 with the new id 0 refers to itself. */
  lemma {:induction false} RewrittenFilterLoops(newPlan: seq<Field>)
    requires Renumbers(FilterOf(0), map[1 := 0]) && AllRekeyable(FilterOf(0), map[1 := 0])
    requires newPlan == NewNodes(FilterOf(0), map[1 := 0], map[])
    ensures HasCycle(RefGraph(NodesById(newPlan)))
  {
    var plan, sigma := FilterOf(0), Combine(map[1 := 0], map[]);
    RewrittenNode(plan, map[1 := 0], map[], 1);
    FilterRefs(0);
    var i := PositionOfNode(plan, 1);
    assert i == 0;
    assert Visible(plan[0].value) <= PlanVisible(plan);
    RewrittenRefs(sigma, plan[0].value);
    var x :| x in PlanVisible(plan);
    assert x in Visible(plan[0].value) && Image(sigma, 0) == 0;
    assert 0 in Images(sigma, Visible(plan[0].value));
    RefEdge(NodesById(newPlan), 0, 0);
    SelfLoopIsCycle(RefGraph(NodesById(newPlan)), 0);
  }

  /**
    A dangling reference that no table knows can be captured by a renumbered
    node, and close a cycle.  The source plan is one filter, node 1, on the id 0;
    the source table is empty and the only target scan is 1.  Node 1 becomes
    node 0, so the transferred plan is a filter on itself.
   */
  lemma {:induction false} CapturedByNewNode()
    ensures !Resolved(FilterOf(0), map[]) && 0 !in NodeIds(FilterOf(0)) && 0 !in Sf2(FilterSetting(0, 1))
    ensures !HasCycle(RefGraph(NodesById(FilterOf(0))))
    ensures Transfer(Obj(FilterOf(0)), Null, Obj([]), OneScan(1), Arr([])).Ok?
    ensures
      var plan := Transfer(Obj(FilterOf(0)), Null, Obj([]), OneScan(1), Arr([])).value;
      plan.Obj? && HasCycle(RefGraph(NodesById(plan.fields)))
  {
    var s := FilterSetting(0, 1);
    FilterRefs(0);
    FilterIsAcyclic(0);
    FilterSettingIs(0, 1);
    OneFreshId();
    DanglingReferenceIsCaptured(0, 1);
    EmptyPatchTransfers(s.base1, s.info1, s.base2, s.info2);
    FilterTransferIs(s);
    RewrittenFilterLoops(NewNodes(FilterOf(0), map[1 := 0], map[]));
  }

  lemma {:induction false} RebasedFilter(s: Setting)
    requires s == FilterSetting(0, 1)
    ensures ReadableTables(s) && DigitKeys(FilterOf(0)) && Rebind(FilterOf(0), Entries2(s)) == Ok(FilterOf(0))
  {
    FilterIsValid(0);
    FilterSettingIs(0, 1);
    NothingToRebind(FilterOf(0), Entries2(s));
  }

  lemma {:induction false} FilterIsTransferable(s: Setting)
    requires s == FilterSetting(0, 1) && TransferPatched(s.base1, s.info1, s.base2, s.info2, s.opt).Ok?
    ensures Transferable(s)
  {
    FilterIsWellFormed(0);
    FilterSettingIs(0, 1);
    StructureSucceedsIff(s);
    PatchedIs(s);
  }

  lemma {:induction false} FilterTransferIs(s: Setting)
    requires s == FilterSetting(0, 1) && TransferPatched(s.base1, s.info1, s.base2, s.info2, s.opt).Ok?
    ensures Renumbers(FilterOf(0), map[1 := 0]) && AllRekeyable(FilterOf(0), map[1 := 0])
    ensures TransferPatched(s.base1, s.info1, s.base2, s.info2, s.opt) == Ok(Obj(NewNodes(FilterOf(0), map[1 := 0], map[])))
  {
    FilterIsWellFormed(0);
    FilterIsTransferable(s);
    RebasedFilter(s);
    FilterSettingIs(0, 1);
    TransferredIs(s);
    OneFreshId();
    OneKey(1, VNull);
    NoKeys(ScanMapping(Sf1(s), Sf2(s)).value);
  }

  lemma {:induction false} OneKey<K, V>(k: K, v: V)
    ensures map[k := v].Keys == {k}
  {}

  lemma {:induction false} NoKeys<K, V>(m: map<K, V>)
    requires forall k :: k !in m
    ensures m == map[]
  {}
}
