/** When a transfer succeeds, and what its result means. */
module PlanTransferTheorems {
  import opened Basics
  import opened Decimal
  import opened Json
  import opened PlanStructure
  import opened ScanMatching
  import opened ScanRebinding
  import opened Renumbering
  import opened FreshIds
  import opened PlanRewrite
  import opened PlanTransfer

  predicate CanonicalKeys(plan: seq<Field>) {
    forall i | 0 <= i < |plan| :: Canonical(plan[i].key)
  }

  // ----- The rewritten plan -----

  predicate AllRekeyable(plan: seq<Field>, internal: IdMap) {
    forall i | 0 <= i < |plan| :: Rekeyable(plan[i].key, internal)
  }

  /** A node of the rewritten plan. */
  function NewNode(f: Field, internal: IdMap, scans: IdMap): Field
    requires Rekeyable(f.key, internal) && NonNegative(internal)
  {
    Field(NewKey(f.key, internal), Rewrite(Combine(internal, scans), f.value))
  }

  function NewNodes(plan: seq<Field>, internal: IdMap, scans: IdMap): (r: seq<Field>)
    requires AllRekeyable(plan, internal) && NonNegative(internal)
    ensures |r| == |plan| && forall i | 0 <= i < |plan| :: r[i] == NewNode(plan[i], internal, scans)
  {
    if plan == [] then [] else [NewNode(plan[0], internal, scans)] + NewNodes(plan[1..], internal, scans)
  }

  lemma {:induction false} NewKeysDiffer(a: string, b: string, internal: IdMap)
    requires Rekeyable(a, internal) && Rekeyable(b, internal) && NonNegative(internal) && Injective(internal)
    requires a != b
    ensures NewKey(a, internal) != NewKey(b, internal)
  {
    ParsePrinted(internal[ParseNat(a)]);
    ParsePrinted(internal[ParseNat(b)]);
  }

  ghost predicate KeysFree(newPlan: seq<Field>, plan: seq<Field>, internal: IdMap)
    requires NonNegative(internal)
  {
    forall i | 0 <= i < |plan| && Rekeyable(plan[i].key, internal) :: !HasKey(newPlan, NewKey(plan[i].key, internal))
  }

  lemma {:induction false} KeysStayFree(newPlan: seq<Field>, plan: seq<Field>, internal: IdMap, node: Json)
    requires NonNegative(internal) && Injective(internal) && DistinctKeys(plan) && KeysFree(newPlan, plan, internal)
    requires plan != [] && Rekeyable(plan[0].key, internal)
    ensures KeysFree(newPlan + [Field(NewKey(plan[0].key, internal), node)], plan[1..], internal)
  {
    var next := newPlan + [Field(NewKey(plan[0].key, internal), node)];
    forall i | 0 <= i < |plan[1..]| && Rekeyable(plan[1..][i].key, internal)
      ensures !HasKey(next, NewKey(plan[1..][i].key, internal))
    {
      NewKeysDiffer(plan[i + 1].key, plan[0].key, internal);
      assert !HasKey(newPlan, NewKey(plan[i + 1].key, internal));
    }
  }

  lemma {:induction false} RekeyableRest(plan: seq<Field>, internal: IdMap)
    requires plan != []
    ensures AllRekeyable(plan, internal) <==> Rekeyable(plan[0].key, internal) && AllRekeyable(plan[1..], internal)
  {
    assert forall i | 0 < i < |plan| :: plan[i] == plan[1..][i - 1];
  }

  lemma {:induction false} NewNodesSplit(plan: seq<Field>, internal: IdMap, scans: IdMap, newPlan: seq<Field>)
    requires plan != [] && AllRekeyable(plan, internal) && AllRekeyable(plan[1..], internal) && NonNegative(internal)
    ensures newPlan + [NewNode(plan[0], internal, scans)] + NewNodes(plan[1..], internal, scans)
         == newPlan + NewNodes(plan, internal, scans)
  {}

  /** The rewrite succeeds exactly on canonical keys of known nodes, and then maps the plan node by node. */
  lemma {:induction false} RewriteFromIs(plan: seq<Field>, internal: IdMap, scans: IdMap, newPlan: seq<Field>)
    requires NonNegative(internal) && Injective(internal) && DistinctKeys(plan) && KeysFree(newPlan, plan, internal)
    ensures RewriteFrom(plan, internal, scans, newPlan) ==
            if AllRekeyable(plan, internal) then Ok(newPlan + NewNodes(plan, internal, scans)) else Err(RewriteFailed)
    decreases |plan|
  {
    if plan == [] {
      assert newPlan + [] == newPlan;
    } else {
      RekeyableRest(plan, internal);
      if Rekeyable(plan[0].key, internal) {
        var node := NewNode(plan[0], internal, scans);
        assert !HasKey(newPlan, node.key);
        SetAbsent(newPlan, node.key, node.value);
        KeysStayFree(newPlan, plan, internal, node.value);
        RewriteFromIs(plan[1..], internal, scans, newPlan + [node]);
        if AllRekeyable(plan, internal) {
          NewNodesSplit(plan, internal, scans, newPlan);
        }
      }
    }
  }

  /** Under canonical keys, a key determines its node. */
  lemma {:induction false} NodeAt(plan: seq<Field>, i: nat)
    requires CanonicalKeys(plan) && DistinctKeys(plan) && i < |plan|
    ensures ParseNat(plan[i].key) in NodesById(plan) && NodesById(plan)[ParseNat(plan[i].key)] == plan[i].value
  {
    NodeIsStored(plan, i);
    var k := PositionOfNode(plan, ParseNat(plan[i].key));
    assert Canonical(plan[k].key) && Canonical(plan[i].key);
  }

  /** A renumbering as `_assign_new_node_ids` makes it. */
  ghost predicate Renumbers(plan: seq<Field>, internal: IdMap) {
    && CanonicalKeys(plan) && DistinctKeys(plan)
    && internal.Keys == NodeIds(plan) && Injective(internal) && NonNegative(internal)
  }

  lemma {:induction false} AllKeysRekey(plan: seq<Field>, internal: IdMap)
    requires Renumbers(plan, internal)
    ensures AllRekeyable(plan, internal)
  {
    forall i | 0 <= i < |plan| ensures Rekeyable(plan[i].key, internal) {
      NodeAt(plan, i);
    }
  }

  lemma {:induction false} NewKeysCanonical(plan: seq<Field>, internal: IdMap, scans: IdMap)
    requires Renumbers(plan, internal) && AllRekeyable(plan, internal)
    ensures CanonicalKeys(NewNodes(plan, internal, scans)) && DistinctKeys(NewNodes(plan, internal, scans))
    ensures forall i | 0 <= i < |plan| :: ParseNat(NewNodes(plan, internal, scans)[i].key) == internal[ParseNat(plan[i].key)]
  {
    var newPlan := NewNodes(plan, internal, scans);
    forall i | 0 <= i < |plan|
      ensures Canonical(newPlan[i].key) && ParseNat(newPlan[i].key) == internal[ParseNat(plan[i].key)]
    {
      ParsePrinted(internal[ParseNat(plan[i].key)]);
    }
    forall i, j | 0 <= i < j < |plan| ensures newPlan[i].key != newPlan[j].key {
      NewKeysDiffer(plan[i].key, plan[j].key, internal);
    }
  }

  /** Every node of the source is found, rewritten, under its new id. */
  lemma {:induction false} RewrittenNode(plan: seq<Field>, internal: IdMap, scans: IdMap, r: int)
    requires Renumbers(plan, internal) && AllRekeyable(plan, internal) && r in NodeIds(plan)
    ensures
      var nodes := NodesById(NewNodes(plan, internal, scans));
      internal[r] in nodes && nodes[internal[r]] == Rewrite(Combine(internal, scans), NodesById(plan)[r])
  {
    NewKeysCanonical(plan, internal, scans);
    var i := PositionOfNode(plan, r);
    NodeAt(NewNodes(plan, internal, scans), i);
  }

  lemma {:induction false} NewIdHasOrigin(plan: seq<Field>, internal: IdMap, scans: IdMap, c: int) returns (r: int)
    requires Renumbers(plan, internal) && AllRekeyable(plan, internal)
    requires c in NodeIds(NewNodes(plan, internal, scans))
    ensures r in internal && internal[r] == c
  {
    NewKeysCanonical(plan, internal, scans);
    var i := PositionOfNode(NewNodes(plan, internal, scans), c);
    r := ParseNat(plan[i].key);
    assert Rekeyable(plan[i].key, internal);
  }

  lemma {:induction false} NewIdIsNode(plan: seq<Field>, internal: IdMap, scans: IdMap, c: int)
    requires Renumbers(plan, internal) && AllRekeyable(plan, internal) && c in internal.Values
    ensures c in NodeIds(NewNodes(plan, internal, scans))
  {
    var r := KeyOfValue(internal, c);
    RewrittenNode(plan, internal, scans, r);
  }

  /** There are no other nodes. */
  lemma {:induction false} RewrittenIds(plan: seq<Field>, internal: IdMap, scans: IdMap)
    requires Renumbers(plan, internal) && AllRekeyable(plan, internal)
    ensures NodeIds(NewNodes(plan, internal, scans)) == internal.Values
  {
    var newPlan := NewNodes(plan, internal, scans);
    forall c | c in NodeIds(newPlan) ensures c in internal.Values {
      var r := NewIdHasOrigin(plan, internal, scans, c);
    }
    forall c | c in internal.Values ensures c in NodeIds(newPlan) {
      NewIdIsNode(plan, internal, scans, c);
    }
    SameElements(NodeIds(newPlan), internal.Values);
  }

  // ----- When a transfer succeeds -----

  /** References of a plan at positions that are rewritten, and below positions that are not. */
  function PlanVisible(plan: seq<Field>): set<int> {
    set i, x | 0 <= i < |plan| && x in Visible(plan[i].value) :: x
  }

  function PlanHidden(plan: seq<Field>): set<int> {
    set i, x | 0 <= i < |plan| && x in Hidden(plan[i].value) :: x
  }

  lemma {:induction false} RewrittenPlanRefs(plan: seq<Field>, internal: IdMap, scans: IdMap)
    requires AllRekeyable(plan, internal) && NonNegative(internal)
    ensures PlanRefs(NewNodes(plan, internal, scans)) == Images(Combine(internal, scans), PlanVisible(plan)) + PlanHidden(plan)
  {
    var sigma, newPlan := Combine(internal, scans), NewNodes(plan, internal, scans);
    forall i | 0 <= i < |plan|
      ensures Refs(newPlan[i].value) == Images(sigma, Visible(plan[i].value)) + Hidden(plan[i].value)
    {
      RewrittenRefs(sigma, plan[i].value);
    }
    forall x | x in PlanRefs(newPlan) ensures x in Images(sigma, PlanVisible(plan)) + PlanHidden(plan) {
      var i :| 0 <= i < |newPlan| && x in Refs(newPlan[i].value);
      if x in Images(sigma, Visible(plan[i].value)) {
        var y :| y in Visible(plan[i].value) && Image(sigma, y) == x;
        assert y in PlanVisible(plan);
      }
    }
    forall x | x in Images(sigma, PlanVisible(plan)) ensures x in PlanRefs(newPlan) {
      var y :| y in PlanVisible(plan) && Image(sigma, y) == x;
      var i :| 0 <= i < |plan| && y in Visible(plan[i].value);
      assert x in Images(sigma, Visible(plan[i].value));
      assert x in Refs(newPlan[i].value);
    }
    forall x | x in PlanHidden(plan) ensures x in PlanRefs(newPlan) {
      var i :| 0 <= i < |plan| && x in Hidden(plan[i].value);
      assert x in Refs(newPlan[i].value);
    }
  }

  /**
    The references that pass the final checks: a rewritten one may be an
    internal id or a source scan id, and an id that is left alone must happen to
    be a new internal id or a target scan id.
   */
  predicate Acceptable(plan: seq<Field>, sf1: Signatures, sf2: Signatures, newIds: set<int>) {
    && PlanVisible(plan) <= NodeIds(plan) + sf1.Keys + newIds + sf2.Keys
    && PlanHidden(plan) <= newIds + sf2.Keys
  }

  /**
    The same without the renumbering: a visible reference is a node id, a source
    scan id, a target scan id or one of the fresh ids that the colliding nodes
    get; a hidden one is no source scan id.
   */
  predicate RefsLand(plan: seq<Field>, sf1: Signatures, sf2: Signatures) {
    && PlanVisible(plan) <= NodeIds(plan) + sf1.Keys + sf2.Keys + FreshFor(plan, sf2.Keys)
    && PlanHidden(plan) <= NodeIds(plan) + sf2.Keys + FreshFor(plan, sf2.Keys)
  }

  lemma {:induction false} LandingSets<T>(nodes: set<T>, reserved: set<T>, scans: set<T>, extra: set<T>)
    ensures nodes + scans + (nodes - reserved + extra) + reserved == nodes + scans + reserved + extra
    ensures nodes - reserved + extra + reserved == nodes + reserved + extra
  {}

  lemma {:induction false} AcceptableIsLanding(plan: seq<Field>, sf1: Signatures, sf2: Signatures)
    ensures Acceptable(plan, sf1, sf2, Renumber(plan, sf2.Keys).Values) <==> RefsLand(plan, sf1, sf2)
  {
    RenumberedIds(plan, sf2.Keys);
    LandingSets(NodeIds(plan), sf2.Keys, sf1.Keys, FreshFor(plan, sf2.Keys));
  }

  lemma {:induction false} ImageAllowed(internal: IdMap, scans: IdMap, sf2: set<int>, r: int)
    requires scans.Values <= sf2
    ensures Image(Combine(internal, scans), r) in internal.Values + sf2
            <==> r in internal || r in scans || r in internal.Values + sf2
  {
    if r in internal {
      assert internal[r] in internal.Values;
    } else if r in scans {
      assert scans[r] in scans.Values;
    }
  }

  lemma {:induction false} ImagesAllowed(internal: IdMap, scans: IdMap, visible: set<int>, sf2: set<int>)
    requires scans.Values <= sf2
    ensures Images(Combine(internal, scans), visible) <= internal.Values + sf2
            <==> visible <= internal.Keys + scans.Keys + internal.Values + sf2
  {
    var sigma, allowed := Combine(internal, scans), internal.Values + sf2;
    forall r ensures Image(sigma, r) in allowed <==> r in internal || r in scans || r in allowed {
      ImageAllowed(internal, scans, sf2, r);
    }
    assert forall r | r in visible :: Image(sigma, r) in Images(sigma, visible);
    if visible <= internal.Keys + scans.Keys + internal.Values + sf2 {
      forall x | x in Images(sigma, visible) ensures x in allowed {
        var r :| r in visible && Image(sigma, r) == x;
      }
    }
    if Images(sigma, visible) <= allowed {
      forall r | r in visible ensures r in internal.Keys + scans.Keys + internal.Values + sf2 {
        assert Image(sigma, r) in allowed;
      }
    }
  }

  lemma {:induction false} PreservingValues(scans: IdMap, sf1: Signatures, sf2: Signatures)
    requires Preserving(scans, sf1, sf2)
    ensures scans.Values <= sf2.Keys
  {
    forall v | v in scans.Values ensures v in sf2 {
      var i := KeyOfValue(scans, v);
      assert i in sf1;
    }
  }

  lemma {:induction false} ResolveIffAcceptable(plan: seq<Field>, internal: IdMap, scans: IdMap, sf1: Signatures, sf2: Signatures)
    requires Renumbers(plan, internal) && AllRekeyable(plan, internal) && Preserving(scans, sf1, sf2)
    ensures ReferencesResolve(NewNodes(plan, internal, scans), sf2.Keys) <==> Acceptable(plan, sf1, sf2, internal.Values)
  {
    RewrittenPlanRefs(plan, internal, scans);
    RewrittenIds(plan, internal, scans);
    PreservingValues(scans, sf1, sf2);
    ImagesAllowed(internal, scans, PlanVisible(plan), sf2.Keys);
  }

  lemma {:induction false} RewriteKeepsValidNode(f: Field, internal: IdMap, scans: IdMap)
    requires Rekeyable(f.key, internal) && NonNegative(internal)
    ensures ValidNode(NewNode(f, internal, scans)) <==> ValidNode(f)
  {
    ParsePrinted(internal[ParseNat(f.key)]);
  }

  lemma {:induction false} NewNodesValid(plan: seq<Field>, internal: IdMap, scans: IdMap)
    requires AllRekeyable(plan, internal) && NonNegative(internal)
    ensures ValidStructure(Obj(NewNodes(plan, internal, scans))) <==> ValidStructure(Obj(plan))
  {
    var newPlan := NewNodes(plan, internal, scans);
    forall i | 0 <= i < |plan| ensures ValidNode(newPlan[i]) <==> ValidNode(plan[i]) {
      RewriteKeepsValidNode(plan[i], internal, scans);
    }
    if ValidStructure(Obj(newPlan)) {
      assert forall i | 0 <= i < |plan| :: ValidNode(newPlan[i]);
    }
  }

  /** The renumbering of a rebased plan with canonical keys. */
  lemma {:induction false} RenumberIs(plan: seq<Field>, reserved: set<int>)
    requires DistinctKeys(plan) && DigitKeys(plan)
    ensures NonNegative(Renumber(plan, reserved)) && Injective(Renumber(plan, reserved))
    ensures CanonicalKeys(plan) ==> Renumbers(plan, Renumber(plan, reserved))
    ensures AllRekeyable(plan, Renumber(plan, reserved)) <==> CanonicalKeys(plan)
  {
    RenumberAvoids(plan, reserved);
    if CanonicalKeys(plan) {
      AllKeysRekey(plan, Renumber(plan, reserved));
    }
  }

  /** The check for unresolved leaves repeats the check for dangling references, so it never fires. */
  lemma {:induction false} LeafCheckNeverFires(rebased: seq<Field>, internal: IdMap, scans: IdMap, scanIds: set<int>)
    requires NonNegative(internal)
    ensures RewriteAndCheck(rebased, internal, scans, scanIds) != Err(UnresolvedLeafRefs)
    ensures
      var rewritten := RewriteFrom(rebased, internal, scans, []);
      RewriteAndCheck(rebased, internal, scans, scanIds) ==
      if rewritten.Err? then Err(RewriteFailed)
      else if !ValidStructure(Obj(rewritten.value)) then Err(InvalidStructure)
      else if !ReferencesResolve(rewritten.value, scanIds) then Err(DanglingRefs)
      else Ok(Obj(rewritten.value))
  {
    RewriteErrs(rebased, internal, scans, []);
  }

  lemma {:induction false} RewriteErrs(plan: seq<Field>, internal: IdMap, scans: IdMap, newPlan: seq<Field>)
    requires NonNegative(internal)
    ensures RewriteFrom(plan, internal, scans, newPlan).Err? ==>
              RewriteFrom(plan, internal, scans, newPlan) == Err(RewriteFailed)
    decreases |plan|
  {
    if plan != [] && Rekeyable(plan[0].key, internal) {
      var node := Rewrite(Combine(internal, scans), plan[0].value);
      RewriteErrs(plan[1..], internal, scans, SetField(newPlan, NewKey(plan[0].key, internal), node));
    }
  }

  lemma {:induction false} RewritesToNewNodes(rebased: seq<Field>, internal: IdMap, scans: IdMap)
    requires DistinctKeys(rebased) && NonNegative(internal) && Injective(internal)
    ensures RewriteFrom(rebased, internal, scans, []) ==
            if AllRekeyable(rebased, internal) then Ok(NewNodes(rebased, internal, scans)) else Err(RewriteFailed)
  {
    RewriteFromIs(rebased, internal, scans, []);
    if AllRekeyable(rebased, internal) {
      assert [] + NewNodes(rebased, internal, scans) == NewNodes(rebased, internal, scans);
    }
  }

  /** The end of a transfer, for the rebased plan: its errors and its result. */
  lemma {:induction false} RewriteAndCheckIs(rebased: seq<Field>, internal: IdMap, scans: IdMap, sf1: Signatures, sf2: Signatures)
    requires Renumbers(rebased, internal) && AllRekeyable(rebased, internal) && Preserving(scans, sf1, sf2)
    ensures RewriteAndCheck(rebased, internal, scans, sf2.Keys) ==
            if !ValidStructure(Obj(rebased)) then Err(InvalidStructure)
            else if !Acceptable(rebased, sf1, sf2, internal.Values) then Err(DanglingRefs)
            else Ok(Obj(NewNodes(rebased, internal, scans)))
  {
    RewritesToNewNodes(rebased, internal, scans);
    LeafCheckNeverFires(rebased, internal, scans, sf2.Keys);
    NewNodesValid(rebased, internal, scans);
    ResolveIffAcceptable(rebased, internal, scans, sf1, sf2);
  }

  lemma {:induction false} RebindKeepsKeys(opt: seq<Field>, entries: seq<Entry>)
    requires DigitKeys(opt) && (forall e | e in entries :: IntegerId(e)) && Rebind(opt, entries).Ok?
    ensures |Rebind(opt, entries).value| == |opt|
    ensures forall i | 0 <= i < |opt| :: Rebind(opt, entries).value[i].key == opt[i].key
    ensures DigitKeys(Rebind(opt, entries).value)
    ensures DistinctKeys(opt) ==> DistinctKeys(Rebind(opt, entries).value)
    ensures CanonicalKeys(Rebind(opt, entries).value) <==> CanonicalKeys(opt)
  {
    var r := Rebind(opt, entries).value;
    assert forall i | 0 <= i < |opt| :: r[i].key == opt[i].key;
    if CanonicalKeys(r) {
      assert forall i | 0 <= i < |opt| :: Canonical(r[i].key);
    }
  }

  /** What the part after the scan matching needs in order to succeed. */
  ghost predicate MatchedTransferable(opt: seq<Field>, entries: seq<Entry>, sf1: Signatures, sf2: Signatures)
    requires DigitKeys(opt) && forall e | e in entries :: IntegerId(e)
  {
    && CanonicalKeys(opt)
    && Rebind(opt, entries).Ok?
    && ValidStructure(Obj(Rebind(opt, entries).value))
    && RefsLand(Rebind(opt, entries).value, sf1, sf2)
  }

  lemma {:induction false} MatchedFails(opt: seq<Field>, entries: seq<Entry>, sf2: Signatures, scans: IdMap)
    requires DigitKeys(opt) && DistinctKeys(opt) && forall e | e in entries :: IntegerId(e)
    ensures Rebind(opt, entries).Err? || !CanonicalKeys(opt) ==> TransferMatched(opt, entries, sf2, scans).Err?
  {
    if Rebind(opt, entries).Ok? && !CanonicalKeys(opt) {
      var rebased := Rebind(opt, entries).value;
      RebindKeepsKeys(opt, entries);
      RenumberIs(rebased, sf2.Keys);
      RewritesToNewNodes(rebased, Renumber(rebased, sf2.Keys), scans);
      LeafCheckNeverFires(rebased, Renumber(rebased, sf2.Keys), scans, sf2.Keys);
    }
  }

  /**
    What the transfer after the scan matching returns: it fails for a scan that
    cannot be rebound, a non-canonical key, a target scan that is no node and a
    reference that the checks reject, and otherwise rewrites node by node.
   */
  lemma {:induction false} MatchedIs(opt: seq<Field>, entries: seq<Entry>, sf1: Signatures, sf2: Signatures, scans: IdMap)
    requires DigitKeys(opt) && DistinctKeys(opt) && (forall e | e in entries :: IntegerId(e)) && Preserving(scans, sf1, sf2)
    ensures TransferMatched(opt, entries, sf2, scans).Ok? <==> MatchedTransferable(opt, entries, sf1, sf2)
    ensures MatchedTransferable(opt, entries, sf1, sf2) ==>
              var rebased := Rebind(opt, entries).value;
              var internal := Renumber(rebased, sf2.Keys);
              && NonNegative(internal) && AllRekeyable(rebased, internal)
              && TransferMatched(opt, entries, sf2, scans) == Ok(Obj(NewNodes(rebased, internal, scans)))
  {
    MatchedFails(opt, entries, sf2, scans);
    if Rebind(opt, entries).Ok? && CanonicalKeys(opt) {
      var rebased := Rebind(opt, entries).value;
      RebindKeepsKeys(opt, entries);
      RenumberIs(rebased, sf2.Keys);
      AcceptableIsLanding(rebased, sf1, sf2);
      RewriteAndCheckIs(rebased, Renumber(rebased, sf2.Keys), scans, sf1, sf2);
    }
  }
}
