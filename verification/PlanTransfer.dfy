/** `transfer_plan`: moving an optimized plan to another scale factor. */
module PlanTransfer {
  import opened Basics
  import opened Decimal
  import opened Json
  import opened PlanStructure
  import opened ScanMatching
  import opened ScanPairing
  import opened ScanRebinding
  import opened Renumbering
  import opened PlanRewrite
  import Patching = JsonPatch

  /** Internal ids take precedence over scan ids. */
  function Combine(internal: IdMap, scans: IdMap): IdMap {
    scans + internal
  }

  ghost predicate NonNegative(m: IdMap) {
    forall k | k in m :: 0 <= m[k]
  }

  /** The keys under which `_rewrite_plan_references` finds the new key of a node. */
  predicate Rekeyable(key: string, internal: IdMap) {
    IsDigits(key) && ParseNat(key) in internal && Canonical(key)
  }

  function NewKey(key: string, internal: IdMap): string
    requires Rekeyable(key, internal) && NonNegative(internal)
  {
    ToDecimal(internal[ParseNat(key)])
  }

  function RewriteFrom(plan: seq<Field>, internal: IdMap, scans: IdMap, newPlan: seq<Field>): Result<seq<Field>, TransferError>
    requires NonNegative(internal)
    decreases |plan|
  {
    if plan == [] then Ok(newPlan)
    else if !Rekeyable(plan[0].key, internal) then Err(RewriteFailed)
    else
      var node := Rewrite(Combine(internal, scans), plan[0].value);
      RewriteFrom(plan[1..], internal, scans, SetField(newPlan, NewKey(plan[0].key, internal), node))
  }

  /** `_rewrite_plan_references`. */
  method RewritePlanReferences(plan: seq<Field>, internal: IdMap, scans: IdMap)
    returns (r: Result<seq<Field>, TransferError>)
    requires NonNegative(internal)
    ensures r == RewriteFrom(plan, internal, scans, [])
  {
    var sigma := Combine(internal, scans);
    var newPlan: seq<Field>, i := [], 0;
    while i < |plan|
      invariant 0 <= i <= |plan|
      invariant RewriteFrom(plan, internal, scans, []) == RewriteFrom(plan[i..], internal, scans, newPlan)
    {
      if !Rekeyable(plan[i].key, internal) {
        return Err(RewriteFailed);
      }
      var newKey := NewKey(plan[i].key, internal);
      newPlan := SetField(newPlan, newKey, Rewrite(sigma, plan[i].value));
      i := i + 1;
    }
    return Ok(newPlan);
  }

  /** `_validate_references`: every reference is an internal id or a target scan id. */
  predicate ReferencesResolve(plan: seq<Field>, scanIds: set<int>) {
    PlanRefs(plan) <= NodeIds(plan) + scanIds
  }

  /** Rewrite with a renumbering, then validate. */
  function RewriteAndCheck(rebased: seq<Field>, internal: IdMap, scans: IdMap, scanIds: set<int>): Result<Json, TransferError>
    requires NonNegative(internal)
  {
    var newPlan :- RewriteFrom(rebased, internal, scans, []);
    if !ValidStructure(Obj(newPlan)) then Err(InvalidStructure)
    else if !ReferencesResolve(newPlan, scanIds) then Err(DanglingRefs)
    else if !(PlanRefs(newPlan) <= NodeIds(newPlan) + scanIds) then Err(UnresolvedLeafRefs)
    else Ok(Obj(newPlan))
  }

  /** Everything after the scans have been matched: rebind, renumber, rewrite, validate. */
  function TransferMatched(opt: seq<Field>, entries: seq<Entry>, sf2: Signatures, scans: IdMap): Result<Json, TransferError>
    requires DigitKeys(opt) && forall e | e in entries :: IntegerId(e)
  {
    var rebased :- Rebind(opt, entries);
    RenumberAvoids(rebased, sf2.Keys);
    RewriteAndCheck(rebased, Renumber(rebased, sf2.Keys), scans, sf2.Keys)
  }

  lemma {:induction false} EntriesAreInteger(sigs: Signatures, entries: seq<Entry>)
    requires SignaturesFrom(sigs, entries).Ok?
    ensures forall e | e in entries :: IntegerId(e)
    decreases |entries|
  {
    if entries != [] {
      EntriesAreInteger(AddSignature(sigs, entries[0]).value, entries[1..]);
      assert forall e | e in entries :: e == entries[0] || e in entries[1..];
    }
  }

  lemma {:induction false} ValidHasDigitKeys(j: Json)
    requires ValidStructure(j)
    ensures DigitKeys(j.fields)
  {
    forall i | 0 <= i < |j.fields| ensures IsDigits(j.fields[i].key) {
      assert ValidNode(j.fields[i]);
    }
  }

  /** `_transfer_plan`. */
  function TransferStructure(base1: Json, info1: Json, base2: Json, info2: Json, opt: Json): Result<Json, TransferError> {
    if !ValidStructure(base1) || !ValidStructure(base2) || !ValidStructure(opt) then Err(InvalidStructure)
    else
      var sf1 :- SignatureMap(info1);
      var sf2 :- SignatureMap(info2);
      var scans :- ScanMapping(sf1, sf2);
      var entries := TableInfoEntries(info2).value;
      EntriesAreInteger(map[], entries);
      ValidHasDigitKeys(opt);
      TransferMatched(opt.fields, entries, sf2, scans)
  }

  /** The validation of the returned structure, if there is one. */
  function Validated(transferred: Result<Json, TransferError>, info2: Json): Result<Json, TransferError> {
    if transferred.Err? then transferred
    else if !ValidStructure(transferred.value) then Err(InvalidStructure)
    else
      var sf2 :- SignatureMap(info2);
      if !ReferencesResolve(transferred.value.fields, sf2.Keys) then Err(DanglingRefs) else transferred
  }

  /** `transfer_plan` after the patch was applied. */
  function TransferPatched(base1: Json, info1: Json, base2: Json, info2: Json, opt: Json): Result<Json, TransferError> {
    if !ValidStructure(opt) then Err(InvalidStructure)
    else Validated(TransferStructure(base1, info1, base2, info2, opt), info2)
  }

  /** `transfer_plan`. */
  function Transfer(base1: Json, info1: Json, base2: Json, info2: Json, patch: Json): Result<Json, TransferError> {
    match Patching.Apply(base1, patch)
    case Err(_) => Err(PatchFailed)
    case Ok(opt) => TransferPatched(base1, info1, base2, info2, opt)
  }

  /** The steps of `_transfer_plan` from the rebinding on. */
  method RunMatched(opt: seq<Field>, entries: seq<Entry>, sf2: Signatures, scans: IdMap)
    returns (r: Result<Json, TransferError>)
    requires DigitKeys(opt) && forall e | e in entries :: IntegerId(e)
    ensures r == TransferMatched(opt, entries, sf2, scans)
  {
    var rebased :- Rebind(opt, entries);
    var internal := AssignNewNodeIds(rebased, sf2.Keys);
    RenumberAvoids(rebased, sf2.Keys);
    r := RunRewriteAndCheck(rebased, internal, scans, sf2.Keys);
  }

  method RunRewriteAndCheck(rebased: seq<Field>, internal: IdMap, scans: IdMap, scanIds: set<int>)
    returns (r: Result<Json, TransferError>)
    requires NonNegative(internal)
    ensures r == RewriteAndCheck(rebased, internal, scans, scanIds)
  {
    var newPlan :- RewritePlanReferences(rebased, internal, scans);
    if !ValidStructure(Obj(newPlan)) {
      return Err(InvalidStructure);
    }
    if !ReferencesResolve(newPlan, scanIds) {
      return Err(DanglingRefs);
    }
    var unresolved := PlanRefs(newPlan) - (NodeIds(newPlan) + scanIds);
    if unresolved != {} {
      return Err(UnresolvedLeafRefs);
    }
    return Ok(Obj(newPlan));
  }

  /** `_transfer_plan`, step by step. */
  method RunStructure(base1: Json, info1: Json, base2: Json, info2: Json, opt: Json)
    returns (r: Result<Json, TransferError>)
    ensures r == TransferStructure(base1, info1, base2, info2, opt)
  {
    if !ValidStructure(base1) || !ValidStructure(base2) || !ValidStructure(opt) {
      return Err(InvalidStructure);
    }
    var sf1 :- BuildScanSignatureMap(info1);
    var sf2 :- BuildScanSignatureMap(info2);
    var scans :- PairScans(sf1, sf2);
    var entries := TableInfoEntries(info2).value;
    EntriesAreInteger(map[], entries);
    ValidHasDigitKeys(opt);
    r := RunMatched(opt.fields, entries, sf2, scans);
  }

  /** `transfer_plan`, step by step. */
  method TransferPlan(base1: Json, info1: Json, base2: Json, info2: Json, patch: Json)
    returns (r: Result<Json, TransferError>)
    ensures r == Transfer(base1, info1, base2, info2, patch)
  {
    var patched := Patching.ApplyJsonPatch(base1, patch);
    if patched.Err? {
      return Err(PatchFailed);
    }
    r := RunPatched(base1, info1, base2, info2, patched.value);
  }

  /** `transfer_plan` after the patch was applied, step by step. */
  method RunPatched(base1: Json, info1: Json, base2: Json, info2: Json, opt: Json)
    returns (r: Result<Json, TransferError>)
    ensures r == TransferPatched(base1, info1, base2, info2, opt)
  {
    if !ValidStructure(opt) {
      return Err(InvalidStructure);
    }
    var transferred := RunStructure(base1, info1, base2, info2, opt);
    r := RunValidation(transferred, info2);
  }

  method RunValidation(transferred: Result<Json, TransferError>, info2: Json) returns (r: Result<Json, TransferError>)
    ensures r == Validated(transferred, info2)
  {
    if transferred.Err? {
      return transferred;
    }
    if !ValidStructure(transferred.value) {
      return Err(InvalidStructure);
    }
    var sf2 :- BuildScanSignatureMap(info2);
    if !ReferencesResolve(transferred.value.fields, sf2.Keys) {
      return Err(DanglingRefs);
    }
    return transferred;
  }
}
