/** Transferring a plan to its own scale. */
module PlanTransferIdentity {
  import opened Basics
  import opened Decimal
  import opened Json
  import opened PlanStructure
  import opened ScanMatching
  import opened ScanRebinding
  import opened Renumbering
  import opened PlanRewrite
  import opened PlanTransfer
  import opened PlanTransferTheorems
  import opened PlanTransferMeaning

  /** Every rewritten reference is a JSON integer, not a numeral or a boolean. */
  predicate IntegerRefs(j: Json)
    decreases j
  {
    match j
    case Obj(fields) => forall i | 0 <= i < |fields| :: IntegerFieldRefs(fields[i])
    case Arr(items) => forall i | 0 <= i < |items| :: IntegerRefs(items[i])
    case _ => true
  }

  predicate IntegerFieldRefs(f: Field)
    decreases f
  {
    if IsScalarRef(f) then f.value.Int?
    else if IsListRef(f) then forall i | 0 <= i < |f.value.items| :: f.value.items[i].Int?
    else if IsScalarKey(f.key) then true
    else IntegerRefs(f.value)
  }

  ghost predicate IsIdentity(m: IdMap) {
    forall k | k in m :: m[k] == k
  }

  lemma {:induction false} IdentityRewrite(sigma: IdMap, j: Json)
    requires IsIdentity(sigma) && IntegerRefs(j)
    ensures Rewrite(sigma, j) == j
    decreases j
  {
    match j
    case Obj(fields) =>
      forall i | 0 <= i < |fields| ensures RewriteField(sigma, fields[i]) == fields[i] {
        assert IntegerFieldRefs(fields[i]);
        IdentityRewriteField(sigma, fields[i]);
      }
      assert Rewrite(sigma, j).fields == fields;
    case Arr(items) =>
      forall i | 0 <= i < |items| ensures Rewrite(sigma, items[i]) == items[i] {
        IdentityRewrite(sigma, items[i]);
      }
      assert Rewrite(sigma, j).items == items;
    case _ =>
  }

  lemma {:induction false} IdentityRewriteField(sigma: IdMap, f: Field)
    requires IsIdentity(sigma) && IntegerFieldRefs(f)
    ensures RewriteField(sigma, f) == f
    decreases f
  {
    if IsListRef(f) && !IsScalarKey(f.key) {
      assert MapRefs(sigma, f.value.items) == f.value.items;
    } else if !IsScalarKey(f.key) {
      IdentityRewrite(sigma, f.value);
    }
  }

  predicate AllIntegerRefs(plan: seq<Field>) {
    forall i | 0 <= i < |plan| :: IntegerRefs(plan[i].value)
  }

  /** Rewriting with identity maps gives the plan back. */
  lemma {:induction false} IdentityNewNodes(plan: seq<Field>, internal: IdMap, scans: IdMap)
    requires CanonicalKeys(plan) && AllRekeyable(plan, internal) && NonNegative(internal)
    requires IsIdentity(internal) && IsIdentity(scans) && AllIntegerRefs(plan)
    ensures NewNodes(plan, internal, scans) == plan
  {
    forall i | 0 <= i < |plan| ensures NewNode(plan[i], internal, scans) == plan[i] {
      IdentityRewrite(Combine(internal, scans), plan[i].value);
      assert Canonical(plan[i].key);
    }
    assert forall i | 0 <= i < |plan| :: NewNodes(plan, internal, scans)[i] == plan[i];
  }

  /** Conversely, a plan that comes back unchanged was not renumbered. */
  lemma {:induction false} UnchangedKeepsIds(plan: seq<Field>, internal: IdMap, scans: IdMap)
    requires Renumbers(plan, internal) && AllRekeyable(plan, internal) && NewNodes(plan, internal, scans) == plan
    ensures IsIdentity(internal)
  {
    forall r | r in internal ensures internal[r] == r {
      var i := PositionOfNode(plan, r);
      assert NewNode(plan[i], internal, scans) == plan[i];
      ParsePrinted(internal[r]);
    }
  }

  lemma {:induction false} UnchangedIff(plan: seq<Field>, scans: IdMap, reserved: set<int>)
    requires CanonicalKeys(plan) && DistinctKeys(plan) && DigitKeys(plan)
    requires IsIdentity(scans) && AllIntegerRefs(plan)
    ensures NonNegative(Renumber(plan, reserved)) && AllRekeyable(plan, Renumber(plan, reserved))
    ensures NewNodes(plan, Renumber(plan, reserved), scans) == plan <==> NodeIds(plan) !! reserved
  {
    var internal := Renumber(plan, reserved);
    RenumberIs(plan, reserved);
    RenumberIdentityIff(plan, reserved);
    if NodeIds(plan) !! reserved {
      IdentityNewNodes(plan, internal, scans);
    }
    if NewNodes(plan, internal, scans) == plan {
      UnchangedKeepsIds(plan, internal, scans);
    }
  }

  ghost predicate Tidy(base: Json, info: Json) {
    && WellFormed(base) && ValidStructure(base) && SignatureMap(info).Ok?
    && CanonicalKeys(base.fields) && NoEmbeddedScans(base.fields) && AllIntegerRefs(base.fields)
    && Resolved(base.fields, SignatureMap(info).value)
  }

  function Self(base: Json, info: Json): Setting {
    Setting(base, info, base, info, base)
  }

  lemma {:induction false} SelfMatches(base: Json, info: Json)
    requires SignatureMap(info).Ok?
    ensures InjectionExists(Self(base, info))
  {
    var sf := SignatureMap(info).value;
    MatchingItself(sf);
    MappingPreserves(sf, sf);
    assert Preserving(ScanMapping(sf, sf).value, Sf1(Self(base, info)), Sf2(Self(base, info)));
  }

  lemma {:induction false} SelfRebinds(base: Json, info: Json)
    requires base.Obj? && DigitKeys(base.fields) && NoEmbeddedScans(base.fields) && SignatureMap(info).Ok?
    ensures Rebind(base.fields, Entries2(Self(base, info))) == Ok(base.fields)
  {
    NothingToRebind(base.fields, Entries2(Self(base, info)));
  }

  lemma {:induction false} TidyPlanIsTransferable(plan: seq<Field>, entries: seq<Entry>, sf: Signatures)
    requires ValidStructure(Obj(plan)) && DigitKeys(plan) && (forall e | e in entries :: IntegerId(e))
    requires CanonicalKeys(plan) && NoEmbeddedScans(plan) && Resolved(plan, sf)
    ensures MatchedTransferable(plan, entries, sf, sf)
  {
    VisibleAreRefs(plan);
    TidyIsTransferable(plan, entries, sf, sf);
  }

  lemma {:induction false} SelfIsTransferable(base: Json, info: Json)
    requires Tidy(base, info)
    ensures Transferable(Self(base, info)) && Rebased(Self(base, info)) == base.fields
  {
    ValidHasDigitKeys(base);
    SelfMatches(base, info);
    SelfRebinds(base, info);
    assert Obj(base.fields) == base;
    TidyPlanIsTransferable(base.fields, Entries2(Self(base, info)), SignatureMap(info).value);
  }

  lemma {:induction false} SelfTransferIs(base: Json, info: Json)
    requires Tidy(base, info)
    ensures
      var sf := SignatureMap(info).value;
      var internal := Renumber(base.fields, sf.Keys);
      && Matchable(sf, sf) && NonNegative(internal) && AllRekeyable(base.fields, internal)
      && TransferPatched(base, info, base, info, base)
      == Ok(Obj(NewNodes(base.fields, internal, ScanMapping(sf, sf).value)))
  {
    SelfIsTransferable(base, info);
    TransferredIs(Self(base, info));
  }

  function IdentityOn(sf: Signatures): (r: IdMap)
    ensures IsIdentity(r)
  {
    map i | i in sf :: i
  }

  lemma {:induction false} EmptyTransferIs(base: Json, info: Json, sf: Signatures)
    requires Tidy(base, info) && sf == SignatureMap(info).value
    ensures
      var internal := Renumber(base.fields, sf.Keys);
      && NonNegative(internal) && AllRekeyable(base.fields, internal)
      && Transfer(base, info, base, info, Arr([])) == Ok(Obj(NewNodes(base.fields, internal, IdentityOn(sf))))
  {
    EmptyPatchTransfers(base, info, base, info);
    SelfTransferIs(base, info);
    MatchingItself(sf);
  }

  lemma {:induction false} TidyUnchangedIff(base: Json, info: Json, sf: Signatures)
    requires Tidy(base, info)
    ensures
      var internal := Renumber(base.fields, sf.Keys);
      && NonNegative(internal) && AllRekeyable(base.fields, internal)
      && (NewNodes(base.fields, internal, IdentityOn(sf)) == base.fields <==> NodeIds(base.fields) !! sf.Keys)
  {
    ValidHasDigitKeys(base);
    UnchangedIff(base.fields, IdentityOn(sf), sf.Keys);
  }

  /**
    Transferring a plan to its own tables with an empty patch returns the very
    same structure if and only if no node id is also a scan id.
   */
  lemma {:induction false} EmptyTransferIsIdentityIff(base: Json, info: Json)
    requires Tidy(base, info)
    ensures Transfer(base, info, base, info, Arr([])) == Ok(base)
            <==> NodeIds(base.fields) !! SignatureMap(info).value.Keys
  {
    EmptyTransferIs(base, info, SignatureMap(info).value);
    TidyUnchangedIff(base, info, SignatureMap(info).value);
  }
}
