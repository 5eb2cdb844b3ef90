/** Replacing embedded scans by the target's: `_rebind_parquet_scans_in_structure`. */
module ScanRebinding {
  import opened Basics
  import opened Decimal
  import opened Json
  import opened PlanStructure
  import opened ScanMatching

  /** Node `j` is an embedded scan with this signature. */
  predicate ScanAt(plan: seq<Field>, j: int, sig: Value) {
    0 <= j < |plan| && IsScanNode(plan[j].value) && Signature(plan[j].value) == Ok(sig)
  }

  predicate DigitKeys(plan: seq<Field>) {
    forall i | 0 <= i < |plan| :: IsDigits(plan[i].key)
  }

  /** Node `j` precedes node `i` in the stable order by integer id. */
  predicate Before(plan: seq<Field>, i: int, j: int)
    requires DigitKeys(plan) && 0 <= i < |plan| && 0 <= j < |plan|
  {
    var a, b := ParseNat(plan[j].key), ParseNat(plan[i].key);
    a < b || (a == b && j < i)
  }

  function Scans(plan: seq<Field>, sig: Value): set<int> {
    set j | 0 <= j < |plan| && ScanAt(plan, j, sig)
  }

  function ScansBefore(plan: seq<Field>, i: int, sig: Value): set<int>
    requires DigitKeys(plan) && 0 <= i < |plan|
  {
    set j | 0 <= j < |plan| && ScanAt(plan, j, sig) && Before(plan, i, j)
  }

  // ----- The target's scans of one signature -----

  predicate IntegerId(e: Entry) {
    Intish(e.id)
  }

  function WithSignature(entries: seq<Entry>, sig: Value): (r: seq<Entry>)
    ensures forall e | e in r :: e in entries && Signature(e.node) == Ok(sig)
  {
    if entries == [] then []
    else (if Signature(entries[0].node) == Ok(sig) then [entries[0]] else []) + WithSignature(entries[1..], sig)
  }

  function InsertById(e: Entry, sorted: seq<Entry>): (r: seq<Entry>)
    requires IntegerId(e) && forall x | x in sorted :: IntegerId(x)
    ensures multiset(r) == multiset(sorted) + multiset{e}
  {
    if sorted == [] then [e]
    else
      assert IntegerId(sorted[0]);
      if ToInt(e.id) <= ToInt(sorted[0].id) then [e] + sorted
      else
        assert sorted == [sorted[0]] + sorted[1..];
        [sorted[0]] + InsertById(e, sorted[1..])
  }

  /** `sorted(entries, key=id)`, stable. */
  function SortById(entries: seq<Entry>): (r: seq<Entry>)
    requires forall e | e in entries :: IntegerId(e)
    ensures multiset(r) == multiset(entries)
  {
    if entries == [] then []
    else
      assert entries == [entries[0]] + entries[1..];
      var rest := SortById(entries[1..]);
      assert forall e | e in rest :: e in multiset(rest);
      InsertById(entries[0], rest)
  }

  function Targets(entries: seq<Entry>, sig: Value): (r: seq<Entry>)
    requires forall e | e in entries :: IntegerId(e)
    ensures forall e | e in r :: e in entries && Signature(e.node) == Ok(sig)
  {
    var chosen := WithSignature(entries, sig);
    var r := SortById(chosen);
    assert forall e | e in r :: e in multiset(r);
    r
  }

  // ----- Rebinding -----

  /** A copy of the target's scan that keeps the predicate of the node it replaces, if that has one. */
  function RebindNode(node: Json, target: Json): Json
    requires IsScanNode(node) && Signature(node).Ok?
  {
    var pred := MemberOr(GetField(node.fields, "parquetScan").fields, "predicate", Null);
    if pred.Null? || !target.Obj? then target
    else
      var scan := MemberOr(target.fields, "parquetScan", Obj([]));
      if !scan.Obj? then target
      else Obj(SetField(target.fields, "parquetScan", Obj(SetField(scan.fields, "predicate", pred))))
  }

  predicate Rebindable(plan: seq<Field>, entries: seq<Entry>)
    requires forall e | e in entries :: IntegerId(e)
  {
    forall i | 0 <= i < |plan| && IsScanNode(plan[i].value) ::
      && Signature(plan[i].value).Ok?
      && |Scans(plan, Signature(plan[i].value).value)| <= |Targets(entries, Signature(plan[i].value).value)|
  }

  /** The position of a scan among the plan's scans of its signature. */
  function Rank(plan: seq<Field>, i: nat): nat
    requires DigitKeys(plan) && i < |plan| && IsScanNode(plan[i].value) && Signature(plan[i].value).Ok?
  {
    |ScansBefore(plan, i, Signature(plan[i].value).value)|
  }

  lemma {:induction false} RankFits(plan: seq<Field>, i: nat)
    requires DigitKeys(plan) && i < |plan| && IsScanNode(plan[i].value) && Signature(plan[i].value).Ok?
    ensures Rank(plan, i) < |Scans(plan, Signature(plan[i].value).value)|
  {
    var sig := Signature(plan[i].value).value;
    var before, all := ScansBefore(plan, i, sig), Scans(plan, sig);
    assert i in all && i !in before;
    SubsetSize(before, all - {i});
  }

  function RebindAt(plan: seq<Field>, entries: seq<Entry>, i: nat): Field
    requires DigitKeys(plan) && i < |plan|
    requires (forall e | e in entries :: IntegerId(e)) && Rebindable(plan, entries)
  {
    if IsScanNode(plan[i].value) then
      RankFits(plan, i);
      var sig := Signature(plan[i].value).value;
      Field(plan[i].key, RebindNode(plan[i].value, Targets(entries, sig)[Rank(plan, i)].node))
    else plan[i]
  }

  /** `_rebind_parquet_scans_in_structure`. */
  function Rebind(plan: seq<Field>, entries: seq<Entry>): Result<seq<Field>, TransferError>
    requires DigitKeys(plan) && forall e | e in entries :: IntegerId(e)
  {
    if !Rebindable(plan, entries) then Err(RebindFailed)
    else Ok(seq(|plan|, i requires 0 <= i < |plan| => RebindAt(plan, entries, i)))
  }

  // ----- What rebinding keeps -----

  lemma {:induction false} SameSignatureParts(c1: Json, p1: Json, k1: Json, q1: Json, c2: Json, p2: Json, k2: Json, q2: Json)
    requires ScanSignature(c1, p1, k1, q1) == ScanSignature(c2, p2, k2, q2)
    ensures ScanSignature(c2, p2, k2, q1) == ScanSignature(c1, p1, k1, q1)
  {
    var a, b := ScanSignature(c1, p1, k1, q1).members, ScanSignature(c2, p2, k2, q2).members;
    assert "op" != "baseConf" && "op" != "predicate" && "baseConf" != "predicate" by {
      assert |"op"| != |"baseConf"| && |"op"| != |"predicate"| && |"baseConf"| != |"predicate"|;
    }
    assert a["predicate"] == b["predicate"] && a["baseConf"] == b["baseConf"];
  }

  /** The schema columns that a signature records. */
  function ColumnsOf(base: seq<Field>): Json {
    var schema := MemberOr(base, "schema", Obj([]));
    if schema.Obj? then MemberOr(schema.fields, "columns", Null) else Null
  }

  /** The signature of a scan configuration with the base configuration `base`. */
  function SignatureOf(base: seq<Field>, pred: Json): Value {
    ScanSignature(ColumnsOf(base), MemberOr(base, "projection", Null), MemberOr(base, "constraints", Null), pred)
  }

  lemma {:induction false} ScanSignatureIs(node: Json)
    requires IsScanNode(node) && Signature(node).Ok?
    ensures GetField(node.fields, "parquetScan").Obj?
    ensures
      var scan := GetField(node.fields, "parquetScan").fields;
      && MemberOr(scan, "baseConf", Obj([])).Obj?
      && Signature(node) == Ok(SignatureOf(MemberOr(scan, "baseConf", Obj([])).fields, MemberOr(scan, "predicate", Null)))
  {}

  lemma {:induction false} ReboundScan(target: Json, pred: Json)
    requires IsScanNode(target) && Signature(target).Ok?
    ensures
      var scan := GetField(target.fields, "parquetScan").fields;
      var rebound := Obj(SetField(target.fields, "parquetScan", Obj(SetField(scan, "predicate", pred))));
      && IsScanNode(rebound)
      && Signature(rebound) == Ok(SignatureOf(MemberOr(scan, "baseConf", Obj([])).fields, pred))
  {
    var scan := GetField(target.fields, "parquetScan").fields;
    SetThenGet(target.fields, "parquetScan", Obj(SetField(scan, "predicate", pred)));
    SetThenGet(scan, "predicate", pred);
    assert "baseConf" != "predicate" by { assert |"baseConf"| != |"predicate"|; }
  }

  lemma {:induction false} SamePartsSignature(base1: seq<Field>, pred1: Json, base2: seq<Field>, pred2: Json)
    requires SignatureOf(base1, pred1) == SignatureOf(base2, pred2)
    ensures SignatureOf(base2, pred1) == SignatureOf(base1, pred1)
  {
    SameSignatureParts(
      ColumnsOf(base1), MemberOr(base1, "projection", Null), MemberOr(base1, "constraints", Null), pred1,
      ColumnsOf(base2), MemberOr(base2, "projection", Null), MemberOr(base2, "constraints", Null), pred2);
  }

  /** The rebound node has the signature of the node it replaces. */
  lemma {:induction false} RebindNodeSignature(node: Json, target: Json)
    requires IsScanNode(node) && Signature(node).Ok?
    requires IsScanNode(target) && Signature(target) == Signature(node)
    ensures IsScanNode(RebindNode(node, target)) && Signature(RebindNode(node, target)) == Signature(node)
  {
    ScanSignatureIs(node);
    ScanSignatureIs(target);
    var scan1, scan2 := GetField(node.fields, "parquetScan").fields, GetField(target.fields, "parquetScan").fields;
    var pred := MemberOr(scan1, "predicate", Null);
    ReboundScan(target, pred);
    SamePartsSignature(
      MemberOr(scan1, "baseConf", Obj([])).fields, pred,
      MemberOr(scan2, "baseConf", Obj([])).fields, MemberOr(scan2, "predicate", Null));
  }

  /** Every table entry of the target describes a scan. */
  predicate ScanEntries(entries: seq<Entry>) {
    forall e | e in entries :: IntegerId(e) && IsScanNode(e.node)
  }

  /** Rebinding keeps keys, leaves other nodes alone, and replaces a scan by one of equal signature. */
  lemma {:induction false} RebindKeeps(plan: seq<Field>, entries: seq<Entry>, i: nat)
    requires DigitKeys(plan) && ScanEntries(entries) && Rebind(plan, entries).Ok? && i < |plan|
    ensures |Rebind(plan, entries).value| == |plan|
    ensures
      var r := Rebind(plan, entries).value[i];
      && r.key == plan[i].key
      && (!IsScanNode(plan[i].value) ==> r == plan[i])
      && (IsScanNode(plan[i].value) ==> IsScanNode(r.value) && Signature(r.value) == Signature(plan[i].value))
  {
    if IsScanNode(plan[i].value) {
      RankFits(plan, i);
      var sig := Signature(plan[i].value).value;
      var targets := Targets(entries, sig);
      assert targets[Rank(plan, i)] in targets;
      RebindNodeSignature(plan[i].value, targets[Rank(plan, i)].node);
    }
  }

  lemma {:induction false} EarlierRanksLower(plan: seq<Field>, i: nat, j: nat, sig: Value)
    requires DigitKeys(plan) && j < |plan| && ScanAt(plan, i, sig) && Before(plan, j, i)
    ensures |ScansBefore(plan, i, sig)| < |ScansBefore(plan, j, sig)|
  {
    var a, b := ScansBefore(plan, i, sig), ScansBefore(plan, j, sig);
    assert i in b && i !in a;
    forall k | k in a ensures k in b - {i} {
      assert Before(plan, j, k);
    }
    SubsetSize(a, b - {i});
  }

  /** Two scans of one signature are never bound to the same entry. */
  lemma {:induction false} RanksDiffer(plan: seq<Field>, i: nat, j: nat)
    requires DigitKeys(plan) && i < |plan| && j < |plan| && i != j
    requires IsScanNode(plan[i].value) && IsScanNode(plan[j].value)
    requires Signature(plan[i].value).Ok? && Signature(plan[j].value) == Signature(plan[i].value)
    ensures Rank(plan, i) != Rank(plan, j)
  {
    var sig := Signature(plan[i].value).value;
    if Before(plan, j, i) {
      EarlierRanksLower(plan, i, j, sig);
    } else {
      EarlierRanksLower(plan, j, i, sig);
    }
  }
}
