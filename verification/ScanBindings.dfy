/** Which entry of the target's table an embedded scan is replaced by. */
module ScanBindings {
  import opened Basics
  import opened Decimal
  import opened Json
  import opened Sorting
  import opened PlanStructure
  import opened ScanMatching
  import opened ScanSignatures
  import opened ScanRebinding

  // ----- The replaced node -----

  lemma {:induction false} SamePredicate(node: Json, target: Json)
    requires ReadableScan(node) && ReadableScan(target) && Signature(node) == Signature(target)
    ensures Part(ScanPart(target), "predicate") == Part(ScanPart(node), "predicate")
  {
    SameSignatureIff(node, target);
  }

  lemma {:induction false} SetSame(fs: seq<Field>, key: string, v: Json)
    requires key in AbsFields(fs) && AbsFields(fs)[key] == Abs(v)
    ensures AbsFields(SetField(fs, key, v)) == AbsFields(fs)
  {
    AbsSet(fs, key, v);
  }

  /** Writing an equal predicate into a scan changes nothing but the order of members. */
  lemma {:induction false} PutBack(node: seq<Field>, scan: seq<Field>, pred: Json)
    requires "parquetScan" in AbsFields(node) && AbsFields(node)["parquetScan"] == VObj(AbsFields(scan))
    requires "predicate" in AbsFields(scan) && AbsFields(scan)["predicate"] == Abs(pred)
    ensures Abs(Obj(SetField(node, "parquetScan", Obj(SetField(scan, "predicate", pred))))) == Abs(Obj(node))
  {
    SetSame(scan, "predicate", pred);
    SetSame(node, "parquetScan", Obj(SetField(scan, "predicate", pred)));
  }

  /** The predicate of the plan's scan is the one of the target's scan. */
  lemma {:induction false} KeptPredicate(node: Json, target: Json)
    requires IsScanNode(node) && Signature(node).Ok? && IsScanNode(target) && Signature(target) == Signature(node)
    ensures
      var mine, scan := GetField(node.fields, "parquetScan"), GetField(target.fields, "parquetScan");
      && mine.Obj? && scan.Obj? && Abs(MemberOr(mine.fields, "predicate", Null)) == Part(AbsFields(scan.fields), "predicate")
      && "parquetScan" in AbsFields(target.fields) && AbsFields(target.fields)["parquetScan"] == VObj(AbsFields(scan.fields))
  {
    ScanNodeIs(node);
    ScanNodeIs(target);
    SignatureOfScan(node);
    SignatureOfScan(target);
    SamePredicate(node, target);
    var mine, scan := GetField(node.fields, "parquetScan"), GetField(target.fields, "parquetScan");
    IsObject(mine);
    IsObject(scan);
    AbsMemberOr(mine.fields, "predicate", Null);
  }

  /** As a JSON value the rebound node is the target's, file groups and statistics included. */
  lemma {:induction false} ReboundIsTarget(node: Json, target: Json)
    requires IsScanNode(node) && Signature(node).Ok? && IsScanNode(target) && Signature(target) == Signature(node)
    ensures Abs(RebindNode(node, target)) == Abs(target)
  {
    KeptPredicate(node, target);
    var mine, scan := GetField(node.fields, "parquetScan"), GetField(target.fields, "parquetScan");
    var pred := MemberOr(mine.fields, "predicate", Null);
    if !pred.Null? {
      assert Abs(pred) != VNull;
      PutBack(target.fields, scan.fields, pred);
    }
  }

  // ----- The entry -----

  /** An entry for a scan of this signature. */
  predicate Serves(e: Entry, sig: Value) {
    Intish(e.id) && Signature(e.node) == Ok(sig)
  }

  predicate DistinctIds(entries: seq<Entry>) {
    forall i, j | 0 <= i < j < |entries| && Intish(entries[i].id) && Intish(entries[j].id) :: ToInt(entries[i].id) != ToInt(entries[j].id)
  }

  /** The ids below `id` of the entries for scans of this signature. */
  function SmallerEntries(entries: seq<Entry>, sig: Value, id: int): set<int> {
    set k | 0 <= k < |entries| && Serves(entries[k], sig) && ToInt(entries[k].id) < id :: ToInt(entries[k].id)
  }

  /** The positions of the plan's scans of this signature that come before node `i` by id. */
  function EarlierScans(plan: seq<Field>, sig: Value, i: nat): set<int>
    requires i < |plan|
  {
    set j | 0 <= j < |plan| && IsDigits(plan[j].key) && IsDigits(plan[i].key) && IsScanNode(plan[j].value) && Signature(plan[j].value) == Ok(sig)
      && (ParseNat(plan[j].key) < ParseNat(plan[i].key) || (ParseNat(plan[j].key) == ParseNat(plan[i].key) && j < i))
  }

  predicate AllInteger(entries: seq<Entry>) {
    forall e | e in entries :: IntegerId(e)
  }

  function IdsOf(entries: seq<Entry>): (r: seq<int>)
    requires AllInteger(entries)
    ensures |r| == |entries| && forall i | 0 <= i < |r| :: entries[i] in entries && r[i] == ToInt(entries[i].id)
  {
    seq(|entries|, i requires 0 <= i < |entries| => assert entries[i] in entries; ToInt(entries[i].id))
  }

  predicate NonDecreasing(ids: seq<int>) {
    forall i, j | 0 <= i < j < |ids| :: ids[i] <= ids[j]
  }

  lemma {:induction false} InsertKeepsOrder(e: Entry, sorted: seq<Entry>)
    requires IntegerId(e) && AllInteger(sorted) && NonDecreasing(IdsOf(sorted))
    ensures AllInteger(InsertById(e, sorted)) && NonDecreasing(IdsOf(InsertById(e, sorted)))
    ensures |InsertById(e, sorted)| == |sorted| + 1
  {
    var r := InsertById(e, sorted);
    if sorted != [] {
      assert sorted[0] in sorted;
      if ToInt(e.id) > ToInt(sorted[0].id) {
        var rest := InsertById(e, sorted[1..]);
        RestIsOrdered(sorted);
        InsertKeepsOrder(e, sorted[1..]);
        assert r == [sorted[0]] + rest;
        forall x | x in rest ensures ToInt(sorted[0].id) <= ToInt(x.id) {
          assert x in multiset(rest);
          assert x == e || x in multiset(sorted[1..]);
          if x != e {
            var k :| 0 <= k < |sorted[1..]| && sorted[1..][k] == x;
            assert IdsOf(sorted)[k + 1] == ToInt(x.id) && IdsOf(sorted)[0] == ToInt(sorted[0].id);
          }
        }
        OrderedFromHead(sorted[0], rest);
      } else {
        forall x | x in sorted ensures ToInt(e.id) <= ToInt(x.id) {
          var k :| 0 <= k < |sorted| && sorted[k] == x;
          assert IdsOf(sorted)[k] == ToInt(x.id) && IdsOf(sorted)[0] == ToInt(sorted[0].id);
        }
        OrderedFromHead(e, sorted);
      }
    }
  }

  lemma {:induction false} RestIsOrdered(sorted: seq<Entry>)
    requires sorted != [] && AllInteger(sorted) && NonDecreasing(IdsOf(sorted))
    ensures AllInteger(sorted[1..]) && NonDecreasing(IdsOf(sorted[1..]))
  {
    assert forall x | x in sorted[1..] :: x in sorted;
    assert IdsOf(sorted[1..]) == IdsOf(sorted)[1..];
  }

  lemma {:induction false} OrderedFromHead(e: Entry, rest: seq<Entry>)
    requires IntegerId(e) && AllInteger(rest) && NonDecreasing(IdsOf(rest))
    requires forall x | x in rest :: ToInt(e.id) <= ToInt(x.id)
    ensures AllInteger([e] + rest) && NonDecreasing(IdsOf([e] + rest))
  {
    var ids := IdsOf([e] + rest);
    forall i, j | 0 <= i < j < |ids| ensures ids[i] <= ids[j] {
      assert ([e] + rest)[j] == rest[j - 1] && rest[j - 1] in rest;
      if i > 0 { assert ([e] + rest)[i] == rest[i - 1] && IdsOf(rest)[i - 1] <= IdsOf(rest)[j - 1]; }
    }
  }

  lemma {:induction false} SortByIdOrders(entries: seq<Entry>)
    requires AllInteger(entries)
    ensures AllInteger(SortById(entries)) && NonDecreasing(IdsOf(SortById(entries))) && |SortById(entries)| == |entries|
  {
    if entries != [] {
      assert entries[0] in entries && forall x | x in entries[1..] :: x in entries;
      SortByIdOrders(entries[1..]);
      InsertKeepsOrder(entries[0], SortById(entries[1..]));
    }
  }

  /** The entries for one signature, as often as they occur in the table. */
  lemma {:induction false} ChosenAre(entries: seq<Entry>, sig: Value, e: Entry)
    ensures multiset(WithSignature(entries, sig))[e] == if Signature(e.node) == Ok(sig) then multiset(entries)[e] else 0
  {
    if entries != [] {
      ChosenAre(entries[1..], sig, e);
      assert entries == [entries[0]] + entries[1..];
    }
  }

  lemma {:induction false} OnceOnly(entries: seq<Entry>, e: Entry)
    requires AllInteger(entries) && DistinctIds(entries)
    ensures multiset(entries)[e] <= 1
  {
    if entries != [] {
      assert forall x | x in entries[1..] :: x in entries;
      OnceOnly(entries[1..], e);
      assert entries == [entries[0]] + entries[1..];
      forall k | 0 <= k < |entries[1..]| ensures entries[1..][k] != entries[0] {
        assert entries[1..][k] == entries[k + 1] && entries[k + 1] in entries;
      }
    }
  }

  lemma {:induction false} TwoOccurrences(s: seq<Entry>, i: nat, j: nat)
    requires i < j < |s| && s[i] == s[j]
    ensures multiset(s)[s[i]] >= 2
  {
    assert s == s[..j] + [s[j]] + s[j + 1..];
    assert s[..j][i] == s[i] && s[i] in s[..j];
  }

  /** With distinct ids, the entries for one signature are listed by increasing id. */
  lemma {:induction false} TargetsIncrease(entries: seq<Entry>, sig: Value)
    requires AllInteger(entries) && DistinctIds(entries)
    ensures AllInteger(Targets(entries, sig)) && Increasing(IdsOf(Targets(entries, sig)))
    ensures forall e :: e in Targets(entries, sig) <==> e in entries && Signature(e.node) == Ok(sig)
  {
    var chosen, targets := WithSignature(entries, sig), Targets(entries, sig);
    assert AllInteger(chosen);
    SortByIdOrders(chosen);
    forall e ensures e in targets <==> e in entries && Signature(e.node) == Ok(sig) {
      ChosenAre(entries, sig, e);
      assert e in targets <==> e in multiset(targets);
    }
    var ids := IdsOf(targets);
    forall i, j | 0 <= i < j < |ids| ensures ids[i] < ids[j] {
      if ids[i] == ids[j] {
        SameIdSameEntry(entries, targets[i], targets[j]);
        TwoOccurrences(targets, i, j);
        ChosenAre(entries, sig, targets[i]);
        OnceOnly(entries, targets[i]);
      }
    }
  }

  lemma {:induction false} SameIdSameEntry(entries: seq<Entry>, a: Entry, b: Entry)
    requires AllInteger(entries) && DistinctIds(entries) && a in entries && b in entries && ToInt(a.id) == ToInt(b.id)
    ensures a == b
  {
    var i :| 0 <= i < |entries| && entries[i] == a;
    var j :| 0 <= j < |entries| && entries[j] == b;
    assert i == j;
  }

  /** A smaller id of the signature is listed earlier. */
  lemma {:induction false} ListedEarlier(entries: seq<Entry>, sig: Value, k: nat, x: int)
    requires AllInteger(entries) && DistinctIds(entries) && k < |Targets(entries, sig)| && AllInteger(Targets(entries, sig))
    requires x in SmallerEntries(entries, sig, IdsOf(Targets(entries, sig))[k])
    ensures x in IdsOf(Targets(entries, sig))[..k]
  {
    TargetsIncrease(entries, sig);
    var targets := Targets(entries, sig);
    var ids := IdsOf(targets);
    var j :| 0 <= j < |entries| && Serves(entries[j], sig) && ToInt(entries[j].id) == x;
    assert entries[j] in targets;
    var t :| 0 <= t < |targets| && targets[t] == entries[j];
    assert ids[t] == x && t < k;
    assert ids[..k][t] == x;
  }

  /** And what is listed earlier has a smaller id of the signature. */
  lemma {:induction false} EarlierIsSmaller(entries: seq<Entry>, sig: Value, k: nat, x: int)
    requires AllInteger(entries) && DistinctIds(entries) && k < |Targets(entries, sig)| && AllInteger(Targets(entries, sig))
    requires x in IdsOf(Targets(entries, sig))[..k]
    ensures x in SmallerEntries(entries, sig, IdsOf(Targets(entries, sig))[k])
  {
    TargetsIncrease(entries, sig);
    var targets := Targets(entries, sig);
    var ids := IdsOf(targets);
    var t :| 0 <= t < k && ids[t] == x;
    assert targets[t] in targets;
    var j :| 0 <= j < |entries| && entries[j] == targets[t];
    assert IntegerId(entries[j]) && Serves(entries[j], sig);
  }

  lemma {:induction false} SmallerAreFirst(entries: seq<Entry>, sig: Value, k: nat)
    requires AllInteger(entries) && DistinctIds(entries) && k < |Targets(entries, sig)|
    ensures AllInteger(Targets(entries, sig)) && |SmallerEntries(entries, sig, IdsOf(Targets(entries, sig))[k])| == k
  {
    TargetsIncrease(entries, sig);
    var ids := IdsOf(Targets(entries, sig));
    var earlier := ids[..k];
    forall x ensures x in earlier <==> x in SmallerEntries(entries, sig, ids[k]) {
      if x in SmallerEntries(entries, sig, ids[k]) { ListedEarlier(entries, sig, k, x); }
      if x in earlier { EarlierIsSmaller(entries, sig, k, x); }
    }
    CountListed(earlier, SmallerEntries(entries, sig, ids[k]));
  }

  lemma {:induction false} RankedTarget(entries: seq<Entry>, sig: Value, k: nat)
    requires ScanEntries(entries) && AllInteger(entries) && DistinctIds(entries) && k < |Targets(entries, sig)|
    ensures
      var e := Targets(entries, sig)[k];
      e in entries && IntegerId(e) && IsScanNode(e.node) && Signature(e.node) == Ok(sig)
  {
    TargetsIncrease(entries, sig);
    var targets := Targets(entries, sig);
    assert targets[k] in targets;
  }

  lemma {:induction false} RankIs(plan: seq<Field>, i: nat, sig: Value)
    requires DigitKeys(plan) && i < |plan| && IsScanNode(plan[i].value) && Signature(plan[i].value) == Ok(sig)
    ensures |EarlierScans(plan, sig, i)| == Rank(plan, i)
  {
    SameElements(EarlierScans(plan, sig, i), ScansBefore(plan, i, sig));
  }

  /**
    An embedded scan becomes, as a JSON value, the target's scan of its signature
    that has as many scans of this signature with smaller ids before it as the
    embedded scan has in the plan.
   */
  lemma {:induction false} BoundByRank(plan: seq<Field>, entries: seq<Entry>, i: nat) returns (e: Entry)
    requires DigitKeys(plan) && ScanEntries(entries) && DistinctIds(entries) && Rebind(plan, entries).Ok?
    requires i < |plan| && IsScanNode(plan[i].value)
    ensures i < |Rebind(plan, entries).value| && Abs(Rebind(plan, entries).value[i].value) == Abs(e.node)
    ensures e in entries && Intish(e.id) && Signature(plan[i].value).Ok? && Signature(e.node) == Signature(plan[i].value)
    ensures |SmallerEntries(entries, Signature(plan[i].value).value, ToInt(e.id))|
            == |EarlierScans(plan, Signature(plan[i].value).value, i)|
  {
    RankFits(plan, i);
    var sig := Signature(plan[i].value).value;
    var k := Rank(plan, i);
    SmallerAreFirst(entries, sig, k);
    e := Targets(entries, sig)[k];
    RankedTarget(entries, sig, k);
    ReboundIsTarget(plan[i].value, e.node);
    RankIs(plan, i, sig);
  }

  /** Two embedded scans are rebound to two entries. */
  lemma {:induction false} BoundApart(plan: seq<Field>, entries: seq<Entry>, i: nat, j: nat) returns (e: Entry, f: Entry)
    requires DigitKeys(plan) && ScanEntries(entries) && DistinctIds(entries) && Rebind(plan, entries).Ok?
    requires i < |plan| && IsScanNode(plan[i].value) && j < |plan| && IsScanNode(plan[j].value) && i != j
    ensures e in entries && f in entries && e != f
    ensures i < |Rebind(plan, entries).value| && j < |Rebind(plan, entries).value|
    ensures Abs(Rebind(plan, entries).value[i].value) == Abs(e.node) && Abs(Rebind(plan, entries).value[j].value) == Abs(f.node)
  {
    e := BoundByRank(plan, entries, i);
    f := BoundByRank(plan, entries, j);
    if Signature(plan[i].value) == Signature(plan[j].value) {
      RanksDiffer(plan, i, j);
      RankIs(plan, i, Signature(plan[i].value).value);
      RankIs(plan, j, Signature(plan[i].value).value);
    }
  }

  /** The ids of the entries for scans of this signature. */
  function ServingIds(entries: seq<Entry>, sig: Value): set<int> {
    set k | 0 <= k < |entries| && Serves(entries[k], sig) :: ToInt(entries[k].id)
  }

  lemma {:induction false} TargetCount(entries: seq<Entry>, sig: Value)
    requires AllInteger(entries) && DistinctIds(entries)
    ensures |Targets(entries, sig)| == |ServingIds(entries, sig)|
  {
    TargetsIncrease(entries, sig);
    var targets := Targets(entries, sig);
    var ids := IdsOf(targets);
    forall x ensures x in ids <==> x in ServingIds(entries, sig) {
      if x in ServingIds(entries, sig) {
        var k :| 0 <= k < |entries| && Serves(entries[k], sig) && ToInt(entries[k].id) == x;
        assert entries[k] in targets;
        var t :| 0 <= t < |targets| && targets[t] == entries[k];
        assert ids[t] == x;
      }
      if x in ids {
        var t :| 0 <= t < |ids| && ids[t] == x;
        assert targets[t] in targets;
        var k :| 0 <= k < |entries| && entries[k] == targets[t];
        assert Serves(entries[k], sig);
      }
    }
    CountListed(ids, ServingIds(entries, sig));
  }

  /** The positions of the plan's scans of this signature. */
  function ScansLike(plan: seq<Field>, sig: Value): set<int> {
    set j | 0 <= j < |plan| && IsScanNode(plan[j].value) && Signature(plan[j].value) == Ok(sig)
  }

  /**
    Rebinding succeeds if and only if every embedded scan is readable and the
    target has at least as many scans of its signature as the plan.
   */
  lemma {:induction false} RebindSucceedsIff(plan: seq<Field>, entries: seq<Entry>)
    requires DigitKeys(plan) && AllInteger(entries) && DistinctIds(entries)
    ensures Rebind(plan, entries).Ok? <==> forall i | 0 <= i < |plan| && IsScanNode(plan[i].value) ::
              && Signature(plan[i].value).Ok?
              && |ScansLike(plan, Signature(plan[i].value).value)| <= |ServingIds(entries, Signature(plan[i].value).value)|
  {
    forall i | 0 <= i < |plan| && IsScanNode(plan[i].value) && Signature(plan[i].value).Ok?
      ensures |Targets(entries, Signature(plan[i].value).value)| == |ServingIds(entries, Signature(plan[i].value).value)|
      ensures Scans(plan, Signature(plan[i].value).value) == ScansLike(plan, Signature(plan[i].value).value)
    {
      TargetCount(entries, Signature(plan[i].value).value);
    }
  }
}
