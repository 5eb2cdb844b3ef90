/** `_build_scan_id_mapping`, step by step: group the scans by signature, then pair the groups. */
module ScanPairing {
  import opened Basics
  import opened Json
  import opened Sorting
  import opened Graphs
  import opened PlanStructure
  import opened ScanMatching

  type Groups = map<Value, seq<int>>

  /** The items of a dict in its order. */
  ghost predicate Enumerates(order: seq<int>, sigs: Signatures) {
    Lists(order, sigs.Keys)
  }

  /** The ids of every signature among the first `n` items. */
  ghost predicate GroupedUpTo(groups: Groups, sigs: Signatures, order: seq<int>, n: nat)
    requires n <= |order| && Enumerates(order, sigs)
  {
    && (forall k | 0 <= k < n :: order[k] in sigs && sigs[order[k]] in groups)
    && (forall k | 0 <= k < n :: order[k] in groups[sigs[order[k]]])
    && forall v, i | v in groups && i in groups[v] :: i in sigs && sigs[i] == v
  }

  ghost predicate NoEmptyGroup(groups: Groups) {
    forall v | v in groups :: groups[v] != []
  }

  /** Every signature with its ids in increasing order. */
  ghost predicate Grouped(groups: Groups, sigs: Signatures) {
    && (forall i | i in sigs :: sigs[i] in groups)
    && forall v | v in groups :: IdsWith(sigs, v) != {} && groups[v] == Sorted(IdsWith(sigs, v))
  }

  lemma {:induction false} GroupHolds(groups: Groups, sigs: Signatures, order: seq<int>, v: Value)
    requires Enumerates(order, sigs) && GroupedUpTo(groups, sigs, order, |order|) && NoEmptyGroup(groups) && v in groups
    ensures Elements(groups[v]) == IdsWith(sigs, v) && IdsWith(sigs, v) != {}
  {
    forall i | i in IdsWith(sigs, v) ensures i in Elements(groups[v]) {
      var k := ListedPosition(order, sigs.Keys, i);
    }
    forall i | i in Elements(groups[v]) ensures i in IdsWith(sigs, v) {
      assert i in groups[v];
    }
    SameElements(Elements(groups[v]), IdsWith(sigs, v));
    assert groups[v][0] in Elements(groups[v]);
  }

  /** `setdefault(sig, []).append(sid)` over all items. */
  method Collect(sigs: Signatures, order: seq<int>) returns (groups: Groups)
    requires Enumerates(order, sigs)
    ensures GroupedUpTo(groups, sigs, order, |order|) && NoEmptyGroup(groups)
  {
    groups := map[];
    var k := 0;
    while k < |order|
      invariant 0 <= k <= |order| && GroupedUpTo(groups, sigs, order, k) && NoEmptyGroup(groups)
    {
      ListedAt(order, sigs.Keys, k);
      var v := sigs[order[k]];
      groups := groups[v := (if v in groups then groups[v] else []) + [order[k]]];
      k := k + 1;
    }
  }

  /** Sort every group. */
  method GroupBySignature(sigs: Signatures, order: seq<int>) returns (groups: Groups)
    requires Enumerates(order, sigs)
    ensures Grouped(groups, sigs)
  {
    var collected := Collect(sigs, order);
    groups := collected;
    var todo := collected.Keys;
    while todo != {}
      invariant todo <= collected.Keys == groups.Keys
      invariant forall v | v in groups :: groups[v] == if v in todo then collected[v] else Sorted(Elements(collected[v]))
    {
      var v :| v in todo;
      groups := groups[v := Sorted(Elements(groups[v]))];
      todo := todo - {v};
    }
    forall v | v in groups ensures IdsWith(sigs, v) != {} && groups[v] == Sorted(IdsWith(sigs, v)) {
      GroupHolds(collected, sigs, order, v);
    }
    forall i | i in sigs ensures sigs[i] in groups {
      var k := ListedPosition(order, sigs.Keys, i);
    }
  }

  lemma {:induction false} RankOfPosition(s: set<int>, k: nat)
    requires k < |s|
    ensures CountBelow(s, Sorted(s)[k]) == k
  {
    var x := Sorted(s)[k];
    assert x in Sorted(s);
    PositionOf(s, x);
    var r := CountBelow(s, x);
    assert Increasing(Sorted(s)) && Sorted(s)[r] == Sorted(s)[k];
  }

  ghost predicate PairedAt(mapping: map<int, int>, sf1: Signatures, sf2: Signatures, i: int)
    requires i in mapping
  {
    Enough(sf1, sf2, i) && mapping[i] == Partner(sf1, sf2, i)
  }

  /** What is paired after the signatures not in `todo`. */
  ghost predicate PairedBut(mapping: map<int, int>, sf1: Signatures, sf2: Signatures, todo: set<Value>) {
    && (forall i | i in sf1 :: sf1[i] in todo || i in mapping)
    && Partnered(mapping, sf1, sf2, todo)
  }

  ghost predicate Partnered(mapping: map<int, int>, sf1: Signatures, sf2: Signatures, todo: set<Value>) {
    forall i | i in mapping :: PairedAt(mapping, sf1, sf2, i) && sf1[i] !in todo
  }

  lemma {:induction false} PartnerAdded(mapping: map<int, int>, sf1: Signatures, sf2: Signatures, todo: set<Value>, i: int)
    requires Partnered(mapping, sf1, sf2, todo) && Enough(sf1, sf2, i) && sf1[i] !in todo
    ensures Partnered(mapping[i := Partner(sf1, sf2, i)], sf1, sf2, todo)
  {
    var next := mapping[i := Partner(sf1, sf2, i)];
    forall j | j in next ensures PairedAt(next, sf1, sf2, j) && sf1[j] !in todo {
      assert j != i ==> j in mapping && PairedAt(mapping, sf1, sf2, j);
    }
  }

  lemma {:induction false} PartneredFewer(mapping: map<int, int>, sf1: Signatures, sf2: Signatures, todo: set<Value>, v: Value)
    requires Partnered(mapping, sf1, sf2, todo)
    ensures Partnered(mapping, sf1, sf2, todo - {v})
  {}

  /** The inner loop: pair the ids of one signature by position. */
  method PairGroup(mapping: map<int, int>, sf1: Signatures, sf2: Signatures, v: Value, ids1: seq<int>, ids2: seq<int>, ghost todo: set<Value>)
    returns (next: map<int, int>)
    requires PairedBut(mapping, sf1, sf2, todo) && v in todo && |ids1| <= |ids2|
    requires forall k | 0 <= k < |ids1| :: ArePartners(sf1, sf2, v, ids1[k], ids2[k])
    requires forall i | i in sf1 && sf1[i] == v :: i in ids1
    ensures PairedBut(next, sf1, sf2, todo - {v})
  {
    next := mapping;
    PartneredFewer(mapping, sf1, sf2, todo, v);
    var k := 0;
    while k < |ids1|
      invariant 0 <= k <= |ids1| && Partnered(next, sf1, sf2, todo - {v})
      invariant forall i | i in mapping :: i in next
      invariant forall j | 0 <= j < k :: ids1[j] in next
    {
      assert ArePartners(sf1, sf2, v, ids1[k], ids2[k]);
      PartnerAdded(next, sf1, sf2, todo - {v}, ids1[k]);
      next := next[ids1[k] := ids2[k]];
      k := k + 1;
    }
    forall i | i in sf1 ensures sf1[i] in todo - {v} || i in next {
      if sf1[i] == v {
        var j :| 0 <= j < |ids1| && ids1[j] == i;
      }
    }
  }

  ghost predicate ArePartners(sf1: Signatures, sf2: Signatures, v: Value, i: int, j: int) {
    Enough(sf1, sf2, i) && sf1[i] == v && Partner(sf1, sf2, i) == j
  }

  /** The ids of a signature, by position, are partners, and these are all. */
  lemma {:induction false} GroupsPair(sf1: Signatures, sf2: Signatures, v: Value)
    requires |IdsWith(sf1, v)| <= |IdsWith(sf2, v)|
    ensures
      var ids1, ids2 := Sorted(IdsWith(sf1, v)), Sorted(IdsWith(sf2, v));
      && (forall k | 0 <= k < |ids1| :: ArePartners(sf1, sf2, v, ids1[k], ids2[k]))
      && forall i | i in sf1 && sf1[i] == v :: i in ids1
  {
    var ids1, ids2 := Sorted(IdsWith(sf1, v)), Sorted(IdsWith(sf2, v));
    forall k | 0 <= k < |ids1| ensures ArePartners(sf1, sf2, v, ids1[k], ids2[k]) {
      RankOfPosition(IdsWith(sf1, v), k);
      assert ids1[k] in ids1;
    }
    forall i | i in sf1 && sf1[i] == v ensures i in ids1 {
      assert i in IdsWith(sf1, v);
    }
  }

  /** `_build_scan_id_mapping`; the orders are those of the two signature dicts. */
  method BuildScanIdMapping(sf1: Signatures, order1: seq<int>, sf2: Signatures, order2: seq<int>)
    returns (r: Result<map<int, int>, TransferError>)
    requires Enumerates(order1, sf1) && Enumerates(order2, sf2)
    ensures r == ScanMapping(sf1, sf2)
  {
    var groups1 := GroupBySignature(sf1, order1);
    var groups2 := GroupBySignature(sf2, order2);
    var mapping: map<int, int>, todo := map[], groups1.Keys;
    while todo != {}
      invariant todo <= groups1.Keys && PairedBut(mapping, sf1, sf2, todo)
    {
      var v :| v in todo;
      var ids2 := if v in groups2 then groups2[v] else [];
      TargetGroup(groups2, sf2, v);
      if |ids2| < |groups1[v]| {
        TooFew(sf1, sf2, v);
        return Err(ScanUnmatched);
      }
      GroupsPair(sf1, sf2, v);
      mapping := PairGroup(mapping, sf1, sf2, v, groups1[v], ids2, todo);
      todo := todo - {v};
    }
    AllPaired(mapping, sf1, sf2);
    return Ok(mapping);
  }

  lemma {:induction false} TargetGroup(groups: Groups, sigs: Signatures, v: Value)
    requires Grouped(groups, sigs)
    ensures (if v in groups then groups[v] else []) == Sorted(IdsWith(sigs, v))
  {
    if v !in groups {
      forall i ensures i !in IdsWith(sigs, v) {
        assert i in sigs ==> sigs[i] in groups;
      }
      EmptySet(IdsWith(sigs, v));
    }
  }

  lemma {:induction false} TooFew(sf1: Signatures, sf2: Signatures, v: Value)
    requires IdsWith(sf1, v) != {} && |IdsWith(sf2, v)| < |IdsWith(sf1, v)|
    ensures !Matchable(sf1, sf2)
  {
    var i := Inhabitant(IdsWith(sf1, v));
    assert i in sf1 && sf1[i] == v;
  }

  lemma {:induction false} AllPaired(mapping: map<int, int>, sf1: Signatures, sf2: Signatures)
    requires PairedBut(mapping, sf1, sf2, {})
    ensures ScanMapping(sf1, sf2) == Ok(mapping)
  {
    forall i | i in sf1 ensures |IdsWith(sf1, sf1[i])| <= |IdsWith(sf2, sf1[i])| {
      assert i in mapping && PairedAt(mapping, sf1, sf2, i);
    }
    forall c | c in mapping.Keys ensures c in sf1.Keys {
      assert PairedAt(mapping, sf1, sf2, c);
    }
    forall c | c in sf1.Keys ensures c in mapping.Keys {
      assert sf1[c] in {} || c in mapping;
    }
    SameElements(mapping.Keys, sf1.Keys);
    assert mapping == ScanMapping(sf1, sf2).value;
  }

  lemma {:induction false} SortedLists(s: set<int>)
    ensures Lists(Sorted(s), s)
  {}

  /** The mapping, with the dicts enumerated by id; the order makes no difference. */
  method PairScans(sf1: Signatures, sf2: Signatures) returns (r: Result<map<int, int>, TransferError>)
    ensures r == ScanMapping(sf1, sf2)
  {
    SortedLists(sf1.Keys);
    SortedLists(sf2.Keys);
    r := BuildScanIdMapping(sf1, Sorted(sf1.Keys), sf2, Sorted(sf2.Keys));
  }
}
