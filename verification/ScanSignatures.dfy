/** What a scan signature records, and what it leaves out, in terms of the members of the scan. */
module ScanSignatures {
  import opened Basics
  import opened Json
  import opened Sorting
  import opened PlanStructure
  import opened ScanMatching

  // ----- Parts of a scan -----

  /** A member of a JSON object, null if it is absent. */
  function Part(members: map<string, Value>, key: string): Value {
    if key in members then members[key] else VNull
  }

  function PartMembers(members: map<string, Value>, key: string): map<string, Value> {
    if key in members && members[key].VObj? then members[key].members else map[]
  }

  /** The configuration of the scan operator of a node. */
  function ScanPart(node: Json): map<string, Value> {
    if Abs(node).VObj? then PartMembers(Abs(node).members, "parquetScan") else map[]
  }

  function BasePart(node: Json): map<string, Value> {
    PartMembers(ScanPart(node), "baseConf")
  }

  function ColumnsPart(node: Json): Value {
    Part(PartMembers(BasePart(node), "schema"), "columns")
  }

  /** A scan whose configuration and base configuration, if there is one, are objects. */
  predicate ReadableScan(node: Json) {
    && Abs(node).VObj? && "parquetScan" in Abs(node).members && Abs(node).members["parquetScan"].VObj?
    && ("baseConf" in ScanPart(node) ==> ScanPart(node)["baseConf"].VObj?)
  }

  /** The same columns, projection, constraints and predicate, absent ones read as null. */
  predicate SameScans(a: Json, b: Json) {
    && ColumnsPart(a) == ColumnsPart(b)
    && Part(BasePart(a), "projection") == Part(BasePart(b), "projection")
    && Part(BasePart(a), "constraints") == Part(BasePart(b), "constraints")
    && Part(ScanPart(a), "predicate") == Part(ScanPart(b), "predicate")
  }

  // ----- Reading -----

  lemma {:induction false} AbsMemberOr(fs: seq<Field>, key: string, default: Json)
    ensures Abs(MemberOr(fs, key, default)) == if key in AbsFields(fs) then AbsFields(fs)[key] else Abs(default)
  {
    AbsGet(fs, key);
  }

  lemma {:induction false} IsObject(j: Json)
    ensures j.Obj? <==> Abs(j).VObj?
    ensures j.Obj? ==> AbsFields(j.fields) == Abs(j).members
  {}

  lemma {:induction false} ScanNodeIs(node: Json)
    ensures IsScanNode(node) <==> Abs(node).VObj? && "parquetScan" in Abs(node).members
    ensures IsScanNode(node) ==> Abs(GetField(node.fields, "parquetScan")) == Abs(node).members["parquetScan"]
  {
    if node.Obj? { AbsGet(node.fields, "parquetScan"); }
  }

  lemma {:induction false} EmptyObject()
    ensures Abs(Obj([])) == VObj(map[])
  {}

  lemma {:induction false} ColumnsAre(base: seq<Field>)
    ensures
      var schema := MemberOr(base, "schema", Obj([]));
      Abs(if schema.Obj? then MemberOr(schema.fields, "columns", Null) else Null)
      == Part(PartMembers(AbsFields(base), "schema"), "columns")
  {
    var schema := MemberOr(base, "schema", Obj([]));
    AbsMemberOr(base, "schema", Obj([]));
    EmptyObject();
    if schema.Obj? { AbsMemberOr(schema.fields, "columns", Null); }
  }

  /** The signature of a readable scan in terms of its parts. */
  lemma {:induction false} SignatureParts(scan: seq<Field>, base: seq<Field>)
    requires MemberOr(scan, "baseConf", Obj([])) == Obj(base)
    ensures AbsFields(base) == PartMembers(AbsFields(scan), "baseConf")
    ensures Abs(MemberOr(base, "projection", Null)) == Part(AbsFields(base), "projection")
    ensures Abs(MemberOr(base, "constraints", Null)) == Part(AbsFields(base), "constraints")
    ensures Abs(MemberOr(scan, "predicate", Null)) == Part(AbsFields(scan), "predicate")
  {
    AbsMemberOr(scan, "baseConf", Obj([]));
    EmptyObject();
    AbsMemberOr(base, "projection", Null);
    AbsMemberOr(base, "constraints", Null);
    AbsMemberOr(scan, "predicate", Null);
  }

  /** A signature as a function of the four parts. */
  function Signed(columns: Value, projection: Value, constraints: Value, pred: Value): Value {
    VObj(map[
      "op" := VStr("parquetScan"),
      "baseConf" := VObj(map["schema.columns" := columns, "projection" := projection, "constraints" := constraints]),
      "predicate" := pred])
  }

  lemma {:induction false} SignedApart(c1: Value, p1: Value, k1: Value, q1: Value, c2: Value, p2: Value, k2: Value, q2: Value)
    ensures Signed(c1, p1, k1, q1) == Signed(c2, p2, k2, q2) <==> c1 == c2 && p1 == p2 && k1 == k2 && q1 == q2
  {
    var a, b := Signed(c1, p1, k1, q1).members, Signed(c2, p2, k2, q2).members;
    assert "op"[0] != "baseConf"[0] && "op"[0] != "predicate"[0] && "baseConf"[0] != "predicate"[0];
    assert "schema.columns"[0] != "projection"[0] && "schema.columns"[0] != "constraints"[0] && "projection"[0] != "constraints"[0];
    if Signed(c1, p1, k1, q1) == Signed(c2, p2, k2, q2) {
      assert a["predicate"] == b["predicate"] && a["baseConf"] == b["baseConf"];
      var x, y := a["baseConf"].members, b["baseConf"].members;
      assert x["schema.columns"] == y["schema.columns"] && x["projection"] == y["projection"] && x["constraints"] == y["constraints"];
    }
  }

  /** A scan is signed exactly when it is readable, by its four parts. */
  lemma {:induction false} SignatureOfScan(node: Json)
    requires Abs(node).VObj? && "parquetScan" in Abs(node).members
    ensures !ReadableScan(node) ==> Signature(node) == Err(AttributeMissing)
    ensures ReadableScan(node) ==>
              Signature(node) == Ok(Signed(ColumnsPart(node), Part(BasePart(node), "projection"),
                                           Part(BasePart(node), "constraints"), Part(ScanPart(node), "predicate")))
  {
    ScanNodeIs(node);
    var op := GetField(node.fields, "parquetScan");
    IsObject(op);
    if op.Obj? {
      var scan := op.fields;
      assert ScanPart(node) == AbsFields(scan);
      var baseConf := MemberOr(scan, "baseConf", Obj([]));
      AbsMemberOr(scan, "baseConf", Obj([]));
      EmptyObject();
      IsObject(baseConf);
      if baseConf.Obj? {
        SignatureParts(scan, baseConf.fields);
        ColumnsAre(baseConf.fields);
      }
    }
  }

  /**
    Two readable scans have the same signature if and only if their schema
    columns, projections, constraints and predicates are equal as JSON values.
   */
  lemma {:induction false} SameSignatureIff(a: Json, b: Json)
    requires ReadableScan(a) && ReadableScan(b)
    ensures Signature(a).Ok? && Signature(b).Ok?
    ensures Signature(a) == Signature(b) <==> SameScans(a, b)
  {
    SignatureOfScan(a);
    SignatureOfScan(b);
    SignedApart(ColumnsPart(a), Part(BasePart(a), "projection"), Part(BasePart(a), "constraints"), Part(ScanPart(a), "predicate"),
                ColumnsPart(b), Part(BasePart(b), "projection"), Part(BasePart(b), "constraints"), Part(ScanPart(b), "predicate"));
  }

  /** A node that is no scan is signed by itself. */
  lemma {:induction false} OtherSignature(node: Json)
    requires !(Abs(node).VObj? && "parquetScan" in Abs(node).members)
    ensures Signature(node) == Ok(Abs(node))
  {
    ScanNodeIs(node);
  }

  /** Members that depend on the data set, such as file groups and statistics, do not enter the signature. */
  lemma {:induction false} OtherMembersAreIgnored(a: Json, b: Json)
    requires ReadableScan(a) && ReadableScan(b)
    requires forall key | key in ScanPart(a).Keys + ScanPart(b).Keys && key != "baseConf" :: Part(ScanPart(a), key) == Part(ScanPart(b), key)
    requires forall key | key in {"schema", "projection", "constraints"} :: Part(BasePart(a), key) == Part(BasePart(b), key)
    ensures Signature(a).Ok? && Signature(a) == Signature(b)
  {
    SameSignatureIff(a, b);
    assert "predicate"[0] != "baseConf"[0];
    assert Part(BasePart(a), "schema") == Part(BasePart(b), "schema");
  }

  // ----- Tables -----

  /** An entry of a table: an id and a node. */
  function Item(id: int, node: Json): Json {
    Obj([Field("id", Int(id)), Field("node", node)])
  }

  function Items(ids: seq<int>, nodes: seq<Json>): seq<Json>
    requires |ids| == |nodes|
  {
    seq(|ids|, i requires 0 <= i < |ids| => Item(ids[i], nodes[i]))
  }

  lemma {:induction false} ItemIs(id: int, node: Json)
    ensures EntriesOf([Item(id, node)]) == [Entry(Int(id), node)]
  {
    var fs := Item(id, node).fields;
    assert "id"[0] != "node"[0];
    assert fs[0].key == "id" && fs[1].key == "node" && fs[1..] == [Field("node", node)];
    assert HasKey(fs, "id") && HasKey(fs, "node");
    assert [Item(id, node)][1..] == [];
  }

  lemma {:induction false} FirstEntry(item: Json, rest: seq<Json>)
    ensures EntriesOf([item] + rest) == EntriesOf([item]) + EntriesOf(rest)
  {
    assert ([item] + rest)[1..] == rest && [item][1..] == [];
    assert EntriesOf([]) == [];
  }

  lemma {:induction false} EntriesOfItems(ids: seq<int>, nodes: seq<Json>)
    requires |ids| == |nodes|
    ensures |EntriesOf(Items(ids, nodes))| == |ids|
    ensures forall i | 0 <= i < |ids| :: EntriesOf(Items(ids, nodes))[i] == Entry(Int(ids[i]), nodes[i])
  {
    if ids != [] {
      assert Items(ids, nodes) == [Item(ids[0], nodes[0])] + Items(ids[1..], nodes[1..]);
      FirstEntry(Item(ids[0], nodes[0]), Items(ids[1..], nodes[1..]));
      ItemIs(ids[0], nodes[0]);
      EntriesOfItems(ids[1..], nodes[1..]);
    }
  }

  ghost predicate Signs(sigs: Signatures, ids: seq<int>, nodes: seq<Json>)
    requires |ids| == |nodes|
  {
    && (forall id :: id in sigs <==> id in ids)
    && forall i | 0 <= i < |ids| && ids[i] !in ids[i + 1..] :: Signature(nodes[i]) == Ok(sigs[ids[i]])
  }

  lemma {:induction false} SignaturesOfEntries(ids: seq<int>, nodes: seq<Json>, entries: seq<Entry>, sigs: Signatures, n: nat)
    requires |ids| == |nodes| == |entries| && n <= |ids|
    requires forall i | 0 <= i < |ids| :: entries[i] == Entry(Int(ids[i]), nodes[i])
    requires forall i | 0 <= i < |ids| :: Signature(nodes[i]).Ok?
    requires Signs(sigs, ids[..n], nodes[..n])
    ensures SignaturesFrom(sigs, entries[n..]).Ok? && Signs(SignaturesFrom(sigs, entries[n..]).value, ids, nodes)
    decreases |ids| - n
  {
    if n == |ids| {
      assert ids[..n] == ids && nodes[..n] == nodes;
    } else {
      assert entries[n..][0] == entries[n] && entries[n..][1..] == entries[n + 1..];
      var next := sigs[ids[n] := Signature(nodes[n]).value];
      SignsNext(sigs, ids, nodes, n);
      SignaturesOfEntries(ids, nodes, entries, next, n + 1);
    }
  }

  lemma {:induction false} SignsNext(sigs: Signatures, ids: seq<int>, nodes: seq<Json>, n: nat)
    requires |ids| == |nodes| && n < |ids| && Signature(nodes[n]).Ok? && Signs(sigs, ids[..n], nodes[..n])
    ensures Signs(sigs[ids[n] := Signature(nodes[n]).value], ids[..n + 1], nodes[..n + 1])
  {
    var a, b := ids[..n], ids[..n + 1];
    assert b == a + [ids[n]];
    forall id ensures id in sigs[ids[n] := Signature(nodes[n]).value] <==> id in b {
      assert id in b <==> id in a || id == ids[n];
    }
    forall i | 0 <= i < |b| && b[i] !in b[i + 1..]
      ensures b[i] in b
      ensures Signature(nodes[..n + 1][i]) == Ok(sigs[ids[n] := Signature(nodes[n]).value][b[i]])
    {
      if i < n {
        assert b[i + 1..] == a[i + 1..] + [ids[n]];
      }
    }
  }

  /**
    The signature map of a table: exactly the ids of its entries, each with the
    signature of its last entry; wrapped in `entries` the same; none for a null
    table, and an error for any other document.
   */
  lemma {:induction false} TableSignatures(ids: seq<int>, nodes: seq<Json>)
    requires |ids| == |nodes| && forall i | 0 <= i < |ids| :: Signature(nodes[i]).Ok?
    ensures SignatureMap(Arr(Items(ids, nodes))).Ok? && Signs(SignatureMap(Arr(Items(ids, nodes))).value, ids, nodes)
    ensures SignatureMap(Obj([Field("entries", Arr(Items(ids, nodes)))])) == SignatureMap(Arr(Items(ids, nodes)))
  {
    var entries := EntriesOf(Items(ids, nodes));
    EntriesOfItems(ids, nodes);
    assert Signs(map[], [], []);
    assert ids[..0] == [] && nodes[..0] == [] && entries[0..] == entries;
    SignaturesOfEntries(ids, nodes, entries, map[], 0);
    assert [Field("entries", Arr(Items(ids, nodes)))][0].key == "entries";
  }

  lemma {:induction false} OtherTables(info: Json)
    ensures info.Null? ==> SignatureMap(info) == Ok(map[])
    ensures !info.Null? && !info.Arr? && !info.Obj? ==> SignatureMap(info) == Err(BadTableInfo)
    ensures info.Obj? && !(HasKey(info.fields, "entries") && GetField(info.fields, "entries").Arr?) ==> SignatureMap(info) == Err(BadTableInfo)
  {}

  lemma {:induction false} EntriesConcat(a: seq<Json>, b: seq<Json>)
    ensures EntriesOf(a + b) == EntriesOf(a) + EntriesOf(b)
  {
    if a == [] {
      assert a + b == b;
    } else {
      EntriesConcat(a[1..], b);
      assert a + b == [a[0]] + (a[1..] + b) && a == [a[0]] + a[1..];
      FirstEntry(a[0], a[1..] + b);
      FirstEntry(a[0], a[1..]);
    }
  }

  lemma {:induction false} SignaturesConcat(sigs: Signatures, a: seq<Entry>, b: seq<Entry>)
    requires SignaturesFrom(sigs, a).Ok?
    ensures SignaturesFrom(sigs, a + b) == SignaturesFrom(SignaturesFrom(sigs, a).value, b)
    decreases |a|
  {
    if a == [] {
      assert a + b == b;
    } else {
      assert (a + b)[0] == a[0] && (a + b)[1..] == a[1..] + b;
      SignaturesConcat(AddSignature(sigs, a[0]).value, a[1..], b);
    }
  }

  predicate IsEntry(item: Json) {
    item.Obj? && HasKey(item.fields, "id") && HasKey(item.fields, "node")
  }

  lemma {:induction false} OneEntry(item: Json)
    ensures EntriesOf([item]) == if IsEntry(item) then [Entry(GetField(item.fields, "id"), GetField(item.fields, "node"))] else []
  {
    assert [item][1..] == [];
  }

  lemma {:induction false} FailingEntry(sigs: Signatures, e: Entry, rest: seq<Entry>)
    ensures !e.id.Int? && !e.id.Bool? ==> SignaturesFrom(sigs, [e] + rest) == Err(BadTableInfo)
    ensures e.id.Int? && Signature(e.node).Err? ==> SignaturesFrom(sigs, [e] + rest) == Err(Signature(e.node).error)
  {}

  /**
    What decides after readable items: an item that is no dict with an id and a
    node is skipped, one whose id is no integer is an error of the table, and a
    scan that cannot be read is an error of this scan.
   */
  lemma {:induction false} NextItem(before: seq<Json>, item: Json, rest: seq<Json>)
    requires SignatureMap(Arr(before)).Ok?
    ensures !IsEntry(item) ==> SignatureMap(Arr(before + ([item] + rest))) == SignatureMap(Arr(before + rest))
    ensures IsEntry(item) && !GetField(item.fields, "id").Int? && !GetField(item.fields, "id").Bool? ==>
              SignatureMap(Arr(before + ([item] + rest))) == Err(BadTableInfo)
    ensures IsEntry(item) && GetField(item.fields, "id").Int? && Signature(GetField(item.fields, "node")).Err? ==>
              SignatureMap(Arr(before + ([item] + rest))) == Err(Signature(GetField(item.fields, "node")).error)
  {
    EntriesConcat(before, [item] + rest);
    EntriesConcat(before, rest);
    FirstEntry(item, rest);
    OneEntry(item);
    SignaturesConcat(map[], EntriesOf(before), EntriesOf([item]) + EntriesOf(rest));
    if IsEntry(item) {
      FailingEntry(SignatureMap(Arr(before)).value, EntriesOf([item])[0], EntriesOf(rest));
    } else {
      assert EntriesOf([item]) + EntriesOf(rest) == EntriesOf(rest);
    }
  }

  // ----- Pairing -----

  /** The scans of a table that have this signature and a smaller id. */
  function SmallerScans(sigs: Signatures, sig: Value, id: int): set<int> {
    set i | i in sigs && sigs[i] == sig && i < id
  }

  lemma {:induction false} SmallerScansAre(sigs: Signatures, sig: Value, id: int)
    ensures |SmallerScans(sigs, sig, id)| == CountBelow(IdsWith(sigs, sig), id)
  {
    assert SmallerScans(sigs, sig, id) == set y | y in IdsWith(sigs, sig) && y < id;
  }

  lemma {:induction false} IncreasingPositions(s: seq<int>, a: nat, b: nat)
    requires Increasing(s) && a < |s| && b < |s| && s[a] == s[b]
    ensures a == b
  {}

  /**
    The pairing: a source scan is sent to the target scan that has as many scans
    of its signature with smaller ids before it.
   */
  lemma {:induction false} PairedByRank(sf1: Signatures, sf2: Signatures, i: int)
    requires ScanMapping(sf1, sf2).Ok? && i in sf1
    ensures i in ScanMapping(sf1, sf2).value
    ensures
      var partner := ScanMapping(sf1, sf2).value[i];
      && partner in sf2 && sf2[partner] == sf1[i]
      && |SmallerScans(sf2, sf1[i], partner)| == |SmallerScans(sf1, sf1[i], i)|
  {
    var partner, targets := Partner(sf1, sf2, i), IdsWith(sf2, sf1[i]);
    HasRank(sf1, i);
    PartnerSignature(sf1, sf2, i);
    PositionOf(targets, partner);
    SmallerScansAre(sf1, sf1[i], i);
    SmallerScansAre(sf2, sf1[i], partner);
    IncreasingPositions(Sorted(targets), CountBelow(targets, partner), CountBelow(IdsWith(sf1, sf1[i]), i));
  }
}
