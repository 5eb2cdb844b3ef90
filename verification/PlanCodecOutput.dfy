/** What a flattened plan holds and where, in terms of the plan. */
module PlanCodecOutput {
  import opened Basics
  import opened Decimal
  import opened Json
  import opened PlanCodec
  import opened PlanCodecRoundTrip

  /** The positions below `n` of the scans, or of all other operators, in visit order. */
  function Positions(visited: seq<Plan>, n: nat, scans: bool): (r: seq<nat>)
    requires n <= |visited|
    ensures forall k :: k in r <==> 0 <= k < n && (visited[k].name == "parquetScan" <==> scans)
    ensures forall i, j | 0 <= i < j < |r| :: r[i] < r[j]
  {
    if n == 0 then []
    else
      var init := Positions(visited, n - 1, scans);
      assert forall i | 0 <= i < |init| :: init[i] in init;
      init + if visited[n - 1].name == "parquetScan" <==> scans then [n - 1] else []
  }

  /** The table entry of a scan: its position and the operator, which has no inputs. */
  function ScanEntry(q: Plan, k: nat): Json {
    Obj([Field("id", Int(k)), Field("node", Obj([Field("parquetScan", Obj(q.config))]))])
  }

  /** The structure member of any other operator: its position in decimal, and the operator with the ids of its inputs. */
  function NodeMember(visited: seq<Plan>, k: nat): Field
    requires k < |visited| && AllValid(visited) && Closed(visited)
  {
    Field(ToDecimal(k), NodeWith(visited[k], NumberedMembers(visited[k], ChildIds(visited, visited[k].children))))
  }

  ghost predicate ListsScans(visited: seq<Plan>, scans: seq<nat>, tables: seq<Json>) {
    |tables| == |scans| && forall j | 0 <= j < |scans| :: scans[j] < |visited| && tables[j] == ScanEntry(visited[scans[j]], scans[j])
  }

  ghost predicate ListsNodes(visited: seq<Plan>, others: seq<nat>, structure: seq<Field>)
    requires AllValid(visited) && Closed(visited)
  {
    |structure| == |others| && forall j | 0 <= j < |others| :: others[j] < |visited| && structure[j] == NodeMember(visited, others[j])
  }

  /** The scans among the first `n` nodes are listed in the tables, all other nodes in the structure, in visit order. */
  ghost predicate Holds(visited: seq<Plan>, n: nat, doc: Document)
    requires n <= |visited| && AllValid(visited) && Closed(visited)
  {
    && ListsScans(visited, Positions(visited, n, true), doc.fullTableInfo)
    && ListsNodes(visited, Positions(visited, n, false), doc.structure)
  }

  lemma {:induction false} EntryIs(visited: seq<Plan>, k: nat)
    requires k < |visited| && AllValid(visited) && Closed(visited)
    ensures
      var info := InfoAt(visited, k);
      && (info.isParquetScan <==> visited[k].name == "parquetScan")
      && (visited[k].name == "parquetScan" ==> TableEntry(info) == ScanEntry(visited[k], k))
      && StructureEntry(info) == NodeMember(visited, k)
  {
    var q := visited[k];
    EmptiedIs(q);
    PopulatedIs(q, ChildIds(visited, q.children));
    if q.name == "parquetScan" {
      assert q.config + [] == q.config;
    }
  }

  lemma {:induction false} OneMoreScan(visited: seq<Plan>, scans: seq<nat>, tables: seq<Json>, k: nat)
    requires ListsScans(visited, scans, tables) && k < |visited|
    ensures ListsScans(visited, scans + [k], tables + [ScanEntry(visited[k], k)])
  {}

  lemma {:induction false} OneMoreNode(visited: seq<Plan>, others: seq<nat>, structure: seq<Field>, k: nat)
    requires AllValid(visited) && Closed(visited) && ListsNodes(visited, others, structure) && k < |visited|
    ensures ListsNodes(visited, others + [k], structure + [NodeMember(visited, k)])
  {}

  lemma {:induction false} PositionsNext(visited: seq<Plan>, n: nat, scans: bool)
    requires n < |visited|
    ensures Positions(visited, n + 1, scans) ==
            Positions(visited, n, scans) + if visited[n].name == "parquetScan" <==> scans then [n] else []
  {}

  /** The document with the node at position `k` as well. */
  function WithNode(visited: seq<Plan>, k: nat, doc: Document): Document
    requires k < |visited| && AllValid(visited) && Closed(visited)
  {
    if visited[k].name == "parquetScan" then Document(doc.structure, doc.fullTableInfo + [ScanEntry(visited[k], k)])
    else Document(doc.structure + [NodeMember(visited, k)], doc.fullTableInfo)
  }

  lemma {:induction false} HoldsNext(visited: seq<Plan>, k: nat, doc: Document)
    requires k < |visited| && AllValid(visited) && Closed(visited) && Holds(visited, k, doc)
    ensures Holds(visited, k + 1, WithNode(visited, k, doc))
  {
    PositionsNext(visited, k, true);
    PositionsNext(visited, k, false);
    var scans, others := Positions(visited, k, true), Positions(visited, k, false);
    if visited[k].name == "parquetScan" {
      OneMoreScan(visited, scans, doc.fullTableInfo, k);
      assert others + [] == others;
    } else {
      OneMoreNode(visited, others, doc.structure, k);
      assert scans + [] == scans;
    }
  }

  lemma {:induction false} OutputHolds(visited: seq<Plan>, n: nat)
    requires n <= |visited| && AllValid(visited) && Closed(visited)
    ensures Holds(visited, n, Output(Infos(visited, |visited|), n))
  {
    if n > 0 {
      var k := n - 1;
      var doc := Output(Infos(visited, |visited|), k);
      OutputHolds(visited, k);
      EntryIs(visited, k);
      HoldsNext(visited, k, doc);
    }
  }

  /**
    The flattened document of a plan: the table list holds exactly the scans, and
    the structure exactly the other operators, each under its position in visit
    order, with its configuration and the ids of its inputs, both in this order.
   */
  lemma {:induction false} FlattenedHolds(p: Plan)
    requires ValidPlan(p)
    ensures AllValid(Preorder(p)) && Closed(Preorder(p)) && Holds(Preorder(p), |Preorder(p)|, Flattened(p))
  {
    VisitCloses(p);
    OutputHolds(Preorder(p), |Preorder(p)|);
  }

  predicate HasTableId(tables: seq<Json>, k: nat) {
    exists j :: 0 <= j < |tables| && MemberOrNull(tables[j], "id") == Int(k)
  }

  lemma {:induction false} EntryId(q: Plan, k: nat)
    ensures MemberOrNull(ScanEntry(q, k), "id") == Int(k)
  {
    assert ScanEntry(q, k).fields[0].key == "id";
  }

  lemma {:induction false} TableIds(visited: seq<Plan>, scans: seq<nat>, tables: seq<Json>, k: nat)
    requires ListsScans(visited, scans, tables)
    ensures HasTableId(tables, k) <==> k in scans
  {
    forall j | 0 <= j < |tables| ensures MemberOrNull(tables[j], "id") == Int(scans[j]) {
      EntryId(visited[scans[j]], scans[j]);
    }
    if k in scans {
      var j :| 0 <= j < |scans| && scans[j] == k;
      assert MemberOrNull(tables[j], "id") == Int(k);
    }
  }

  lemma {:induction false} StructureKeys(visited: seq<Plan>, others: seq<nat>, structure: seq<Field>, k: nat)
    requires AllValid(visited) && Closed(visited) && ListsNodes(visited, others, structure)
    ensures HasKey(structure, ToDecimal(k)) <==> k in others
  {
    if k in others {
      var j :| 0 <= j < |others| && others[j] == k;
      assert structure[j].key == ToDecimal(k);
    }
    if HasKey(structure, ToDecimal(k)) {
      var j :| 0 <= j < |structure| && structure[j].key == ToDecimal(k);
      ParsePrinted(others[j]);
      ParsePrinted(k);
    }
  }

  /** So the operator at position `k` is in one of the two lists, and its name decides in which. */
  lemma {:induction false} FlattenedPlaces(p: Plan, k: nat)
    requires ValidPlan(p) && k < |Preorder(p)|
    ensures HasTableId(Flattened(p).fullTableInfo, k) <==> Preorder(p)[k].name == "parquetScan"
    ensures HasKey(Flattened(p).structure, ToDecimal(k)) <==> Preorder(p)[k].name != "parquetScan"
  {
    var visited, doc := Preorder(p), Flattened(p);
    FlattenedHolds(p);
    TableIds(visited, Positions(visited, |visited|, true), doc.fullTableInfo, k);
    StructureKeys(visited, Positions(visited, |visited|, false), doc.structure, k);
  }

  /** Node ids are 64-bit numbers: the greatest is read back, the next one is refused. */
  lemma {:induction false} IdsAre64Bit(node: Json, id: nat)
    ensures ParseStructure([Field(ToDecimal(id), node)]).Ok? <==> id <= 0xFFFF_FFFF_FFFF_FFFF
    ensures AsU64(Int(id)) == if id <= 0xFFFF_FFFF_FFFF_FFFF then [id] else []
  {
    ParsePrinted(id);
    assert [Field(ToDecimal(id), node)][1..] == [];
    assert ParseStructure([]) == Ok([]);
  }

  // ----- The visit order -----

  /** The number of nodes that a visit of the plan meets. */
  function Size(p: Plan): nat
    decreases p, 0
  {
    1 + SizeOfAll(p.children)
  }

  function SizeOfAll(ps: seq<Plan>): nat
    decreases ps, 1
  {
    if ps == [] then 0 else Size(ps[0]) + SizeOfAll(ps[1..])
  }

  lemma {:induction false} VisitSize(p: Plan)
    ensures |Preorder(p)| == Size(p)
    decreases p, 0
  {
    VisitSizeOfAll(p.children);
  }

  lemma {:induction false} VisitSizeOfAll(ps: seq<Plan>)
    ensures |PreorderAll(ps)| == SizeOfAll(ps)
    decreases ps, 1
  {
    if ps != [] {
      VisitSize(ps[0]);
      VisitSizeOfAll(ps[1..]);
    }
  }

  /** A node is met before its inputs, and these one after the other, each with everything below it. */
  lemma {:induction false} VisitOrder(p: Plan, i: nat)
    requires i < |p.children|
    ensures Preorder(p)[0] == p
    ensures
      var start := 1 + SizeOfAll(p.children[..i]);
      start + Size(p.children[i]) <= |Preorder(p)| && Preorder(p)[start..start + Size(p.children[i])] == Preorder(p.children[i])
  {
    VisitOrderOfAll(p.children, i);
    var rest := PreorderAll(p.children);
    var start, size := SizeOfAll(p.children[..i]), Size(p.children[i]);
    assert Preorder(p) == [p] + rest;
    assert ([p] + rest)[1 + start..1 + start + size] == rest[start..start + size];
  }

  lemma {:induction false} VisitOrderOfAll(ps: seq<Plan>, i: nat)
    requires i < |ps|
    ensures
      var start := SizeOfAll(ps[..i]);
      start + Size(ps[i]) <= |PreorderAll(ps)| && PreorderAll(ps)[start..start + Size(ps[i])] == Preorder(ps[i])
    decreases i
  {
    VisitSize(ps[0]);
    var head, rest := Preorder(ps[0]), PreorderAll(ps[1..]);
    if i == 0 {
      assert ps[..0] == [] && (head + rest)[..|head|] == head;
    } else {
      VisitOrderOfAll(ps[1..], i - 1);
      SizeBefore(ps, i);
      SliceAfter(head, rest, SizeOfAll(ps[1..][..i - 1]), Size(ps[i]));
    }
  }

  lemma {:induction false} SizeBefore(ps: seq<Plan>, i: nat)
    requires 0 < i <= |ps|
    ensures SizeOfAll(ps[..i]) == Size(ps[0]) + SizeOfAll(ps[1..][..i - 1])
  {
    assert ps[..i][0] == ps[0] && ps[..i][1..] == ps[1..][..i - 1];
  }

  lemma {:induction false} SliceAfter<T>(a: seq<T>, b: seq<T>, start: nat, size: nat)
    requires start + size <= |b|
    ensures (a + b)[|a| + start..|a| + start + size] == b[start..start + size]
  {}
}
