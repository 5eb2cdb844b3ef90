/**
  The succinct plan format of physical_plan.rs: a plan tree is numbered in visit
  order and written as one flat entry per node, and read back by a cycle check,
  a search for the root and a recursive rebuild.  The protobuf codec is the
  identity between a plan and its serialized JSON.
 */
module PlanCodec {
  import opened Basics
  import opened Decimal
  import opened Json
  import opened Graphs
  import opened Traversal
  import opened CycleCheck

  datatype CodecError =
    | InvalidNodeId | MissingTableId | CircularReference | NoRoot | NodeNotFound | UnsupportedChildren

  // ----- Plans -----

  /** Which child members the serialized form of an operator has. */
  datatype Shape = Leaf | Unary | Binary | Nary

  /**
    An operator with its inputs.  `ptr` is the address behind the `Arc`: two
    occurrences of one shared subplan have the same address.
   */
  datatype Plan = Plan(ptr: nat, name: string, config: seq<Field>, shape: Shape, children: seq<Plan>)

  const CHILD_KEYS: set<string> := {"input", "left", "right", "inputs"}

  /** An operator as the engine builds it: as many inputs as its shape has members for. */
  predicate ValidNode(p: Plan) {
    && (forall f | f in p.config :: f.key !in CHILD_KEYS)
    && (p.name == "parquetScan" ==> p.shape == Leaf)
    && match p.shape
       case Leaf => |p.children| == 0
       case Unary => |p.children| == 1
       case Binary => |p.children| == 2
       case Nary => true
  }

  predicate ValidPlan(p: Plan)
    decreases p
  {
    ValidNode(p) && forall i | 0 <= i < |p.children| :: ValidPlan(p.children[i])
  }

  /** The child ids of this node survive: its members are the ones its arity is written to. */
  predicate FitsArity(p: Plan) {
    p.shape == Nary ==> |p.children| == 0 || |p.children| >= 3
  }

  predicate AllFitArity(p: Plan)
    decreases p
  {
    FitsArity(p) && forall i | 0 <= i < |p.children| :: AllFitArity(p.children[i])
  }

  /** The plan as one nested JSON document. */
  function Serialize(p: Plan): Json
    requires ValidPlan(p)
    decreases p, 0
  {
    Obj([Field(p.name, Obj(p.config + ChildMembers(p)))])
  }

  function SerializeAll(ps: seq<Plan>): (r: seq<Json>)
    requires forall i | 0 <= i < |ps| :: ValidPlan(ps[i])
    ensures |r| == |ps| && forall i | 0 <= i < |ps| :: r[i] == Serialize(ps[i])
    decreases ps, 1
  {
    if ps == [] then [] else [Serialize(ps[0])] + SerializeAll(ps[1..])
  }

  function ChildMembers(p: Plan): seq<Field>
    requires ValidPlan(p)
    decreases p, 0, 0
  {
    match p.shape
    case Leaf => []
    case Unary => [Field("input", Serialize(p.children[0]))]
    case Binary => [Field("left", Serialize(p.children[0])), Field("right", Serialize(p.children[1]))]
    case Nary => [Field("inputs", Arr(SerializeAll(p.children)))]
  }

  // ----- Editing one serialized node -----

  /** The configuration object of a node's first operator, if there is one. */
  function Config(node: Json): Option<seq<Field>> {
    if node.Obj? && node.fields != [] && node.fields[0].value.Obj? then Some(node.fields[0].value.fields) else None
  }

  function WithConfig(node: Json, config: seq<Field>): Json
    requires Config(node).Some?
  {
    Obj([node.fields[0].(value := Obj(config))] + node.fields[1..])
  }

  /** Assign a member that is already present. */
  function Overwrite(config: seq<Field>, key: string, v: Json): seq<Field> {
    if HasKey(config, key) then SetField(config, key, v) else config
  }

  function ClearChildMembers(config: seq<Field>): seq<Field> {
    Overwrite(Overwrite(Overwrite(Overwrite(config, "input", Obj([])), "left", Obj([])), "right", Obj([])), "inputs", Arr([]))
  }

  /** `create_node_with_empty_children`. */
  function EmptyChildren(node: Json): Json {
    if Config(node).None? then node else WithConfig(node, ClearChildMembers(Config(node).value))
  }

  function IdList(ids: seq<int>): (r: seq<Json>)
    ensures |r| == |ids| && forall i | 0 <= i < |ids| :: r[i] == Int(ids[i])
  {
    if ids == [] then [] else [Int(ids[0])] + IdList(ids[1..])
  }

  function PopulateConfig(config: seq<Field>, ids: seq<int>): seq<Field> {
    if |ids| == 0 then config
    else if |ids| == 1 then Overwrite(config, "input", Int(ids[0]))
    else if |ids| == 2 then Overwrite(Overwrite(config, "left", Int(ids[0])), "right", Int(ids[1]))
    else Overwrite(config, "inputs", Arr(IdList(ids)))
  }

  /** `populate_child_ids`. */
  function PopulateChildIds(node: Json, ids: seq<int>): Json {
    if Config(node).None? then node else WithConfig(node, PopulateConfig(Config(node).value, ids))
  }

  const U64_LIMIT: nat := 0x1_0000_0000_0000_0000

  /** `as_u64`. */
  function AsU64(j: Json): seq<int> {
    if j.Int? && 0 <= j.i < U64_LIMIT then [j.i] else []
  }

  function AllU64(items: seq<Json>): seq<int> {
    if items == [] then [] else AsU64(items[0]) + AllU64(items[1..])
  }

  function MemberId(config: seq<Field>, key: string): seq<int> {
    if HasKey(config, key) then AsU64(GetField(config, key)) else []
  }

  function MemberIds(config: seq<Field>, key: string): seq<int> {
    if HasKey(config, key) && GetField(config, key).Arr? then AllU64(GetField(config, key).items) else []
  }

  /** `extract_child_ids`. */
  function ExtractChildIds(node: Json): seq<int> {
    match Config(node)
    case None => []
    case Some(config) =>
      MemberId(config, "input") + MemberId(config, "left") + MemberId(config, "right") + MemberIds(config, "inputs")
  }

  // ----- Flattening -----

  /** The nodes in the order in which the tree is visited; the position is the node id. */
  function Preorder(p: Plan): (r: seq<Plan>)
    ensures |r| > 0 && r[0] == p
    decreases p, 0
  {
    [p] + PreorderAll(p.children)
  }

  function PreorderAll(ps: seq<Plan>): seq<Plan>
    decreases ps, 1
  {
    if ps == [] then [] else Preorder(ps[0]) + PreorderAll(ps[1..])
  }

  /** The position of the first visited node at an address. */
  function FirstAt(visited: seq<Plan>, ptr: nat): (k: nat)
    requires exists q | q in visited :: q.ptr == ptr
    ensures k < |visited| && visited[k].ptr == ptr
    ensures forall i | 0 <= i < k :: visited[i].ptr != ptr
  {
    if visited[0].ptr == ptr then 0
    else
      var q :| q in visited && q.ptr == ptr;
      assert q in visited[1..];
      1 + FirstAt(visited[1..], ptr)
  }

  predicate Visited(visited: seq<Plan>, ps: seq<Plan>) {
    forall i | 0 <= i < |ps| :: ps[i] in visited
  }

  function ChildIds(visited: seq<Plan>, ps: seq<Plan>): (r: seq<int>)
    requires Visited(visited, ps)
    ensures |r| == |ps|
    ensures forall i | 0 <= i < |ps| :: 0 <= r[i] < |visited| && visited[r[i]].ptr == ps[i].ptr
  {
    if ps == [] then [] else [FirstAt(visited, ps[0].ptr)] + ChildIds(visited, ps[1..])
  }

  datatype Document = Document(structure: seq<Field>, fullTableInfo: seq<Json>)

  /** What the first two passes know about a node. */
  datatype NodeInfo = NodeInfo(id: nat, rawNode: Json, childIds: seq<int>, isParquetScan: bool)

  function StructureEntry(info: NodeInfo): Field {
    Field(ToDecimal(info.id), PopulateChildIds(info.rawNode, info.childIds))
  }

  function TableEntry(info: NodeInfo): Json {
    Obj([Field("id", Int(info.id)), Field("node", info.rawNode)])
  }

  /** Scans go to the table list, all other nodes to the structure. */
  function EmitNode(doc: Document, info: NodeInfo): Document {
    if info.isParquetScan then doc.(fullTableInfo := doc.fullTableInfo + [TableEntry(info)])
    else doc.(structure := doc.structure + [StructureEntry(info)])
  }

  /** The output for the first `n` nodes. */
  function Output(infos: seq<NodeInfo>, n: nat): Document
    requires n <= |infos|
  {
    if n == 0 then Document([], []) else EmitNode(Output(infos, n - 1), infos[n - 1])
  }

  predicate AllValid(visited: seq<Plan>) {
    forall i | 0 <= i < |visited| :: ValidPlan(visited[i])
  }

  predicate Closed(visited: seq<Plan>) {
    forall i | 0 <= i < |visited| :: Visited(visited, visited[i].children)
  }

  function InfoOf(p: Plan, id: nat, childIds: seq<int>): NodeInfo
    requires ValidPlan(p)
  {
    NodeInfo(id, EmptyChildren(Serialize(p)), childIds, p.name == "parquetScan")
  }

  function InfoAt(visited: seq<Plan>, i: nat): (info: NodeInfo)
    requires i < |visited| && AllValid(visited) && Closed(visited)
  {
    InfoOf(visited[i], i, ChildIds(visited, visited[i].children))
  }

  /** The information about the first `n` visited nodes. */
  function Infos(visited: seq<Plan>, n: nat): (r: seq<NodeInfo>)
    requires n <= |visited| && AllValid(visited) && Closed(visited)
    ensures |r| == n && forall i | 0 <= i < n :: r[i] == InfoAt(visited, i)
  {
    if n == 0 then [] else Infos(visited, n - 1) + [InfoAt(visited, n - 1)]
  }

  lemma {:induction false} PreorderNumbered(p: Plan, all: seq<Plan>)
    requires ValidPlan(p)
    requires forall q | q in Preorder(p) :: q in all
    ensures forall q | q in Preorder(p) :: ValidPlan(q) && Visited(all, q.children)
    decreases p, 0
  {
    var rest := PreorderAll(p.children);
    assert forall q | q in rest :: q in Preorder(p);
    PreorderAllNumbered(p.children, all);
  }

  lemma {:induction false} PreorderAllNumbered(ps: seq<Plan>, all: seq<Plan>)
    requires forall i | 0 <= i < |ps| :: ValidPlan(ps[i])
    requires forall q | q in PreorderAll(ps) :: q in all
    ensures Visited(all, ps)
    ensures forall q | q in PreorderAll(ps) :: ValidPlan(q) && Visited(all, q.children)
    decreases ps, 1
  {
    if ps != [] {
      assert forall q | q in Preorder(ps[0]) :: q in PreorderAll(ps);
      assert forall q | q in PreorderAll(ps[1..]) :: q in PreorderAll(ps);
      PreorderNumbered(ps[0], all);
      PreorderAllNumbered(ps[1..], all);
      assert Preorder(ps[0])[0] == ps[0];
    }
  }

  lemma {:induction false} VisitCloses(p: Plan)
    requires ValidPlan(p)
    ensures AllValid(Preorder(p)) && Closed(Preorder(p))
  {
    PreorderNumbered(p, Preorder(p));
  }

  function Flattened(p: Plan): Document
    requires ValidPlan(p)
  {
    VisitCloses(p);
    var infos := Infos(Preorder(p), |Preorder(p)|);
    Output(infos, |infos|)
  }

  /** The first two passes of `execution_plan_to_succinct_json`: serialize every node and look up its children by address. */
  method CollectNodes(visited: seq<Plan>) returns (infos: seq<NodeInfo>)
    requires AllValid(visited) && Closed(visited)
    ensures infos == Infos(visited, |visited|)
  {
    infos := [];
    var i := 0;
    while i < |visited|
      invariant 0 <= i <= |visited|
      invariant infos == Infos(visited, i)
    {
      infos := infos + [InfoAt(visited, i)];
      i := i + 1;
    }
  }

  /** The third pass. */
  method Emit(infos: seq<NodeInfo>) returns (doc: Document)
    ensures doc == Output(infos, |infos|)
  {
    doc := Document([], []);
    var i := 0;
    while i < |infos|
      invariant 0 <= i <= |infos|
      invariant doc == Output(infos, i)
    {
      doc := EmitNode(doc, infos[i]);
      i := i + 1;
    }
  }

  /** `execution_plan_to_succinct_json`. */
  method Flatten(p: Plan) returns (doc: Document)
    requires ValidPlan(p)
    ensures doc == Flattened(p)
  {
    VisitCloses(p);
    var infos := CollectNodes(Preorder(p));
    doc := Emit(infos);
  }

  // ----- Rebuilding -----

  datatype ParsedNode = ParsedNode(id: int, nodeData: Json, childIds: seq<int>, isParquetScan: bool)

  type NodeMap = map<int, ParsedNode>

  function ParseStructure(fs: seq<Field>): Result<seq<ParsedNode>, CodecError> {
    if fs == [] then Ok([])
    else if !IsDigits(fs[0].key) || ParseNat(fs[0].key) >= U64_LIMIT then Err(InvalidNodeId)
    else
      var rest :- ParseStructure(fs[1..]);
      Ok([ParsedNode(ParseNat(fs[0].key), fs[0].value, ExtractChildIds(fs[0].value), false)] + rest)
  }

  /** `node[key]`: null when absent. */
  function MemberOrNull(j: Json, key: string): Json {
    if j.Obj? && HasKey(j.fields, key) then GetField(j.fields, key) else Null
  }

  function ParseTables(entries: seq<Json>): Result<seq<ParsedNode>, CodecError> {
    if entries == [] then Ok([])
    else
      var id := AsU64(MemberOrNull(entries[0], "id"));
      if id == [] then Err(MissingTableId)
      else
        var rest :- ParseTables(entries[1..]);
        Ok([ParsedNode(id[0], MemberOrNull(entries[0], "node"), [], true)] + rest)
  }

  function ParseNodes(doc: Document): Result<seq<ParsedNode>, CodecError> {
    var internal :- ParseStructure(doc.structure);
    var scans :- ParseTables(doc.fullTableInfo);
    Ok(internal + scans)
  }

  /** Collecting into a hash map: a later node with the same id wins. */
  function ById(nodes: seq<ParsedNode>): (m: NodeMap)
    ensures forall i | 0 <= i < |nodes| :: nodes[i].id in m
    ensures forall id | id in m :: m[id].id == id && m[id] in nodes
  {
    if nodes == [] then map[]
    else
      var last := nodes[|nodes| - 1];
      var m := ById(nodes[..|nodes| - 1]);
      assert forall i | 0 <= i < |nodes| - 1 :: nodes[i] == nodes[..|nodes| - 1][i];
      m[last.id := last]
  }

  function ChildMap(m: NodeMap): Graph {
    map id | id in m :: m[id].childIds
  }

  function Ids(nodes: seq<ParsedNode>): (r: seq<int>)
    ensures |r| == |nodes| && forall i | 0 <= i < |nodes| :: r[i] == nodes[i].id
  {
    if nodes == [] then [] else [nodes[0].id] + Ids(nodes[1..])
  }

  function Position(order: seq<int>, id: int): (k: nat)
    requires id in order
    ensures k < |order| && order[k] == id && id !in order[..k]
  {
    if order[0] == id then 0 else 1 + Position(order[1..], id)
  }

  /** A graph whose nodes come after their children in `order`, with all ids in it. */
  ghost predicate Ranked(m: NodeMap, order: seq<int>) {
    ChildrenFirst(ChildMap(m), order) && Covers(ChildMap(m), order)
  }

  lemma {:induction false} ChildRanksLower(m: NodeMap, order: seq<int>, id: int, c: int)
    requires Ranked(m, order) && id in m && c in m[id].childIds
    ensures id in order && c in order && Position(order, c) < Position(order, id)
  {
    var k := Position(order, id);
    assert Edge(ChildMap(m), order[k], c);
    assert c in order[..k];
    var j :| 0 <= j < k && order[j] == c;
  }

  /** Put the rebuilt children back into the members that the child count selects. */
  function RestoreChildren(node: Json, children: seq<Json>): Result<Json, CodecError> {
    if Config(node).None? then Ok(node)
    else
      var config := Config(node).value;
      if |children| == 1 then Ok(WithConfig(node, SetField(config, "input", children[0])))
      else if |children| == 2 then
        Ok(WithConfig(node, SetField(SetField(config, "left", children[0]), "right", children[1])))
      else if HasKey(config, "inputs") then Ok(WithConfig(node, SetField(config, "inputs", Arr(children))))
      else Err(UnsupportedChildren)
  }

  /** `build_execution_plan_tree`. */
  function Build(m: NodeMap, ghost order: seq<int>, id: int): Result<Json, CodecError>
    requires Ranked(m, order)
    decreases if id in order then Position(order, id) + 1 else 0, 0
  {
    if id !in m then Err(NodeNotFound)
    else if m[id].isParquetScan || m[id].childIds == [] then Ok(m[id].nodeData)
    else
      var children :- BuildAll(m, order, id, m[id].childIds);
      RestoreChildren(m[id].nodeData, children)
  }

  function BuildAll(m: NodeMap, ghost order: seq<int>, ghost parent: int, ids: seq<int>): (r: Result<seq<Json>, CodecError>)
    requires Ranked(m, order) && parent in m && parent in order
    requires forall c | c in ids :: c in m[parent].childIds
    ensures r.Ok? ==> |r.value| == |ids|
    decreases Position(order, parent), 1 + |ids|
  {
    if ids == [] then Ok([])
    else
      ChildRanksLower(m, order, parent, ids[0]);
      var first :- Build(m, order, ids[0]);
      var rest :- BuildAll(m, order, parent, ids[1..]);
      Ok([first] + rest)
  }

  function AllChildren(m: NodeMap): set<int> {
    set id, c | id in m && c in m[id].childIds :: c
  }

  /** The first parsed node that is nobody's child. */
  function FindRoot(nodes: seq<ParsedNode>, children: set<int>): Option<int> {
    if nodes == [] then None
    else if nodes[0].id !in children then Some(nodes[0].id)
    else FindRoot(nodes[1..], children)
  }

  /** The traversal order of the parsed nodes, which serves as the rank of the rebuild. */
  ghost function RebuildOrder(nodes: seq<ParsedNode>): (order: seq<int>)
    requires !HasCycle(ChildMap(ById(nodes)))
    ensures Ranked(ById(nodes), order)
  {
    var m := ById(nodes);
    var g := ChildMap(m);
    var starts := Ids(nodes);
    IdsAreKeys(nodes);
    ChildrenFirstIffAcyclic(g, starts);
    PostOrderIsPermutation(g, starts);
    assert forall n | n in g :: n in Elements(PostOrder(g, starts));
    PostOrder(g, starts)
  }

  lemma {:induction false} IdsAreKeys(nodes: seq<ParsedNode>)
    ensures Elements(Ids(nodes)) == ChildMap(ById(nodes)).Keys
  {
    var m := ById(nodes);
    forall id | id in m ensures id in Elements(Ids(nodes)) {
      var i :| 0 <= i < |nodes| && nodes[i] == m[id];
      assert Ids(nodes)[i] == id;
    }
  }

  /** What reading a succinct plan returns. */
  ghost function Rebuilt(doc: Document): Result<Json, CodecError> {
    match ParseNodes(doc)
    case Err(e) => Err(e)
    case Ok(nodes) =>
      var m := ById(nodes);
      if HasCycle(ChildMap(m)) then Err(CircularReference)
      else match FindRoot(nodes, AllChildren(m))
           case None => Err(NoRoot)
           case Some(root) => Build(m, RebuildOrder(nodes), root)
  }

  /** `execution_plan_from_succinct_json`. */
  method Rebuild(doc: Document) returns (r: Result<Json, CodecError>)
    ensures r == Rebuilt(doc)
  {
    var nodes :- ParseNodes(doc);
    var m := ById(nodes);
    IdsAreKeys(nodes);
    var acyclic := ValidateExecutionPlanGraph(ChildMap(m), Ids(nodes));
    if !acyclic {
      return Err(CircularReference);
    }
    var root := FindRoot(nodes, AllChildren(m));
    if root.None? {
      return Err(NoRoot);
    }
    r := Build(m, RebuildOrder(nodes), root.value);
  }
}
