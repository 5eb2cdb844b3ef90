/**
  The plan graph of src/sampling/plan_scaler.py: a dict from node ids to
  single-operator nodes, whose configurations refer to other nodes by id.
 */
module PlanStructure {
  import opened Decimal
  import opened Json
  import opened Graphs
  import opened Traversal
  import opened Sorting

  /** The stages at which a transfer can raise. */
  datatype TransferError =
    | PatchFailed | InvalidStructure | BadTableInfo | AttributeMissing | ScanUnmatched
    | RebindFailed | RewriteFailed | DanglingRefs | UnresolvedLeafRefs

  // ----- References -----

  predicate IsScalarKey(key: string) {
    key == "input" || key == "left" || key == "right"
  }

  predicate IsListKey(key: string) {
    key == "inputs" || key == "children"
  }

  /** `_is_intish`; a Python bool is an int. */
  predicate Intish(j: Json) {
    j.Int? || j.Bool? || (j.Str? && IsDigits(j.s))
  }

  /** `_to_int`. */
  function ToInt(j: Json): int
    requires Intish(j)
  {
    match j
    case Int(i) => i
    case Bool(b) => if b then 1 else 0
    case Str(s) => ParseNat(s)
  }

  predicate AllIntish(items: seq<Json>) {
    forall i | 0 <= i < |items| :: Intish(items[i])
  }

  function ToInts(items: seq<Json>): (r: seq<int>)
    requires AllIntish(items)
    ensures |r| == |items| && forall i | 0 <= i < |items| :: r[i] == ToInt(items[i])
  {
    seq(|items|, i requires 0 <= i < |items| => ToInt(items[i]))
  }

  predicate IsScalarRef(f: Field) {
    IsScalarKey(f.key) && Intish(f.value)
  }

  predicate IsListRef(f: Field) {
    IsListKey(f.key) && f.value.Arr? && AllIntish(f.value.items)
  }

  /** Every id that the `walk` functions of the finders and validators meet in a document. */
  function Refs(j: Json): set<int>
    decreases j
  {
    match j
    case Obj(fields) => set i, x | 0 <= i < |fields| && x in FieldRefs(fields[i]) :: x
    case Arr(items) => set i, x | 0 <= i < |items| && x in Refs(items[i]) :: x
    case _ => {}
  }

  function FieldRefs(f: Field): set<int>
    decreases f
  {
    if IsScalarRef(f) then {ToInt(f.value)}
    else if IsListRef(f) then Elements(ToInts(f.value.items))
    else Refs(f.value)
  }

  // ----- Structures -----

  /** `_validate_structure_dict`: digit keys, each with a dict of one operator. */
  predicate ValidNode(f: Field) {
    IsDigits(f.key) && f.value.Obj? && |f.value.fields| == 1
  }

  predicate ValidStructure(j: Json) {
    j.Obj? && forall i | 0 <= i < |j.fields| :: ValidNode(j.fields[i])
  }

  /** The nodes by integer id; the last of two keys that denote the same number wins. */
  function NodesById(plan: seq<Field>): map<int, Json> {
    if plan == [] then map[]
    else
      var last := plan[|plan| - 1];
      var m := NodesById(plan[..|plan| - 1]);
      if IsDigits(last.key) then m[ParseNat(last.key) := last.value] else m
  }

  lemma {:induction false} NodeIsStored(plan: seq<Field>, i: nat)
    requires i < |plan| && IsDigits(plan[i].key)
    ensures ParseNat(plan[i].key) in NodesById(plan)
  {
    if i < |plan| - 1 {
      NodeIsStored(plan[..|plan| - 1], i);
    }
  }

  /** Where a stored node comes from. */
  lemma {:induction false} PositionOfNode(plan: seq<Field>, id: int) returns (i: nat)
    requires id in NodesById(plan)
    ensures i < |plan| && IsDigits(plan[i].key) && ParseNat(plan[i].key) == id && NodesById(plan)[id] == plan[i].value
  {
    var last := plan[|plan| - 1];
    if IsDigits(last.key) && ParseNat(last.key) == id {
      i := |plan| - 1;
    } else {
      i := PositionOfNode(plan[..|plan| - 1], id);
    }
  }

  function NodeIds(plan: seq<Field>): set<int> {
    NodesById(plan).Keys
  }

  /** `_find_internal_references`, before it keeps only the internal ids. */
  function PlanRefs(plan: seq<Field>): set<int> {
    set i, x | 0 <= i < |plan| && x in Refs(plan[i].value) :: x
  }

  // ----- The traversal -----

  /** The references directly in an operator's configuration, in dict order. */
  function DirectRefs(fs: seq<Field>): seq<int> {
    if fs == [] then []
    else (if IsScalarRef(fs[0]) then [ToInt(fs[0].value)]
          else if IsListRef(fs[0]) then ToInts(fs[0].value.items)
          else []) + DirectRefs(fs[1..])
  }

  function Keep(ids: seq<int>, among: set<int>): (r: seq<int>)
    ensures forall x :: x in r <==> x in ids && x in among
  {
    if ids == [] then [] else (if ids[0] in among then [ids[0]] else []) + Keep(ids[1..], among)
  }

  /** `children_of`. */
  function ChildrenOf(node: Json, among: set<int>): (r: seq<int>)
    ensures forall x | x in r :: x in among
  {
    if node.Obj? && |node.fields| == 1 && node.fields[0].value.Obj? then
      Keep(DirectRefs(node.fields[0].value.fields), among)
    else []
  }

  function ChildGraph(plan: seq<Field>): (g: Graph)
    ensures g.Keys == NodeIds(plan) == Universe(g)
  {
    var nodes := NodesById(plan);
    var g := map id | id in nodes :: ChildrenOf(nodes[id], nodes.Keys);
    assert Universe(g) == nodes.Keys;
    g
  }

  /** `_find_roots`: the unreferenced ids, or the first id when all are referenced. */
  function FindRoots(plan: seq<Field>): (r: seq<int>)
    ensures forall x | x in r :: x in NodeIds(plan)
  {
    var ids, refs := NodeIds(plan), PlanRefs(plan);
    var roots := set id | id in ids && id !in refs;
    if roots != {} then Sorted(roots) else if ids != {} then Sorted(ids)[..1] else []
  }

  function Starts(plan: seq<Field>): (r: seq<int>)
    ensures forall n | n in r :: n in Universe(ChildGraph(plan))
    ensures NodeIds(plan) <= Elements(r)
  {
    FindRoots(plan) + Sorted(NodeIds(plan))
  }

  /** `_topo_order_from_roots`. */
  function TopoOrder(plan: seq<Field>): seq<int> {
    PostOrder(ChildGraph(plan), Starts(plan))
  }

  /** `_topo_order_from_roots`: start from the roots, then from every id. */
  method TopoOrderFromRoots(plan: seq<Field>) returns (order: seq<int>)
    ensures order == TopoOrder(plan)
  {
    var walk := new DepthFirst();
    walk.DfsEach(ChildGraph(plan), Starts(plan));
    order := walk.order;
  }

  /** The traversal lists every node id exactly once. */
  lemma {:induction false} TopoOrderIsPermutation(plan: seq<Field>)
    ensures Distinct(TopoOrder(plan)) && Elements(TopoOrder(plan)) == NodeIds(plan)
  {
    PostOrderIsPermutation(ChildGraph(plan), Starts(plan));
  }

  /** The traversal puts children first exactly when the direct references of the plan form no cycle. */
  lemma {:induction false} TopoOrderIffAcyclic(plan: seq<Field>)
    ensures ChildrenFirst(ChildGraph(plan), TopoOrder(plan)) <==> !HasCycle(ChildGraph(plan))
  {
    ChildrenFirstIffAcyclic(ChildGraph(plan), Starts(plan));
  }
}
