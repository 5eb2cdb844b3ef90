/** Reading back a flattened plan, and the errors that an acyclic document cannot cause. */
module PlanCodecRoundTrip {
  import opened Basics
  import opened Decimal
  import opened Json
  import opened Graphs
  import opened PlanCodec

  // ----- The root of an acyclic document -----

  lemma {:induction false} FindRootFinds(nodes: seq<ParsedNode>, children: set<int>, i: nat)
    requires i < |nodes| && nodes[i].id !in children
    ensures FindRoot(nodes, children).Some?
  {
    if nodes[0].id in children {
      FindRootFinds(nodes[1..], children, i - 1);
    }
  }

  lemma {:induction false} KeyIsOrdered(m: NodeMap, order: seq<int>, id: int)
    requires Ranked(m, order) && id in m
    ensures exists i | 0 <= i < |order| :: order[i] == id
  {
    assert id in ChildMap(m);
    assert id in order;
  }

  /** In a children-first order, the last node with an entry is nobody's child. */
  lemma {:induction false} LastKeyIsRoot(m: NodeMap, order: seq<int>, k: nat) returns (root: int)
    requires Ranked(m, order) && k <= |order|
    requires forall i | k <= i < |order| :: order[i] !in m
    requires exists id :: id in m
    ensures root in m && root !in AllChildren(m)
  {
    if k == 0 {
      var id :| id in m;
      KeyIsOrdered(m, order, id);
      assert false;
    } else if order[k - 1] in m {
      root := order[k - 1];
      if root in AllChildren(m) {
        var parent :| parent in m && root in m[parent].childIds;
        ChildRanksLower(m, order, parent, root);
        assert false;
      }
    } else {
      root := LastKeyIsRoot(m, order, k - 1);
    }
  }

  /** "Could not find root node" is reported for the empty document only. */
  lemma {:induction false} NoRootOnlyWhenEmpty(doc: Document)
    requires ParseNodes(doc).Ok? && !HasCycle(ChildMap(ById(ParseNodes(doc).value)))
    ensures FindRoot(ParseNodes(doc).value, AllChildren(ById(ParseNodes(doc).value))).None?
            <==> ParseNodes(doc).value == []
  {
    var nodes := ParseNodes(doc).value;
    var m := ById(nodes);
    if nodes != [] {
      var order := RebuildOrder(nodes);
      assert nodes[0].id in m;
      var root := LastKeyIsRoot(m, order, |order|);
      var i :| 0 <= i < |nodes| && nodes[i] == m[root];
      FindRootFinds(nodes, AllChildren(m), i);
    }
  }

  // ----- The members of one node -----

  lemma {:induction false} MembersAfter(config: seq<Field>, members: seq<Field>, key: string)
    requires forall f | f in config :: f.key != key
    ensures HasKey(config + members, key) <==> HasKey(members, key)
    ensures HasKey(members, key) ==> GetField(config + members, key) == GetField(members, key)
    ensures forall v :: SetField(config + members, key, v) == config + SetField(members, key, v)
  {
    if config == [] {
      assert config + members == members;
      assert forall v :: config + SetField(members, key, v) == SetField(members, key, v);
    } else {
      var all := config + members;
      assert all[1..] == config[1..] + members && all[0] == config[0];
      assert config[0] in config && forall f | f in config[1..] :: f in config;
      MembersAfter(config[1..], members, key);
      HasKeySplit(all);
      forall v ensures SetField(all, key, v) == config + SetField(members, key, v) {
        assert SetField(all, key, v) == [all[0]] + SetField(all[1..], key, v);
      }
    }
  }

  /** The cleared members of an operator. */
  function ClearedMembers(p: Plan): seq<Field> {
    match p.shape
    case Leaf => []
    case Unary => [Field("input", Obj([]))]
    case Binary => [Field("left", Obj([])), Field("right", Obj([]))]
    case Nary => [Field("inputs", Arr([]))]
  }

  /** The members after the ids of the children were written. */
  function NumberedMembers(p: Plan, ids: seq<int>): seq<Field>
    requires ValidPlan(p) && |ids| == |p.children|
  {
    match p.shape
    case Leaf => []
    case Unary => [Field("input", Int(ids[0]))]
    case Binary => [Field("left", Int(ids[0])), Field("right", Int(ids[1]))]
    case Nary => [Field("inputs", Arr(if |ids| < 3 then [] else IdList(ids)))]
  }

  /** The members holding rebuilt children. */
  function RestoredMembers(p: Plan, children: seq<Json>): seq<Field>
    requires ValidPlan(p) && |children| == |p.children|
  {
    match p.shape
    case Leaf => []
    case Unary => [Field("input", children[0])]
    case Binary => [Field("left", children[0]), Field("right", children[1])]
    case Nary => [Field("inputs", Arr(children))]
  }

  function NodeWith(p: Plan, members: seq<Field>): Json {
    Obj([Field(p.name, Obj(p.config + members))])
  }

  lemma {:induction false} ConfigOf(p: Plan, members: seq<Field>)
    ensures Config(NodeWith(p, members)) == Some(p.config + members)
    ensures forall c :: WithConfig(NodeWith(p, members), c) == Obj([Field(p.name, Obj(c))])
  {
    forall c ensures WithConfig(NodeWith(p, members), c) == Obj([Field(p.name, Obj(c))]) {
      var f := Field(p.name, Obj(p.config + members));
      assert [f][1..] == [];
    }
  }

  /** How the four child keys act on one or two explicit members behind the configuration. */
  lemma {:induction false} OneMember(p: Plan, key: string, v: Json)
    requires ValidNode(p)
    ensures forall k | k in CHILD_KEYS :: HasKey(p.config + [Field(key, v)], k) <==> k == key
    ensures key in CHILD_KEYS ==> GetField(p.config + [Field(key, v)], key) == v
    ensures key in CHILD_KEYS ==>
              forall w :: SetField(p.config + [Field(key, v)], key, w) == p.config + [Field(key, w)]
  {
    var ms := [Field(key, v)];
    assert ms[0].key == key;
    forall k | k in CHILD_KEYS ensures HasKey(p.config + ms, k) <==> k == key {
      MembersAfter(p.config, ms, k);
    }
    if key in CHILD_KEYS {
      MembersAfter(p.config, ms, key);
      assert ms[1..] == [];
    }
  }

  lemma {:induction false} SetsOfTwo(v: Json, w: Json, x: Json)
    ensures
      var ms := [Field("left", v), Field("right", w)];
      && SetField(ms, "left", x) == [Field("left", x), Field("right", w)]
      && SetField(ms, "right", x) == [Field("left", v), Field("right", x)]
      && GetField(ms, "left") == v && HasKey(ms, "right") && GetField(ms, "right") == w
  {
    var ms := [Field("left", v), Field("right", w)];
    assert ms[0].key == "left" && ms[1].key == "right" && ms[1..] == [Field("right", w)];
    assert "left" != "right" by { assert "left"[0] != "right"[0]; }
    assert [Field("right", w)][1..] == [];
  }

  lemma {:induction false} PresentOfTwo(p: Plan, v: Json, w: Json)
    requires ValidNode(p)
    ensures
      var c := p.config + [Field("left", v), Field("right", w)];
      && (forall k | k in CHILD_KEYS :: HasKey(c, k) <==> k == "left" || k == "right")
      && GetField(c, "left") == v && GetField(c, "right") == w
  {
    var ms := [Field("left", v), Field("right", w)];
    assert ms[0].key == "left" && ms[1].key == "right";
    forall k | k in CHILD_KEYS ensures HasKey(p.config + ms, k) <==> k == "left" || k == "right" {
      MembersAfter(p.config, ms, k);
    }
    MembersAfter(p.config, ms, "left");
    MembersAfter(p.config, ms, "right");
    SetsOfTwo(v, w, v);
  }

  lemma {:induction false} TwoMembers(p: Plan, v: Json, w: Json)
    requires ValidNode(p)
    ensures
      var c := p.config + [Field("left", v), Field("right", w)];
      && (forall k | k in CHILD_KEYS :: HasKey(c, k) <==> k == "left" || k == "right")
      && GetField(c, "left") == v && GetField(c, "right") == w
      && (forall x :: SetField(c, "left", x) == p.config + [Field("left", x), Field("right", w)])
      && (forall x :: SetField(c, "right", x) == p.config + [Field("left", v), Field("right", x)])
  {
    PresentOfTwo(p, v, w);
    MembersAfter(p.config, [Field("left", v), Field("right", w)], "left");
    MembersAfter(p.config, [Field("left", v), Field("right", w)], "right");
    forall x
      ensures SetField([Field("left", v), Field("right", w)], "left", x) == [Field("left", x), Field("right", w)]
      ensures SetField([Field("left", v), Field("right", w)], "right", x) == [Field("left", v), Field("right", x)]
    {
      SetsOfTwo(v, w, x);
    }
  }

  lemma {:induction false} NoMembers(p: Plan)
    requires ValidNode(p)
    ensures forall k | k in CHILD_KEYS :: !HasKey(p.config + [], k)
  {
    forall k | k in CHILD_KEYS ensures !HasKey(p.config + [], k) {
      MembersAfter(p.config, [], k);
    }
  }

  lemma {:induction false} SerializedIs(p: Plan)
    requires ValidPlan(p)
    ensures Serialize(p) == NodeWith(p, RestoredMembers(p, SerializeAll(p.children)))
  {}

  lemma {:induction false} ClearedOne(p: Plan, key: string, v: Json)
    requires ValidNode(p) && (key == "input" || key == "inputs")
    ensures ClearChildMembers(p.config + [Field(key, v)]) ==
            p.config + [Field(key, if key == "input" then Obj([]) else Arr([]))]
  {
    OneMember(p, key, v);
    OneMember(p, key, if key == "input" then Obj([]) else Arr([]));
    assert "input" != "inputs" by { assert |"input"| != |"inputs"|; }
  }

  lemma {:induction false} ClearedTwo(p: Plan, v: Json, w: Json)
    requires ValidNode(p)
    ensures ClearChildMembers(p.config + [Field("left", v), Field("right", w)]) ==
            p.config + [Field("left", Obj([])), Field("right", Obj([]))]
  {
    TwoMembers(p, v, w);
    TwoMembers(p, Obj([]), w);
    TwoMembers(p, Obj([]), Obj([]));
  }

  /** Clearing the child members of a serialized operator. */
  lemma {:induction false} EmptiedIs(p: Plan)
    requires ValidPlan(p)
    ensures EmptyChildren(Serialize(p)) == NodeWith(p, ClearedMembers(p))
  {
    SerializedIs(p);
    var children := SerializeAll(p.children);
    ConfigOf(p, RestoredMembers(p, children));
    match p.shape
    case Leaf => NoMembers(p);
    case Unary => ClearedOne(p, "input", children[0]);
    case Binary => ClearedTwo(p, children[0], children[1]);
    case Nary => ClearedOne(p, "inputs", Arr(children));
  }

  /** Writing the child ids into the cleared members. */
  lemma {:induction false} PopulatedIs(p: Plan, ids: seq<int>)
    requires ValidPlan(p) && |ids| == |p.children|
    ensures PopulateChildIds(NodeWith(p, ClearedMembers(p)), ids) == NodeWith(p, NumberedMembers(p, ids))
  {
    ConfigOf(p, ClearedMembers(p));
    match p.shape
    case Leaf =>
    case Unary => OneMember(p, "input", Obj([]));
    case Binary =>
      TwoMembers(p, Obj([]), Obj([]));
      TwoMembers(p, Int(ids[0]), Obj([]));
    case Nary => OneMember(p, "inputs", Arr([]));
  }

  lemma {:induction false} AllU64OfIds(ids: seq<int>)
    requires forall i | 0 <= i < |ids| :: 0 <= ids[i] < U64_LIMIT
    ensures AllU64(IdList(ids)) == ids
  {
    if ids != [] {
      AllU64OfIds(ids[1..]);
      assert IdList(ids)[1..] == IdList(ids[1..]);
    }
  }

  function ConfigIds(c: seq<Field>): seq<int> {
    MemberId(c, "input") + MemberId(c, "left") + MemberId(c, "right") + MemberIds(c, "inputs")
  }

  lemma {:induction false} ExtractedFrom(p: Plan, members: seq<Field>)
    ensures ExtractChildIds(NodeWith(p, members)) == ConfigIds(p.config + members)
  {}

  lemma {:induction false} IdsOfOne(p: Plan, key: string, v: Json)
    requires ValidNode(p) && (key == "input" || key == "inputs")
    ensures ConfigIds(p.config + [Field(key, v)]) ==
            if key == "input" then AsU64(v) else if v.Arr? then AllU64(v.items) else []
  {
    OneMember(p, key, v);
    assert "input" != "inputs" by { assert |"input"| != |"inputs"|; }
  }

  lemma {:induction false} IdsOfTwo(p: Plan, v: Json, w: Json)
    requires ValidNode(p)
    ensures ConfigIds(p.config + [Field("left", v), Field("right", w)]) == AsU64(v) + AsU64(w)
  {
    PresentOfTwo(p, v, w);
  }

  lemma {:induction false} WrittenOne(p: Plan, ids: seq<int>)
    requires ValidPlan(p) && p.shape.Unary? && |ids| == |p.children| && 0 <= ids[0] < U64_LIMIT
    ensures ConfigIds(p.config + NumberedMembers(p, ids)) == ids
  {
    IdsOfOne(p, "input", Int(ids[0]));
    assert [ids[0]] == ids;
  }

  lemma {:induction false} WrittenTwo(p: Plan, ids: seq<int>)
    requires ValidPlan(p) && p.shape.Binary? && |ids| == |p.children| && 0 <= ids[0] < U64_LIMIT && 0 <= ids[1] < U64_LIMIT
    ensures ConfigIds(p.config + NumberedMembers(p, ids)) == ids
  {
    IdsOfTwo(p, Int(ids[0]), Int(ids[1]));
    assert [ids[0]] + [ids[1]] == ids;
  }

  lemma {:induction false} WrittenList(p: Plan, ids: seq<int>)
    requires ValidPlan(p) && p.shape.Nary? && |ids| == |p.children|
    requires forall i | 0 <= i < |ids| :: 0 <= ids[i] < U64_LIMIT
    ensures ConfigIds(p.config + NumberedMembers(p, ids)) == if FitsArity(p) then ids else []
  {
    AllU64OfIds(ids);
    IdsOfOne(p, "inputs", Arr(if |ids| < 3 then [] else IdList(ids)));
  }

  /** The child ids written into a node are the ones read from it. */
  lemma {:induction false} WrittenIds(p: Plan, ids: seq<int>)
    requires ValidPlan(p) && |ids| == |p.children|
    requires forall i | 0 <= i < |ids| :: 0 <= ids[i] < U64_LIMIT
    ensures ConfigIds(p.config + NumberedMembers(p, ids)) == if FitsArity(p) then ids else []
  {
    match p.shape
    case Leaf =>
      NoMembers(p);
    case Unary => WrittenOne(p, ids);
    case Binary => WrittenTwo(p, ids);
    case Nary => WrittenList(p, ids);
  }

  /** The child ids are read back exactly when they were written. */
  lemma {:induction false} ExtractedIs(p: Plan, ids: seq<int>)
    requires ValidPlan(p) && |ids| == |p.children|
    requires forall i | 0 <= i < |ids| :: 0 <= ids[i] < U64_LIMIT
    ensures ExtractChildIds(NodeWith(p, NumberedMembers(p, ids))) == if FitsArity(p) then ids else []
  {
    ExtractedFrom(p, NumberedMembers(p, ids));
    WrittenIds(p, ids);
  }

  /** Putting children back into a numbered node that fits its arity. */
  lemma {:induction false} RestoredIs(p: Plan, ids: seq<int>, children: seq<Json>)
    requires ValidPlan(p) && FitsArity(p) && |ids| == |p.children| == |children| > 0
    ensures RestoreChildren(NodeWith(p, NumberedMembers(p, ids)), children) == Ok(NodeWith(p, RestoredMembers(p, children)))
  {
    ConfigOf(p, NumberedMembers(p, ids));
    match p.shape
    case Leaf =>
    case Unary => OneMember(p, "input", Int(ids[0]));
    case Binary =>
      TwoMembers(p, Int(ids[0]), Int(ids[1]));
      TwoMembers(p, children[0], Int(ids[1]));
    case Nary => OneMember(p, "inputs", Arr(IdList(ids)));
  }

  /** Different children make different nodes. */
  lemma {:induction false} RestoredInjective(p: Plan, a: seq<Json>, b: seq<Json>)
    requires ValidPlan(p) && |a| == |b| == |p.children| > 0
    requires NodeWith(p, RestoredMembers(p, a)) == NodeWith(p, RestoredMembers(p, b))
    ensures a == b
  {
    var n := |p.config|;
    var ma, mb := RestoredMembers(p, a), RestoredMembers(p, b);
    assert NodeWith(p, ma).fields[0].value.fields[n..] == ma;
    assert NodeWith(p, mb).fields[0].value.fields[n..] == mb;
    if p.shape == Binary {
      assert ma[0].value == mb[0].value && ma[1].value == mb[1].value;
    }
  }

  // ----- Reading the flattened document -----

  /** Shared subplans are one plan: equal addresses mean equal trees. */
  ghost predicate ConsistentSharing(p: Plan) {
    forall a, b | a in Preorder(p) && b in Preorder(p) && a.ptr == b.ptr :: a == b
  }

  /** What is parsed for a node. */
  function Expected(info: NodeInfo): ParsedNode {
    if info.isParquetScan then ParsedNode(info.id, info.rawNode, [], true)
    else
      var node := StructureEntry(info).value;
      ParsedNode(info.id, node, ExtractChildIds(node), false)
  }

  /**
    The document in the order in which the structure map is iterated.  The map
    is sorted by key, so the entry "0" comes first if there is one.
   */
  ghost predicate Iterates(doc: Document, flat: Document) {
    && doc.fullTableInfo == flat.fullTableInfo
    && |doc.structure| == |flat.structure|
    && (forall f | f in doc.structure :: f in flat.structure)
    && (forall f | f in flat.structure :: f in doc.structure)
    && (flat.structure != [] && flat.structure[0].key == ToDecimal(0) ==> doc.structure[0] == flat.structure[0])
  }

  ghost predicate SmallIds(infos: seq<NodeInfo>) {
    forall i | 0 <= i < |infos| :: infos[i].id < U64_LIMIT
  }

  ghost predicate IsEntry(infos: seq<NodeInfo>, f: Field) {
    exists i | 0 <= i < |infos| :: !infos[i].isParquetScan && f == StructureEntry(infos[i])
  }

  ghost predicate IsTable(infos: seq<NodeInfo>, t: Json) {
    exists i | 0 <= i < |infos| :: infos[i].isParquetScan && t == TableEntry(infos[i])
  }

  ghost predicate IsParsed(infos: seq<NodeInfo>, node: ParsedNode) {
    exists i | 0 <= i < |infos| :: node == Expected(infos[i])
  }

  /** Every output entry belongs to a node, and the first node's entry comes first. */
  lemma {:induction false} OutputSound(infos: seq<NodeInfo>, n: nat)
    requires n <= |infos|
    ensures forall f | f in Output(infos, n).structure :: IsEntry(infos, f)
    ensures forall t | t in Output(infos, n).fullTableInfo :: IsTable(infos, t)
    ensures n > 0 && !infos[0].isParquetScan ==>
              Output(infos, n).structure != [] && Output(infos, n).structure[0] == StructureEntry(infos[0])
  {
    if n > 0 {
      OutputSound(infos, n - 1);
    }
  }

  /** Every node has its entry in the output. */
  lemma {:induction false} OutputComplete(infos: seq<NodeInfo>, n: nat, i: nat)
    requires i < n <= |infos|
    ensures if infos[i].isParquetScan then TableEntry(infos[i]) in Output(infos, n).fullTableInfo
            else StructureEntry(infos[i]) in Output(infos, n).structure
  {
    if i < n - 1 {
      OutputComplete(infos, n - 1, i);
    }
  }

  lemma {:induction false} EntryParses(info: NodeInfo)
    requires info.id < U64_LIMIT && !info.isParquetScan
    ensures
      var f := StructureEntry(info);
      && IsDigits(f.key) && ParseNat(f.key) == info.id
      && ParsedNode(ParseNat(f.key), f.value, ExtractChildIds(f.value), false) == Expected(info)
  {
    ParsePrinted(info.id);
  }

  lemma {:induction false} ParseStructureSound(fs: seq<Field>, infos: seq<NodeInfo>)
    requires SmallIds(infos) && forall f | f in fs :: IsEntry(infos, f)
    ensures ParseStructure(fs).Ok? && |ParseStructure(fs).value| == |fs|
    ensures forall node | node in ParseStructure(fs).value :: IsParsed(infos, node)
  {
    if fs != [] {
      assert fs[0] in fs && forall f | f in fs[1..] :: f in fs;
      var i :| 0 <= i < |infos| && !infos[i].isParquetScan && fs[0] == StructureEntry(infos[i]);
      EntryParses(infos[i]);
      ParseStructureSound(fs[1..], infos);
    }
  }

  lemma {:induction false} ParseStructureComplete(fs: seq<Field>, info: NodeInfo, k: nat)
    requires ParseStructure(fs).Ok? && |ParseStructure(fs).value| == |fs|
    requires info.id < U64_LIMIT && !info.isParquetScan && k < |fs| && fs[k] == StructureEntry(info)
    ensures ParseStructure(fs).value[k] == Expected(info)
  {
    if k == 0 {
      EntryParses(info);
    } else {
      ParseStructureComplete(fs[1..], info, k - 1);
    }
  }

  lemma {:induction false} TableParses(info: NodeInfo)
    requires info.id < U64_LIMIT && info.isParquetScan
    ensures
      var t := TableEntry(info);
      AsU64(MemberOrNull(t, "id")) == [info.id] && MemberOrNull(t, "node") == info.rawNode
  {
    var fs := TableEntry(info).fields;
    assert fs[0].key == "id" && fs[1].key == "node" && fs[1..][0] == fs[1];
    assert "id"[0] != "node"[0];
  }

  lemma {:induction false} ParseTablesSound(entries: seq<Json>, infos: seq<NodeInfo>)
    requires SmallIds(infos) && forall t | t in entries :: IsTable(infos, t)
    ensures ParseTables(entries).Ok? && |ParseTables(entries).value| == |entries|
    ensures forall node | node in ParseTables(entries).value :: IsParsed(infos, node)
  {
    if entries != [] {
      assert entries[0] in entries && forall t | t in entries[1..] :: t in entries;
      var i :| 0 <= i < |infos| && infos[i].isParquetScan && entries[0] == TableEntry(infos[i]);
      TableParses(infos[i]);
      ParseTablesSound(entries[1..], infos);
    }
  }

  lemma {:induction false} ParseTablesComplete(entries: seq<Json>, info: NodeInfo, k: nat)
    requires ParseTables(entries).Ok? && |ParseTables(entries).value| == |entries|
    requires info.id < U64_LIMIT && info.isParquetScan && k < |entries| && entries[k] == TableEntry(info)
    ensures ParseTables(entries).value[k] == Expected(info)
  {
    if k == 0 {
      TableParses(info);
    } else {
      ParseTablesComplete(entries[1..], info, k - 1);
    }
  }

  ghost predicate InOrder(infos: seq<NodeInfo>) {
    forall i | 0 <= i < |infos| :: infos[i].id == i
  }

  /** Reading the output gives back what is expected of every node, the first node first. */
  lemma {:induction false} ParsesExpected(infos: seq<NodeInfo>, doc: Document)
    requires infos != [] && SmallIds(infos)
    requires Iterates(doc, Output(infos, |infos|))
    ensures ParseNodes(doc).Ok?
    ensures forall node | node in ParseNodes(doc).value :: IsParsed(infos, node)
    ensures forall i | 0 <= i < |infos| :: Expected(infos[i]) in ParseNodes(doc).value
  {
    OutputSound(infos, |infos|);
    ParseStructureSound(doc.structure, infos);
    ParseTablesSound(doc.fullTableInfo, infos);
    var internal, scans := ParseStructure(doc.structure).value, ParseTables(doc.fullTableInfo).value;
    forall i | 0 <= i < |infos| ensures Expected(infos[i]) in internal + scans {
      OutputComplete(infos, |infos|, i);
      if infos[i].isParquetScan {
        var k :| 0 <= k < |doc.fullTableInfo| && doc.fullTableInfo[k] == TableEntry(infos[i]);
        ParseTablesComplete(doc.fullTableInfo, infos[i], k);
        assert scans[k] in scans;
      } else {
        assert StructureEntry(infos[i]) in doc.structure;
        var k :| 0 <= k < |doc.structure| && doc.structure[k] == StructureEntry(infos[i]);
        ParseStructureComplete(doc.structure, infos[i], k);
        assert internal[k] in internal;
      }
    }
  }

  lemma {:induction false} ParsesFirst(infos: seq<NodeInfo>, doc: Document)
    requires infos != [] && SmallIds(infos) && infos[0].id == 0
    requires Iterates(doc, Output(infos, |infos|))
    requires infos[0].isParquetScan ==> |infos| == 1
    ensures ParseNodes(doc).Ok? && ParseNodes(doc).value != [] && ParseNodes(doc).value[0].id == 0
  {
    ParsesExpected(infos, doc);
    OutputSound(infos, |infos|);
    var nodes := ParseNodes(doc).value;
    if infos[0].isParquetScan {
      assert Expected(infos[0]) in nodes;
      assert nodes[0] in nodes;
    } else {
      ParseStructureSound(doc.structure, infos);
      ParseStructureComplete(doc.structure, infos[0], 0);
    }
  }

  /** A node is stored under its own id. */
  lemma {:induction false} StoredById(infos: seq<NodeInfo>, nodes: seq<ParsedNode>)
    requires InOrder(infos)
    requires forall node | node in nodes :: IsParsed(infos, node)
    requires forall i | 0 <= i < |infos| :: Expected(infos[i]) in nodes
    ensures forall id :: id in ById(nodes) <==> 0 <= id < |infos|
    ensures forall i | 0 <= i < |infos| :: ById(nodes)[i] == Expected(infos[i])
  {
    var m := ById(nodes);
    forall id | id in m ensures 0 <= id < |infos| && m[id] == Expected(infos[id]) {
      assert IsParsed(infos, m[id]);
      var j :| 0 <= j < |infos| && m[id] == Expected(infos[j]);
    }
    forall i | 0 <= i < |infos| ensures i in m {
      assert Expected(infos[i]) in nodes;
      var k :| 0 <= k < |nodes| && nodes[k] == Expected(infos[i]);
    }
  }

  // ----- The rebuild of a flattened plan -----

  /** The child ids kept in the flattened form of a node. */
  function KeptIds(visited: seq<Plan>, i: nat): (r: seq<int>)
    requires i < |visited| && AllValid(visited) && Closed(visited)
  {
    if FitsArity(visited[i]) then ChildIds(visited, visited[i].children) else []
  }

  /** What the parsed entry of node `i` holds. */
  lemma {:induction false} EntryIs(visited: seq<Plan>, i: nat)
    requires i < |visited| <= U64_LIMIT && AllValid(visited) && Closed(visited)
    ensures
      var p, ids := visited[i], ChildIds(visited, visited[i].children);
      var node := Expected(InfoAt(visited, i));
      && node.childIds == KeptIds(visited, i)
      && (node.isParquetScan ==> p.children == [])
      && node.nodeData == NodeWith(p, NumberedMembers(p, ids))
  {
    var p, ids := visited[i], ChildIds(visited, visited[i].children);
    EmptiedIs(p);
    PopulatedIs(p, ids);
    ExtractedIs(p, ids);
  }

  /** The hash map holds exactly the visited nodes, each under its position. */
  ghost predicate Loaded(visited: seq<Plan>, m: NodeMap) {
    && |visited| <= U64_LIMIT && AllValid(visited) && Closed(visited)
    && (forall id :: id in m <==> 0 <= id < |visited|)
    && forall i | 0 <= i < |visited| :: m[i] == Expected(InfoAt(visited, i))
  }

  /** Looking a child up by address finds that child. */
  ghost predicate Shared(visited: seq<Plan>) {
    forall a, b | a in visited && b in visited && a.ptr == b.ptr :: a == b
  }

  lemma {:induction false} ChildFound(visited: seq<Plan>, i: nat, k: nat)
    requires i < |visited| && Closed(visited) && Shared(visited) && k < |visited[i].children|
    ensures
      var id := ChildIds(visited, visited[i].children)[k];
      0 <= id < |visited| && visited[id] == visited[i].children[k]
  {
    assert visited[i].children[k] in visited;
  }

  /** The number of nodes of a plan: a child has fewer. */
  function Size(p: Plan): nat
    decreases p, 0
  {
    1 + SizeAll(p.children)
  }

  function SizeAll(ps: seq<Plan>): (n: nat)
    ensures forall i | 0 <= i < |ps| :: Size(ps[i]) <= n
    decreases ps, 1
  {
    if ps == [] then 0 else Size(ps[0]) + SizeAll(ps[1..])
  }

  /** A child in the document is smaller than its parent. */
  lemma {:induction false} EdgeShrinks(visited: seq<Plan>, m: NodeMap, a: int, b: int)
    requires Loaded(visited, m) && Shared(visited) && Edge(ChildMap(m), a, b)
    ensures 0 <= a < |visited| && 0 <= b < |visited| && Size(visited[b]) < Size(visited[a])
  {
    EntryIs(visited, a);
    var ids := ChildIds(visited, visited[a].children);
    var k :| 0 <= k < |ids| && ids[k] == b;
    ChildFound(visited, a, k);
  }

  function Sizes(visited: seq<Plan>): (r: map<int, int>)
    ensures forall i :: i in r <==> 0 <= i < |visited|
    ensures forall i | i in r :: r[i] == Size(visited[i])
  {
    map i | 0 <= i < |visited| :: Size(visited[i])
  }

  /** A flattened plan has no circular reference, even when subplans are shared. */
  lemma {:induction false} FlattenedIsAcyclic(visited: seq<Plan>, m: NodeMap)
    requires Loaded(visited, m) && Shared(visited)
    ensures !HasCycle(ChildMap(m))
    ensures 0 < |visited| && (forall q | q in visited :: Size(q) <= Size(visited[0])) ==> 0 !in AllChildren(m)
  {
    var rank := Sizes(visited);
    forall a, b | Edge(ChildMap(m), a, b) ensures a in rank && b in rank && rank[b] < rank[a] {
      EdgeShrinks(visited, m, a, b);
    }
    RankedIsAcyclic(ChildMap(m), rank);
    if 0 < |visited| && forall q | q in visited :: Size(q) <= Size(visited[0]) {
      forall parent | parent in m ensures 0 !in m[parent].childIds {
        LargestHasNoParent(visited, m, parent);
      }
    }
  }

  lemma {:induction false} LargestHasNoParent(visited: seq<Plan>, m: NodeMap, parent: int)
    requires Loaded(visited, m) && Shared(visited) && 0 < |visited| && parent in m
    requires forall q | q in visited :: Size(q) <= Size(visited[0])
    ensures 0 !in m[parent].childIds
  {
    if Edge(ChildMap(m), parent, 0) {
      EdgeShrinks(visited, m, parent, 0);
    }
    assert visited[parent] in visited;
  }

  lemma {:induction false} BuildAllIff(m: NodeMap, order: seq<int>, parent: int, ids: seq<int>, expected: seq<Json>)
    requires Ranked(m, order) && parent in m && parent in order
    requires forall c | c in ids :: c in m[parent].childIds
    requires |ids| == |expected|
    ensures BuildAll(m, order, parent, ids) == Ok(expected)
            <==> forall k | 0 <= k < |ids| :: Build(m, order, ids[k]) == Ok(expected[k])
    decreases |ids|
  {
    if ids != [] {
      assert ids[0] in ids && forall c | c in ids[1..] :: c in ids;
      BuildAllIff(m, order, parent, ids[1..], expected[1..]);
      var rest := BuildAll(m, order, parent, ids[1..]);
      var all := BuildAll(m, order, parent, ids);
      if all == Ok(expected) {
        assert rest.value == all.value[1..];
        assert Build(m, order, ids[0]) == Ok(expected[0]);
        forall k | 0 <= k < |ids| ensures Build(m, order, ids[k]) == Ok(expected[k]) {
          if k > 0 {
            assert Build(m, order, ids[1..][k - 1]) == Ok(expected[1..][k - 1]);
          }
        }
      }
      if forall k | 0 <= k < |ids| :: Build(m, order, ids[k]) == Ok(expected[k]) {
        forall k | 0 <= k < |ids[1..]| ensures Build(m, order, ids[1..][k]) == Ok(expected[1..][k]) {
          assert Build(m, order, ids[k + 1]) == Ok(expected[k + 1]);
        }
        assert [expected[0]] + expected[1..] == expected;
      }
    }
  }

  /** An `inputs` operator whose ids were lost is rebuilt without its inputs. */
  lemma {:induction false} LostChildren(p: Plan, ids: seq<int>, children: seq<Json>)
    requires ValidPlan(p) && !FitsArity(p) && |ids| == |p.children| == |children|
    ensures NodeWith(p, NumberedMembers(p, ids)) != NodeWith(p, RestoredMembers(p, children))
  {
    var a, b := NodeWith(p, NumberedMembers(p, ids)), NodeWith(p, RestoredMembers(p, children));
    assert a.fields[0].value.fields[|p.config|] == Field("inputs", Arr([]));
    assert b.fields[0].value.fields[|p.config|] == Field("inputs", Arr(children));
  }

  lemma {:induction false} NodeBuilds(p: Plan, ids: seq<int>, m: NodeMap, order: seq<int>, i: int)
    requires ValidPlan(p) && |ids| == |p.children| && Ranked(m, order) && i in m && i in order
    requires m[i].childIds == (if FitsArity(p) then ids else []) && (m[i].isParquetScan ==> p.children == [])
    requires m[i].nodeData == NodeWith(p, NumberedMembers(p, ids))
    ensures Build(m, order, i) == Ok(Serialize(p))
            <==> FitsArity(p) && BuildAll(m, order, i, m[i].childIds) == Ok(SerializeAll(p.children))
  {
    var expected := SerializeAll(p.children);
    SerializedIs(p);
    if p.children == [] {
      assert ids == [] && expected == [];
      assert NumberedMembers(p, ids) == RestoredMembers(p, expected);
    } else if !FitsArity(p) {
      LostChildren(p, ids, expected);
    } else {
      var built := BuildAll(m, order, i, ids);
      if built.Ok? {
        RestoredIs(p, ids, built.value);
        if Build(m, order, i) == Ok(Serialize(p)) {
          RestoredInjective(p, built.value, expected);
        }
      }
    }
  }

  /** The rebuild of node `i` is the serialized subplan exactly when every node below fits its arity. */
  lemma {:induction false} BuildsBack(visited: seq<Plan>, m: NodeMap, order: seq<int>, i: nat)
    requires i < |visited| && Loaded(visited, m) && Shared(visited) && Ranked(m, order)
    ensures Build(m, order, i) == Ok(Serialize(visited[i])) <==> AllFitArity(visited[i])
    decreases visited[i]
  {
    var p, ids := visited[i], ChildIds(visited, visited[i].children);
    EntryIs(visited, i);
    assert i in ChildMap(m) && i in order;
    NodeBuilds(p, ids, m, order, i);
    if FitsArity(p) {
      BuildAllIff(m, order, i, ids, SerializeAll(p.children));
      forall k | 0 <= k < |ids|
        ensures Build(m, order, ids[k]) == Ok(SerializeAll(p.children)[k]) <==> AllFitArity(p.children[k])
      {
        ChildFound(visited, i, k);
        BuildsBack(visited, m, order, ids[k]);
      }
    }
  }

  lemma {:induction false} SizesBelow(p: Plan)
    ensures forall q | q in Preorder(p) :: Size(q) <= Size(p)
    decreases p, 0
  {
    SizesBelowAll(p.children);
  }

  lemma {:induction false} SizesBelowAll(ps: seq<Plan>)
    ensures forall q | q in PreorderAll(ps) :: Size(q) <= SizeAll(ps)
    decreases ps, 1
  {
    if ps != [] {
      SizesBelow(ps[0]);
      SizesBelowAll(ps[1..]);
    }
  }

  lemma {:induction false} ScanIsAlone(p: Plan)
    requires ValidPlan(p)
    ensures p.name == "parquetScan" ==> |Preorder(p)| == 1
  {}

  lemma {:induction false} InfosInOrder(visited: seq<Plan>)
    requires |visited| <= U64_LIMIT && AllValid(visited) && Closed(visited)
    ensures InOrder(Infos(visited, |visited|)) && SmallIds(Infos(visited, |visited|))
  {}

  lemma {:induction false} InfosParse(infos: seq<NodeInfo>, doc: Document)
    requires infos != [] && SmallIds(infos) && InOrder(infos) && infos[0].id == 0
    requires infos[0].isParquetScan ==> |infos| == 1
    requires Iterates(doc, Output(infos, |infos|))
    ensures ParseNodes(doc).Ok? && ParseNodes(doc).value != [] && ParseNodes(doc).value[0].id == 0
    ensures
      var m := ById(ParseNodes(doc).value);
      (forall id :: id in m <==> 0 <= id < |infos|) && forall i | 0 <= i < |infos| :: m[i] == Expected(infos[i])
  {
    ParsesExpected(infos, doc);
    ParsesFirst(infos, doc);
    StoredById(infos, ParseNodes(doc).value);
  }

  /** The document of a plan parses into the visited nodes, the first one first. */
  lemma {:induction false} FlattenedParses(p: Plan, doc: Document)
    requires ValidPlan(p) && |Preorder(p)| <= U64_LIMIT && Iterates(doc, Flattened(p))
    ensures ParseNodes(doc).Ok? && ParseNodes(doc).value != [] && ParseNodes(doc).value[0].id == 0
    ensures Loaded(Preorder(p), ById(ParseNodes(doc).value))
  {
    var visited := Preorder(p);
    VisitCloses(p);
    var infos := Infos(visited, |visited|);
    InfosInOrder(visited);
    ScanIsAlone(p);
    assert infos[0].isParquetScan ==> |infos| == 1;
    InfosParse(infos, doc);
  }

  /** Read as a graph, the document of a plan is acyclic and its first root is node 0. */
  lemma {:induction false} FlattenedLoads(p: Plan, doc: Document)
    requires ValidPlan(p) && |Preorder(p)| <= U64_LIMIT && ConsistentSharing(p)
    requires Iterates(doc, Flattened(p))
    ensures ParseNodes(doc).Ok? && Loaded(Preorder(p), ById(ParseNodes(doc).value))
    ensures !HasCycle(ChildMap(ById(ParseNodes(doc).value)))
    ensures FindRoot(ParseNodes(doc).value, AllChildren(ById(ParseNodes(doc).value))) == Some(0)
  {
    FlattenedParses(p, doc);
    SizesBelow(p);
    FlattenedIsAcyclic(Preorder(p), ById(ParseNodes(doc).value));
  }

  /**
    Codec round trip.  For every plan, shared subplans included, and whatever
    the iteration order of the remaining structure entries, reading back the
    flattened form gives the plan if and only if every node fits its arity: an
    operator that keeps its inputs in a list must not have one or two of them.
   */
  lemma {:induction false} RoundTripIffArityFits(p: Plan, doc: Document)
    requires ValidPlan(p) && |Preorder(p)| <= U64_LIMIT && ConsistentSharing(p)
    requires Iterates(doc, Flattened(p))
    ensures Rebuilt(doc) == Ok(Serialize(p)) <==> AllFitArity(p)
  {
    FlattenedLoads(p, doc);
    var nodes := ParseNodes(doc).value;
    BuildsBack(Preorder(p), ById(nodes), RebuildOrder(nodes), 0);
  }

  /** A union of two scans: its inputs do not survive the round trip. */
  lemma {:induction false} TwoInputUnionIsLost()
    ensures
      var left := Plan(1, "parquetScan", [], Leaf, []);
      var right := Plan(2, "parquetScan", [], Leaf, []);
      var union := Plan(0, "union", [], Nary, [left, right]);
      ValidPlan(union) && Rebuilt(Flattened(union)) != Ok(Serialize(union))
  {
    var left := Plan(1, "parquetScan", [], Leaf, []);
    var right := Plan(2, "parquetScan", [], Leaf, []);
    var union := Plan(0, "union", [], Nary, [left, right]);
    assert "union" != "parquetScan" by { assert |"union"| != |"parquetScan"|; }
    assert ValidPlan(left) && ValidPlan(right);
    assert PreorderAll([right]) == [right] by { assert PreorderAll([right][1..]) == []; }
    assert PreorderAll([left, right]) == [left, right] by {
      assert [left, right][1..] == [right];
      assert PreorderAll([left, right]) == Preorder(left) + PreorderAll([right]);
    }
    assert Preorder(union) == [union, left, right];
    assert ConsistentSharing(union);
    assert !FitsArity(union);
    RoundTripIffArityFits(union, Flattened(union));
  }

  // ----- Numbering without sharing -----

  lemma {:induction false} ChildLater(p: Plan, i: nat, c: Plan) returns (j: nat)
    requires i < |Preorder(p)| && c in Preorder(p)[i].children
    ensures i < j < |Preorder(p)| && Preorder(p)[j] == c
    decreases p, 0
  {
    if i == 0 {
      j := ChildListed(p.children, c);
    } else {
      j := ChildLaterAll(p.children, i - 1, c);
    }
    j := j + 1;
  }

  lemma {:induction false} ChildListed(ps: seq<Plan>, c: Plan) returns (j: nat)
    requires c in ps
    ensures j < |PreorderAll(ps)| && PreorderAll(ps)[j] == c
  {
    if ps[0] == c {
      j := 0;
    } else {
      j := ChildListed(ps[1..], c);
      j := j + |Preorder(ps[0])|;
    }
  }

  lemma {:induction false} ChildLaterAll(ps: seq<Plan>, i: nat, c: Plan) returns (j: nat)
    requires i < |PreorderAll(ps)| && c in PreorderAll(ps)[i].children
    ensures i < j < |PreorderAll(ps)| && PreorderAll(ps)[j] == c
    decreases ps, 1
  {
    var n := |Preorder(ps[0])|;
    if i < n {
      j := ChildLater(ps[0], i, c);
    } else {
      j := ChildLaterAll(ps[1..], i - n, c);
      j := j + n;
    }
  }

  lemma {:induction false} ParentEarlier(p: Plan, j: nat) returns (i: nat)
    requires 0 < j < |Preorder(p)|
    ensures i < j && Preorder(p)[j] in Preorder(p)[i].children
    decreases p, 0
  {
    var top;
    i, top := ParentEarlierAll(p.children, j - 1);
    i := if top then 0 else i + 1;
  }

  lemma {:induction false} ParentEarlierAll(ps: seq<Plan>, j: nat) returns (i: nat, top: bool)
    requires j < |PreorderAll(ps)|
    ensures top ==> PreorderAll(ps)[j] in ps
    ensures !top ==> i < j && PreorderAll(ps)[j] in PreorderAll(ps)[i].children
    decreases ps, 1
  {
    var n := |Preorder(ps[0])|;
    if j == 0 {
      i, top := 0, true;
    } else if j < n {
      i := ParentEarlier(ps[0], j);
      top := false;
    } else {
      i, top := ParentEarlierAll(ps[1..], j - n);
      i := i + n;
    }
  }

  ghost predicate NoSharing(visited: seq<Plan>) {
    forall i, j | 0 <= i < j < |visited| :: visited[i].ptr != visited[j].ptr
  }

  ghost predicate IsChild(visited: seq<Plan>, parent: int, child: int)
    requires Closed(visited)
  {
    0 <= parent < |visited| && child in ChildIds(visited, visited[parent].children)
  }

  ghost predicate Parentless(visited: seq<Plan>, j: int)
    requires Closed(visited)
  {
    0 <= j < |visited| && forall i :: !IsChild(visited, i, j)
  }

  lemma {:induction false} ChildIsLater(p: Plan, i: int, c: int)
    requires ValidPlan(p) && NoSharing(Preorder(p)) && Closed(Preorder(p)) && IsChild(Preorder(p), i, c)
    ensures i < c < |Preorder(p)|
  {
    var visited := Preorder(p);
    var ids := ChildIds(visited, visited[i].children);
    var k :| 0 <= k < |ids| && ids[k] == c;
    var j := ChildLater(p, i, visited[i].children[k]);
  }

  lemma {:induction false} HasParent(p: Plan, j: int) returns (i: int)
    requires ValidPlan(p) && NoSharing(Preorder(p)) && Closed(Preorder(p)) && 0 < j < |Preorder(p)|
    ensures IsChild(Preorder(p), i, j)
  {
    var visited := Preorder(p);
    i := ParentEarlier(p, j);
    var children := visited[i].children;
    var k :| 0 <= k < |children| && children[k] == visited[j];
    assert ChildIds(visited, children)[k] == j;
  }

  /** Without sharing, every child id is greater than its parent's id and 0 is the only id that is nobody's child. */
  lemma {:induction false} NumberedInVisitOrder(p: Plan)
    requires ValidPlan(p) && NoSharing(Preorder(p))
    ensures Closed(Preorder(p))
    ensures forall i, c | IsChild(Preorder(p), i, c) :: i < c < |Preorder(p)|
    ensures forall j :: Parentless(Preorder(p), j) <==> j == 0
  {
    VisitCloses(p);
    forall i, c | IsChild(Preorder(p), i, c) ensures i < c < |Preorder(p)| {
      ChildIsLater(p, i, c);
    }
    forall j ensures Parentless(Preorder(p), j) <==> j == 0 {
      if 0 < j < |Preorder(p)| {
        var i := HasParent(p, j);
      }
    }
  }
}
