/** Where the traversal of a plan starts, and which node gets which new id. */
module PlanOrder {
  import opened Basics
  import opened Decimal
  import opened Json
  import opened Graphs
  import opened Traversal
  import opened Sorting
  import opened PlanStructure
  import opened PlanMeaning
  import opened Renumbering

  // ----- Roots -----

  /** The node ids that nothing refers to. */
  function Unreferenced(plan: seq<Field>): set<int> {
    set id | id in NodeIds(plan) && id !in PlanRefs(plan)
  }

  lemma {:induction false} StoredRefs(plan: seq<Field>, x: int) returns (id: int)
    requires x in PlanRefs(plan) && DigitsAndDistinct(plan)
    ensures id in NodesById(plan) && x in Refs(NodesById(plan)[id])
  {
    var i :| 0 <= i < |plan| && x in Refs(plan[i].value);
    id := ParseNat(plan[i].key);
    NodeIsStored(plan, i);
    var j := PositionOfNode(plan, id);
    assert j == i;
  }

  /** Keys are numerals of different numbers, as in every structure whose keys are canonical. */
  predicate DigitsAndDistinct(plan: seq<Field>) {
    && (forall i | 0 <= i < |plan| :: IsDigits(plan[i].key))
    && forall i, j | 0 <= i < j < |plan| :: ParseNat(plan[i].key) != ParseNat(plan[j].key)
  }

  lemma {:induction false} GraphKeys(plan: seq<Field>)
    ensures RefGraph(NodesById(plan)).Keys == NodeIds(plan)
  {}

  /** The last of a children-first order is no child. */
  lemma {:induction false} LastIsNoChild(g: Graph, order: seq<int>, id: int)
    requires ChildrenFirst(g, order) && order != [] && id in order
    ensures !Edge(g, id, order[|order| - 1])
  {
    var k :| 0 <= k < |order| && order[k] == id;
    if Edge(g, order[k], order[|order| - 1]) {
      NotBefore(order, k);
    }
  }

  lemma {:induction false} NotBefore(order: seq<int>, k: nat)
    requires Distinct(order) && k < |order|
    ensures order[|order| - 1] !in order[..k]
  {}

  /** A plan without reference cycles has a node that nothing refers to. */
  lemma {:induction false} AcyclicHasRoot(plan: seq<Field>)
    requires DigitsAndDistinct(plan) && NodeIds(plan) != {} && !HasCycle(RefGraph(NodesById(plan)))
    ensures Unreferenced(plan) != {}
  {
    var g := RefGraph(NodesById(plan));
    var starts := Sorted(NodeIds(plan));
    GraphKeys(plan);
    SameElements(Elements(starts), NodeIds(plan));
    ChildrenFirstIffAcyclic(g, starts);
    PostOrderIsPermutation(g, starts);
    var order := PostOrder(g, starts);
    var some := Inhabitant(NodeIds(plan));
    assert some in Elements(order);
    var last := order[|order| - 1];
    assert last in Elements(order);
    InUniverse(NodesById(plan), last);
    if last in PlanRefs(plan) {
      var id := StoredRefs(plan, last);
      RefEdge(NodesById(plan), id, last);
      assert id in Universe(g) && id in Elements(order);
      LastIsNoChild(g, order, id);
    }
  }

  lemma {:induction false} InUniverse(nodes: Nodes, x: int)
    requires x in Universe(RefGraph(nodes))
    ensures x in nodes
  {
    var g := RefGraph(nodes);
    forall n, c | n in g && c in g[n] ensures c in nodes {
      RefEdge(nodes, n, c);
    }
  }

  /**
    The roots: if the plan has a node that nothing refers to, as every acyclic
    plan has, exactly these nodes, by increasing id; otherwise the least id alone.
   */
  lemma {:induction false} RootsAre(plan: seq<Field>)
    ensures Increasing(FindRoots(plan))
    ensures Unreferenced(plan) != {} ==> forall x :: x in FindRoots(plan) <==> x in Unreferenced(plan)
    ensures Unreferenced(plan) == {} && NodeIds(plan) != {} ==>
              |FindRoots(plan)| == 1 && FindRoots(plan)[0] in NodeIds(plan) && forall x | x in NodeIds(plan) :: FindRoots(plan)[0] <= x
    ensures NodeIds(plan) == {} ==> FindRoots(plan) == []
    ensures DigitsAndDistinct(plan) && NodeIds(plan) != {} && !HasCycle(RefGraph(NodesById(plan))) ==> Unreferenced(plan) != {}
  {
    var ids, refs := NodeIds(plan), PlanRefs(plan);
    assert Unreferenced(plan) == set id | id in ids && id !in refs;
    if Unreferenced(plan) == {} && ids != {} {
      var all := Sorted(ids);
      forall x | x in ids ensures all[0] <= x {
        assert x in all;
        var k :| 0 <= k < |all| && all[k] == x;
      }
      assert all[0] in all;
    }
    if DigitsAndDistinct(plan) && NodeIds(plan) != {} && !HasCycle(RefGraph(NodesById(plan))) {
      AcyclicHasRoot(plan);
    }
  }

  /** The traversal starts from the roots and then from every id, by increasing id. */
  lemma {:induction false} StartsAre(plan: seq<Field>)
    ensures |FindRoots(plan)| <= |Starts(plan)| && Starts(plan)[..|FindRoots(plan)|] == FindRoots(plan)
    ensures Increasing(Starts(plan)[|FindRoots(plan)|..])
    ensures forall x :: x in Starts(plan)[|FindRoots(plan)|..] <==> x in NodeIds(plan)
  {
    assert Starts(plan)[|FindRoots(plan)|..] == Sorted(NodeIds(plan));
  }

  // ----- New ids -----

  /** The ids given to the first `t` nodes of the order. */
  function Given(m: map<int, int>, order: seq<int>, t: nat): set<int>
    requires t <= |order| && forall u | 0 <= u < t :: order[u] in m
  {
    if t == 0 then {} else Given(m, order, t - 1) + {m[order[t - 1]]}
  }

  /** A node keeps its id unless it is taken; then it gets the least natural that is not. */
  predicate GetsFrom(id: int, new_: int, taken: set<int>) {
    if id !in taken then new_ == id else 0 <= new_ && new_ !in taken && forall y | 0 <= y < new_ :: y in taken
  }

  lemma {:induction false} GivenFrom(m: map<int, int>, order: seq<int>, t: nat)
    requires 1 <= t <= |order| && forall u | 0 <= u < t :: order[u] in m
    ensures forall u | 0 <= u < t - 1 :: order[1..][u] in m
    ensures Given(m, order, t) == {m[order[0]]} + Given(m, order[1..], t - 1)
  {
    assert forall u | 0 <= u < t - 1 :: order[1..][u] == order[u + 1];
    if t > 1 {
      GivenFrom(m, order, t - 1);
    }
  }

  lemma {:induction false} AssignedAt(order: seq<int>, used: set<int>, m: map<int, int>, t: nat)
    requires Distinct(order) && m.Keys !! Elements(order) && m.Values <= used && t < |order|
    ensures forall u | 0 <= u <= t :: order[u] in Assign(order, used, m)
    ensures GetsFrom(order[t], Assign(order, used, m)[order[t]], used + Given(Assign(order, used, m), order, t))
    decreases |order|
  {
    var r, nid := Assign(order, used, m), NewId(order[0], used, m);
    RestDistinct(order);
    ValuesAfterUpdate(m, order[0], nid);
    AssignExtends(order[1..], used + {nid}, m[order[0] := nid]);
    if t == 0 {
      assert used + Given(r, order, 0) == used;
    } else {
      AssignedAt(order[1..], used + {nid}, m[order[0] := nid], t - 1);
      forall u | 0 <= u <= t ensures order[u] in r {
        if u > 0 { assert order[1..][u - 1] == order[u]; }
      }
      GivenFrom(r, order, t);
      assert used + {nid} + Given(r, order[1..], t - 1) == used + Given(r, order, t);
    }
  }

  /**
    Which node gets which id: along the traversal, a node keeps its id unless it
    is reserved or given to an earlier node; otherwise it gets the least natural
    that is neither.
   */
  lemma {:induction false} NewIdsInOrder(plan: seq<Field>, reserved: set<int>, t: nat)
    requires t < |TopoOrder(plan)|
    ensures forall u | 0 <= u <= t :: TopoOrder(plan)[u] in Renumber(plan, reserved)
    ensures GetsFrom(TopoOrder(plan)[t], Renumber(plan, reserved)[TopoOrder(plan)[t]],
                     reserved + Given(Renumber(plan, reserved), TopoOrder(plan), t))
  {
    TopoOrderIsPermutation(plan);
    AssignedAt(TopoOrder(plan), reserved, map[], t);
  }
}
