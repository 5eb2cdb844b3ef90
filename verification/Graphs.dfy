/** Finite directed graphs: the child lists of plan nodes. */
module Graphs {

  /** The children of every node that has an entry; other nodes have none. */
  type Graph = map<int, seq<int>>

  function Children(g: Graph, n: int): seq<int> {
    if n in g then g[n] else []
  }

  predicate Edge(g: Graph, a: int, b: int) {
    b in Children(g, a)
  }

  function Elements(s: seq<int>): (r: set<int>) {
    set x | x in s
  }

  predicate Distinct(s: seq<int>) {
    forall i, j | 0 <= i < j < |s| :: s[i] != s[j]
  }

  predicate IsPath(g: Graph, p: seq<int>) {
    forall i | 0 <= i < |p| - 1 :: Step(g, p, i)
  }

  predicate Step(g: Graph, p: seq<int>, i: int)
    requires 0 <= i < |p| - 1
  {
    Edge(g, p[i], p[i + 1])
  }

  predicate IsCycle(g: Graph, p: seq<int>) {
    |p| >= 2 && IsPath(g, p) && p[0] == p[|p| - 1]
  }

  ghost predicate HasCycle(g: Graph) {
    exists p :: IsCycle(g, p)
  }

  /** Every node and every child mentioned anywhere. */
  function Universe(g: Graph): set<int> {
    g.Keys + set n, c | n in g && c in g[n] :: c
  }

  /** Each node comes after all of its children. */
  ghost predicate ChildrenFirst(g: Graph, order: seq<int>) {
    && Distinct(order)
    && forall k, c | 0 <= k < |order| && Edge(g, order[k], c) :: c in order[..k]
  }

  ghost predicate Covers(g: Graph, order: seq<int>) {
    forall n | n in g :: n in order
  }

  lemma {:induction false} PathExtends(g: Graph, p: seq<int>, node: int)
    requires IsPath(g, p) && (p != [] ==> Edge(g, p[|p| - 1], node))
    ensures IsPath(g, p + [node]) && Elements(p + [node]) == Elements(p) + {node}
  {
    var q := p + [node];
    forall i | 0 <= i < |q| - 1 ensures Step(g, q, i) {
      if i < |p| - 1 { assert Step(g, p, i); }
    }
  }

  lemma {:induction false} PathPrefix(g: Graph, p: seq<int>, node: int)
    requires IsPath(g, p + [node])
    ensures IsPath(g, p)
  {
    var q := p + [node];
    forall i | 0 <= i < |p| - 1 ensures Step(g, p, i) {
      assert Step(g, q, i);
    }
  }

  lemma {:induction false} ChildInUniverse(g: Graph, n: int, c: int)
    requires Edge(g, n, c)
    ensures c in Universe(g)
  {
    assert n in g && c in g[n];
  }

  /** A node may be listed once all its children are. */
  lemma {:induction false} OrderExtends(g: Graph, order: seq<int>, node: int)
    requires ChildrenFirst(g, order) && node !in order && forall c | c in Children(g, node) :: c in order
    ensures ChildrenFirst(g, order + [node]) && Elements(order + [node]) == Elements(order) + {node}
  {
    var longer := order + [node];
    forall k, c | 0 <= k < |longer| && Edge(g, longer[k], c) ensures c in longer[..k] {
      if k < |order| {
        assert longer[..k] == order[..k];
      } else {
        assert longer[..k] == order;
      }
    }
  }

  /** Along a path, positions in a children-first order go down. */
  lemma {:induction false} PathDescends(g: Graph, order: seq<int>, p: seq<int>, k: nat) returns (last: nat)
    requires ChildrenFirst(g, order) && IsPath(g, p) && |p| > 0 && k < |order| && order[k] == p[0]
    ensures last <= k && order[last] == p[|p| - 1] && (|p| > 1 ==> last < k)
    decreases |p|
  {
    if |p| == 1 {
      last := k;
    } else {
      assert Step(g, p, 0);
      assert p[1] in order[..k];
      var j :| 0 <= j < k && order[j] == p[1];
      assert IsPath(g, p[1..]) by {
        forall i | 0 <= i < |p[1..]| - 1 ensures Step(g, p[1..], i) {
          assert Step(g, p, i + 1);
        }
      }
      last := PathDescends(g, order, p[1..], j);
    }
  }

  /** A children-first order of all nodes excludes cycles. */
  lemma {:induction false} OrderedIsAcyclic(g: Graph, order: seq<int>)
    requires ChildrenFirst(g, order) && Covers(g, order)
    ensures !HasCycle(g)
  {
    forall p | IsCycle(g, p) ensures false {
      assert Step(g, p, 0);
      assert p[0] in order;
      var k :| 0 <= k < |order| && order[k] == p[0];
      var last := PathDescends(g, order, p, k);
    }
  }

  /** A node that is already on the path to `n` closes a cycle. */
  lemma {:induction false} ClosesCycle(g: Graph, stack: seq<int>, n: int)
    requires IsPath(g, stack) && n in stack && Edge(g, stack[|stack| - 1], n)
    ensures HasCycle(g)
  {
    var i :| 0 <= i < |stack| && stack[i] == n;
    var p := stack[i..] + [n];
    forall k | 0 <= k < |p| - 1 ensures Step(g, p, k) {
      if k < |p| - 2 {
        assert Step(g, stack, i + k);
      }
    }
    assert IsCycle(g, p);
  }

  /** A map of nodes that carries every edge to an edge carries cycles to cycles. */
  lemma {:induction false} CycleMaps(g: Graph, h: Graph, phi: map<int, int>)
    requires forall a, b | Edge(g, a, b) :: a in phi && b in phi && Edge(h, phi[a], phi[b])
    requires HasCycle(g)
    ensures HasCycle(h)
  {
    var p :| IsCycle(g, p);
    forall i | 0 <= i < |p| ensures p[i] in phi {
      if i < |p| - 1 {
        assert Step(g, p, i);
      } else {
        assert Step(g, p, i - 1);
      }
    }
    var q := seq(|p|, i requires 0 <= i < |p| => phi[p[i]]);
    forall i | 0 <= i < |q| - 1 ensures Step(h, q, i) {
      assert Step(g, p, i);
    }
    assert IsCycle(h, q);
  }

  /** A rank that decreases along every edge excludes cycles. */
  lemma {:induction false} RankedIsAcyclic(g: Graph, rank: map<int, int>)
    requires forall a, b | Edge(g, a, b) :: a in rank && b in rank && rank[b] < rank[a]
    ensures !HasCycle(g)
  {
    forall p | IsCycle(g, p) ensures false {
      RankDescends(g, rank, p);
    }
  }

  lemma {:induction false} RankDescends(g: Graph, rank: map<int, int>, p: seq<int>)
    requires forall a, b | Edge(g, a, b) :: a in rank && b in rank && rank[b] < rank[a]
    requires IsPath(g, p) && |p| >= 2
    ensures p[0] in rank && p[|p| - 1] in rank && rank[p[|p| - 1]] < rank[p[0]]
    decreases |p|
  {
    assert Step(g, p, 0);
    if |p| > 2 {
      assert IsPath(g, p[1..]) by {
        forall i | 0 <= i < |p[1..]| - 1 ensures Step(g, p[1..], i) {
          assert Step(g, p, i + 1);
        }
      }
      RankDescends(g, rank, p[1..]);
    }
  }
}
