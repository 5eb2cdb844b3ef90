/** The depth-first post-order traversal of `_topo_order_from_roots`. */
module Traversal {
  import opened Graphs

  /** The two variables that the nested `dfs` updates. */
  datatype Walk = Walk(visited: set<int>, order: seq<int>)

  function Visit(g: Graph, n: int, w: Walk): (r: Walk)
    requires n in Universe(g)
    ensures w.visited <= r.visited
    decreases Universe(g) - w.visited, 0
  {
    if n in w.visited then w
    else
      var inner := VisitAll(g, Children(g, n), Walk(w.visited + {n}, w.order));
      Walk(inner.visited, inner.order + [n])
  }

  function VisitAll(g: Graph, ns: seq<int>, w: Walk): (r: Walk)
    requires forall n | n in ns :: n in Universe(g)
    ensures w.visited <= r.visited
    decreases Universe(g) - w.visited, 1 + |ns|
  {
    if ns == [] then w else VisitAll(g, ns[1..], Visit(g, ns[0], w))
  }

  /** The finished order of a traversal that starts from `starts` in turn. */
  function PostOrder(g: Graph, starts: seq<int>): seq<int>
    requires forall n | n in starts :: n in Universe(g)
  {
    VisitAll(g, starts, Walk({}, [])).order
  }

  // ----- The imperative traversal -----

  class DepthFirst {
    var visited: set<int>
    var order: seq<int>

    constructor ()
      ensures visited == {} && order == []
    {
      visited, order := {}, [];
    }

    /** The nested function `dfs`. */
    method Dfs(g: Graph, n: int)
      requires n in Universe(g)
      modifies this
      ensures Walk(visited, order) == Visit(g, n, Walk(old(visited), old(order)))
      decreases Universe(g) - visited, 0
    {
      if n in visited {
        return;
      }
      visited := visited + {n};
      var children := Children(g, n);
      DfsEach(g, children);
      order := order + [n];
    }

    /** A loop that calls `dfs` on each id of a list. */
    method DfsEach(g: Graph, ns: seq<int>)
      requires forall n | n in ns :: n in Universe(g)
      modifies this
      ensures Walk(visited, order) == VisitAll(g, ns, Walk(old(visited), old(order)))
      decreases Universe(g) - visited, 1
    {
      var i := 0;
      while i < |ns|
        invariant 0 <= i <= |ns|
        invariant old(visited) <= visited
        invariant VisitAll(g, ns, Walk(old(visited), old(order))) == VisitAll(g, ns[i..], Walk(visited, order))
      {
        Dfs(g, ns[i]);
        i := i + 1;
      }
    }
  }

  // ----- What a traversal guarantees -----

  /** The ids begun and not finished are exactly the path from a start to the current node. */
  ghost predicate Consistent(g: Graph, w: Walk, stack: seq<int>) {
    && Distinct(stack) && Distinct(w.order)
    && IsPath(g, stack)
    && w.visited == Elements(stack) + Elements(w.order)
    && Elements(stack) !! Elements(w.order)
    && (!HasCycle(g) ==> ChildrenFirst(g, w.order))
  }

  lemma {:induction false} VisitKeeps(g: Graph, n: int, w: Walk, stack: seq<int>)
    requires n in Universe(g) && Consistent(g, w, stack)
    requires stack != [] ==> Edge(g, stack[|stack| - 1], n)
    ensures Consistent(g, Visit(g, n, w), stack)
    ensures n in Visit(g, n, w).visited
    ensures w.order <= Visit(g, n, w).order
    ensures !HasCycle(g) ==> n in Visit(g, n, w).order
    ensures Visit(g, n, w).visited <= w.visited + Universe(g)
    decreases Universe(g) - w.visited, 0
  {
    if n in w.visited {
      if n in stack {
        ClosesCycle(g, stack, n);
      }
    } else {
      var stack' := stack + [n];
      var begun := Walk(w.visited + {n}, w.order);
      PathExtends(g, stack, n);
      var ns := Children(g, n);
      VisitAllKeeps(g, ns, begun, stack');
      var inner := VisitAll(g, ns, begun);
      var order' := inner.order + [n];
      assert n in stack' && n !in inner.order by {
        assert stack'[|stack|] == n;
        assert n in Elements(stack');
      }
      assert Elements(order') == Elements(inner.order) + {n};
      if !HasCycle(g) {
        OrderExtends(g, inner.order, n);
      }
    }
  }

  lemma {:induction false} VisitAllKeeps(g: Graph, ns: seq<int>, w: Walk, stack: seq<int>)
    requires (forall n | n in ns :: n in Universe(g)) && Consistent(g, w, stack)
    requires forall n | n in ns && stack != [] :: Edge(g, stack[|stack| - 1], n)
    ensures Consistent(g, VisitAll(g, ns, w), stack)
    ensures forall n | n in ns :: n in VisitAll(g, ns, w).visited
    ensures w.order <= VisitAll(g, ns, w).order
    ensures !HasCycle(g) ==> forall n | n in ns :: n in VisitAll(g, ns, w).order
    ensures VisitAll(g, ns, w).visited <= w.visited + Universe(g)
    decreases Universe(g) - w.visited, 1 + |ns|
  {
    if ns != [] {
      assert ns[0] in ns && forall n | n in ns[1..] :: n in ns;
      VisitKeeps(g, ns[0], w, stack);
      VisitAllKeeps(g, ns[1..], Visit(g, ns[0], w), stack);
      assert forall n | n in ns :: n == ns[0] || n in ns[1..];
    }
  }

  /** The children of every finished node were visited. */
  ghost predicate ChildrenVisited(g: Graph, w: Walk) {
    forall n, c | n in w.order && c in Children(g, n) :: c in w.visited
  }

  lemma {:induction false} VisitReachesChildren(g: Graph, n: int, w: Walk)
    requires n in Universe(g) && ChildrenVisited(g, w)
    ensures ChildrenVisited(g, Visit(g, n, w)) && n in Visit(g, n, w).visited
    decreases Universe(g) - w.visited, 0
  {
    if n !in w.visited {
      VisitAllReachesChildren(g, Children(g, n), Walk(w.visited + {n}, w.order));
    }
  }

  lemma {:induction false} VisitAllReachesChildren(g: Graph, ns: seq<int>, w: Walk)
    requires (forall n | n in ns :: n in Universe(g)) && ChildrenVisited(g, w)
    ensures ChildrenVisited(g, VisitAll(g, ns, w))
    ensures forall n | n in ns :: n in VisitAll(g, ns, w).visited
    decreases Universe(g) - w.visited, 1 + |ns|
  {
    if ns != [] {
      assert ns[0] in ns && forall n | n in ns[1..] :: n in ns;
      VisitReachesChildren(g, ns[0], w);
      VisitAllReachesChildren(g, ns[1..], Visit(g, ns[0], w));
      assert forall n | n in ns :: n == ns[0] || n in ns[1..];
    }
  }

  /** A traversal started from every node lists every node and child, exactly once. */
  lemma {:induction false} PostOrderIsPermutation(g: Graph, starts: seq<int>)
    requires forall n | n in starts :: n in Universe(g)
    requires g.Keys <= Elements(starts)
    ensures Distinct(PostOrder(g, starts))
    ensures Elements(PostOrder(g, starts)) == Universe(g)
  {
    VisitAllKeeps(g, starts, Walk({}, []), []);
    VisitAllReachesChildren(g, starts, Walk({}, []));
    var w := VisitAll(g, starts, Walk({}, []));
    assert Elements([]) == {} && w.visited == Elements(w.order);
    forall n | n in g.Keys ensures n in w.visited {
      assert n in Elements(starts);
    }
    forall c | c in Universe(g) ensures c in w.visited {
      if c !in g {
        var n :| n in g && c in g[n];
        assert n in Elements(w.order) && c in Children(g, n);
      }
    }
  }

  /** The traversal is a topological order exactly when the plan has no cycle. */
  lemma {:induction false} ChildrenFirstIffAcyclic(g: Graph, starts: seq<int>)
    requires forall n | n in starts :: n in Universe(g)
    requires g.Keys <= Elements(starts)
    ensures ChildrenFirst(g, PostOrder(g, starts)) <==> !HasCycle(g)
  {
    VisitAllKeeps(g, starts, Walk({}, []), []);
    PostOrderIsPermutation(g, starts);
    if ChildrenFirst(g, PostOrder(g, starts)) {
      OrderedIsAcyclic(g, PostOrder(g, starts));
    }
  }
}
