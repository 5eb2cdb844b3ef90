/** `validate_execution_plan_graph`: the white, gray and black depth-first search of physical_plan.rs. */
module CycleCheck {
  import opened Graphs

  /** Gray nodes form a path, and black nodes were finished after all their children. */
  ghost predicate Coherent(g: Graph, gray: set<int>, black: set<int>, stack: seq<int>, finished: seq<int>) {
    && gray == Elements(stack) && Distinct(stack) && IsPath(g, stack)
    && black == Elements(finished) && ChildrenFirst(g, finished)
    && gray !! black
  }

  lemma {:induction false} Enter(g: Graph, gray: set<int>, black: set<int>, stack: seq<int>, finished: seq<int>, node: int)
    requires Coherent(g, gray, black, stack, finished) && node !in gray && node !in black
    requires stack != [] ==> Edge(g, stack[|stack| - 1], node)
    ensures Coherent(g, gray + {node}, black, stack + [node], finished)
  {
    PathExtends(g, stack, node);
    assert forall k | 0 <= k < |stack| :: stack[k] in Elements(stack);
  }

  lemma {:induction false} Leave(g: Graph, gray: set<int>, black: set<int>, stack: seq<int>, finished: seq<int>, node: int)
    requires Coherent(g, gray + {node}, black, stack + [node], finished) && gray == Elements(stack) && node !in gray
    requires forall c | c in Children(g, node) :: c in black
    ensures Coherent(g, gray, black + {node}, stack, finished + [node])
  {
    PathPrefix(g, stack, node);
    assert forall c | c in Children(g, node) :: c in Elements(finished);
    assert node !in Elements(finished) && node !in finished;
    OrderExtends(g, finished, node);
    forall i, j | 0 <= i < j < |stack| ensures stack[i] != stack[j] {
      assert (stack + [node])[i] != (stack + [node])[j];
    }
  }

  lemma {:induction false} GrayIsOnStack(g: Graph, gray: set<int>, black: set<int>, stack: seq<int>, finished: seq<int>, node: int)
    requires Coherent(g, gray, black, stack, finished) && node in gray
    requires stack != [] ==> Edge(g, stack[|stack| - 1], node)
    ensures HasCycle(g)
  {
    ClosesCycle(g, stack, node);
  }

  class CycleDetector {
    var currentlyVisiting: set<int>
    var completelyVisited: set<int>
    ghost var stack: seq<int>     // the gray nodes, from the start to the current node
    ghost var finished: seq<int>  // the black nodes, in order of completion

    constructor ()
      ensures currentlyVisiting == {} && completelyVisited == {} && stack == [] && finished == []
    {
      currentlyVisiting, completelyVisited := {}, {};
      stack, finished := [], [];
    }

    ghost predicate Valid(g: Graph)
      reads this
    {
      Coherent(g, currentlyVisiting, completelyVisited, stack, finished)
    }

    /** `detect_cycle_from_node`; false is the error return. */
    method DetectFrom(g: Graph, node: int) returns (ok: bool)
      requires Valid(g) && node in Universe(g)
      requires stack != [] ==> Edge(g, stack[|stack| - 1], node)
      modifies this
      ensures ok ==> Valid(g) && stack == old(stack) && old(finished) <= finished
      ensures ok ==> currentlyVisiting == old(currentlyVisiting) && old(completelyVisited) + {node} <= completelyVisited
      ensures !ok ==> HasCycle(g)
      decreases Universe(g) - currentlyVisiting, 0
    {
      if node in currentlyVisiting {
        GrayIsOnStack(g, currentlyVisiting, completelyVisited, stack, finished, node);
        return false;
      }
      if node in completelyVisited {
        return true;
      }
      Enter(g, currentlyVisiting, completelyVisited, stack, finished, node);
      ghost var gray, path := currentlyVisiting, stack;
      currentlyVisiting := currentlyVisiting + {node};
      stack := stack + [node];
      ok := DetectFromEach(g, node, Children(g, node));
      if ok {
        Leave(g, gray, completelyVisited, path, finished, node);
        currentlyVisiting := currentlyVisiting - {node};
        completelyVisited := completelyVisited + {node};
        stack, finished := path, finished + [node];
      }
    }

    /** The loop over the children of the current node. */
    method DetectFromEach(g: Graph, node: int, childIds: seq<int>) returns (ok: bool)
      requires Valid(g) && stack != [] && stack[|stack| - 1] == node && childIds == Children(g, node)
      modifies this
      ensures ok ==> Valid(g) && stack == old(stack) && old(finished) <= finished
      ensures ok ==> currentlyVisiting == old(currentlyVisiting) && old(completelyVisited) <= completelyVisited
      ensures ok ==> forall c | c in childIds :: c in completelyVisited
      ensures !ok ==> HasCycle(g)
      decreases Universe(g) - currentlyVisiting, 1
    {
      var i := 0;
      while i < |childIds|
        invariant 0 <= i <= |childIds|
        invariant Valid(g) && stack == old(stack) && old(finished) <= finished
        invariant currentlyVisiting == old(currentlyVisiting) && old(completelyVisited) <= completelyVisited
        invariant forall k | 0 <= k < i :: childIds[k] in completelyVisited
      {
        assert childIds[i] in Children(g, node);
        ChildInUniverse(g, node, childIds[i]);
        ok := DetectFrom(g, childIds[i]);
        if !ok {
          return;
        }
        i := i + 1;
      }
      ok := true;
    }
  }

  /**
    The check accepts exactly the graphs without a directed cycle: disconnected
    ones, self-loops and children without an entry included, whatever the order
    `keys` in which the hash map enumerates its entries.
   */
  method ValidateExecutionPlanGraph(g: Graph, keys: seq<int>) returns (ok: bool)
    requires Elements(keys) == g.Keys
    ensures ok <==> !HasCycle(g)
  {
    var detector := new CycleDetector();
    var i := 0;
    while i < |keys|
      invariant 0 <= i <= |keys|
      invariant detector.Valid(g) && detector.stack == [] && fresh(detector)
      invariant forall k | 0 <= k < i :: keys[k] in detector.completelyVisited
    {
      if keys[i] !in detector.completelyVisited {
        assert keys[i] in Elements(keys);
        var found := detector.DetectFrom(g, keys[i]);
        if !found {
          return false;
        }
      }
      i := i + 1;
    }
    assert forall n | n in g :: n in Elements(keys);
    OrderedIsAcyclic(g, detector.finished);
    return true;
  }
}
