/** Which ids a renumbering hands out, without running it. */
module FreshIds {
  import opened Json
  import opened Graphs
  import opened PlanStructure
  import opened Renumbering

  /** The `n` least naturals outside `used`. */
  function Fresh(used: set<int>, n: nat): set<int>
    decreases n
  {
    if n == 0 then {} else {NextFree(0, used)} + Fresh(used + {NextFree(0, used)}, n - 1)
  }

  lemma {:induction false} FreshAreFree(used: set<int>, n: nat)
    ensures forall x | x in Fresh(used, n) :: 0 <= x && x !in used
    decreases n
  {
    if n > 0 {
      FreshAreFree(used + {NextFree(0, used)}, n - 1);
    }
  }

  lemma {:induction false} FreshCount(used: set<int>, n: nat)
    ensures |Fresh(used, n)| == n
    decreases n
  {
    if n > 0 {
      var least := NextFree(0, used);
      FreshCount(used + {least}, n - 1);
      FreshAreFree(used + {least}, n - 1);
      OneMore(Fresh(used + {least}, n - 1), least);
    }
  }

  lemma {:induction false} OneMore<T>(s: set<T>, x: T)
    requires x !in s
    ensures |{x} + s| == |s| + 1
  {
    assert {x} + s == s + {x};
  }

  lemma {:induction false} FreshBelow(used: set<int>, n: nat, x: int, y: nat)
    requires x in Fresh(used, n) && y !in used && y !in Fresh(used, n)
    ensures x < y
    decreases n
  {
    var least := NextFree(0, used);
    if x != least {
      FreshBelow(used + {least}, n - 1, x, y);
    }
  }

  /** They are `n` naturals outside `used`, and every other natural outside it is greater. */
  lemma {:induction false} FreshAreLeast(used: set<int>, n: nat)
    ensures |Fresh(used, n)| == n
    ensures forall x | x in Fresh(used, n) :: 0 <= x && x !in used
    ensures forall x, y: nat | x in Fresh(used, n) && y !in used && y !in Fresh(used, n) :: x < y
  {
    FreshCount(used, n);
    FreshAreFree(used, n);
    forall x, y: nat | x in Fresh(used, n) && y !in used && y !in Fresh(used, n) ensures x < y {
      FreshBelow(used, n, x, y);
    }
  }

  lemma {:induction false} NextFreeUnique(used: set<int>, more: set<int>)
    requires used <= more && NextFree(0, used) !in more
    ensures NextFree(0, more) == NextFree(0, used)
  {
    assert NextFree(0, more) !in used;
  }

  // ----- One assignment: `q` are the ids to come, `u` the ids in use -----

  /** The id is free and kept. */
  lemma {:induction false} Kept<T>(q: set<T>, u: set<T>, o: T)
    requires o in q && o !in u
    ensures (q - {o}) + (u + {o}) == q + u
    ensures (q - {o}) * (u + {o}) == q * u
    ensures (q - {o}) - (u + {o}) + {o} == q - u
  {}

  /** The id is in use, and its node gets an id that a later node has. */
  lemma {:induction false} MovedOnto<T>(q: set<T>, u: set<T>, o: T, x: T)
    requires o in q && o in u && x !in u && x in q
    ensures (q - {o}) + (u + {x}) == q + u
    ensures |(q - {o}) * (u + {x})| == |q * u|
    ensures (q - {o}) - (u + {x}) + {x} == q - u
  {
    assert (q - {o}) * (u + {x}) == (q * u - {o}) + {x};
  }

  /** The id is in use, and its node gets an id that no node has. */
  lemma {:induction false} MovedOff<T>(q: set<T>, u: set<T>, o: T, x: T)
    requires o in q && o in u && x !in u && x !in q
    ensures (q - {o}) + (u + {x}) == q + u + {x}
    ensures |(q - {o}) * (u + {x})| == |q * u| - 1
    ensures (q - {o}) - (u + {x}) == q - u
  {
    assert (q - {o}) * (u + {x}) == q * u - {o};
  }

  /** The ids that are added for the ids `q` when `u` are in use. */
  function Added(q: set<int>, u: set<int>): set<int> {
    (q - u) + Fresh(q + u, |q * u|)
  }

  lemma {:induction false} AddedKept(q: set<int>, u: set<int>, o: int)
    requires o in q && o !in u
    ensures {o} + Added(q - {o}, u + {o}) == Added(q, u)
  {
    Kept(q, u, o);
    Regroup({o}, (q - {o}) - (u + {o}), Fresh(q + u, |q * u|));
  }

  lemma {:induction false} Regroup<T>(a: set<T>, b: set<T>, c: set<T>)
    ensures a + (b + c) == (b + a) + c
  {}

  lemma {:induction false} AddedMoved(q: set<int>, u: set<int>, o: int)
    requires o in q && o in u
    ensures {NextFree(0, u)} + Added(q - {o}, u + {NextFree(0, u)}) == Added(q, u)
  {
    var x := NextFree(0, u);
    if x in q {
      MovedOnto(q, u, o, x);
      Regroup({x}, (q - {o}) - (u + {x}), Fresh(q + u, |q * u|));
    } else {
      MovedOff(q, u, o, x);
      NextFreeUnique(u, q + u);
      NonEmptyIntersection(q, u, o);
      Regroup3({x}, q - u, Fresh(q + u + {x}, |q * u| - 1));
    }
  }

  lemma {:induction false} Regroup3<T>(a: set<T>, b: set<T>, c: set<T>)
    ensures a + (b + c) == b + (a + c)
  {}

  lemma {:induction false} NonEmptyIntersection<T>(q: set<T>, u: set<T>, o: T)
    requires o in q && o in u
    ensures |q * u| > 0
  {
    assert o in q * u;
  }

  lemma {:induction false} RestElements(order: seq<int>)
    requires Distinct(order) && order != []
    ensures Elements(order[1..]) == Elements(order) - {order[0]} && order[0] in Elements(order)
  {
    RestDistinct(order);
    WithoutHead(order[0], Elements(order[1..]));
  }

  lemma {:induction false} WithoutHead<T>(o: T, rest: set<T>)
    requires o !in rest
    ensures {o} + rest - {o} == rest
  {}

  lemma {:induction false} AssignValues(order: seq<int>, used: set<int>, m: map<int, int>)
    requires Distinct(order) && m.Keys !! Elements(order) && m.Values <= used
    ensures Assign(order, used, m).Values == m.Values + Added(Elements(order), used)
    decreases |order|
  {
    if order == [] {
      assert Elements(order) == {};
      assert Added({}, used) == {};
    } else {
      var o, nid := order[0], NewId(order[0], used, m);
      RestDistinct(order);
      RestElements(order);
      ValuesAfterUpdate(m, o, nid);
      AssignValues(order[1..], used + {nid}, m[o := nid]);
      if o in used {
        AddedMoved(Elements(order), used, o);
      } else {
        AddedKept(Elements(order), used, o);
      }
      Regroup4(m.Values, {nid}, Added(Elements(order[1..]), used + {nid}));
    }
  }

  lemma {:induction false} Regroup4<T>(a: set<T>, b: set<T>, c: set<T>)
    ensures (a + b) + c == a + (b + c)
  {}

  /** The fresh ids of a plan: one for every node id that is reserved. */
  function FreshFor(plan: seq<Field>, reserved: set<int>): set<int> {
    Fresh(NodeIds(plan) + reserved, |NodeIds(plan) * reserved|)
  }

  /**
    The new ids in closed form: the node ids that are not reserved, and as many
    of the least naturals that are neither node ids nor reserved as node ids are
    reserved.
   */
  lemma {:induction false} RenumberedIds(plan: seq<Field>, reserved: set<int>)
    ensures Renumber(plan, reserved).Values == (NodeIds(plan) - reserved) + FreshFor(plan, reserved)
  {
    TopoOrderIsPermutation(plan);
    AssignValues(TopoOrder(plan), reserved, map[]);
  }
}
