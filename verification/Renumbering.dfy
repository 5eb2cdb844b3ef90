/** Fresh node ids that avoid the scan ids of the target scale: `_assign_new_node_ids`. */
module Renumbering {
  import opened Json
  import opened Graphs
  import opened PlanStructure
  import opened ScanMatching

  function AtLeast(used: set<int>, x: int): set<int> {
    set u | u in used && u >= x
  }

  lemma {:induction false} AtLeastShrinks(used: set<int>, x: int)
    requires x in used
    ensures AtLeast(used, x + 1) < AtLeast(used, x)
  {
    assert x in AtLeast(used, x) && x !in AtLeast(used, x + 1);
  }

  /** The least free id from `start` on. */
  function NextFree(start: nat, used: set<int>): (x: nat)
    ensures start <= x && x !in used
    ensures forall y | start <= y < x :: y in used
    decreases AtLeast(used, start)
  {
    if start !in used then start
    else
      AtLeastShrinks(used, start);
      NextFree(start + 1, used)
  }

  /** The loop of `next_free`. */
  method FindNextFree(start: nat, used: set<int>) returns (x: nat)
    ensures x == NextFree(start, used)
  {
    x := start;
    while x in used
      invariant NextFree(start, used) == NextFree(x, used)
      decreases AtLeast(used, x)
    {
      AtLeastShrinks(used, x);
      x := x + 1;
    }
  }

  /** The new id of one node: its own if that is free, else the least free one. */
  function NewId(oid: int, used: set<int>, m: map<int, int>): int {
    if oid !in used && oid !in m.Values then oid else NextFree(0, used)
  }

  function Assign(order: seq<int>, used: set<int>, m: map<int, int>): map<int, int>
    decreases |order|
  {
    if order == [] then m
    else
      var nid := NewId(order[0], used, m);
      Assign(order[1..], used + {nid}, m[order[0] := nid])
  }

  /** `_assign_new_node_ids` as a function of the plan and the reserved ids. */
  function Renumber(plan: seq<Field>, reserved: set<int>): map<int, int> {
    Assign(TopoOrder(plan), reserved, map[])
  }

  /** The loop over the traversal, which updates `used` and `mapping`. */
  method AssignInOrder(traversal: seq<int>, reserved: set<int>) returns (mapping: map<int, int>)
    ensures mapping == Assign(traversal, reserved, map[])
  {
    var used: set<int> := reserved;
    mapping := map[];
    var i := 0;
    while i < |traversal|
      invariant 0 <= i <= |traversal|
      invariant Assign(traversal, reserved, map[]) == Assign(traversal[i..], used, mapping)
    {
      var oid, nid := traversal[i], 0;
      if oid !in used && oid !in mapping.Values {
        nid := oid;
      } else {
        nid := FindNextFree(0, used);
      }
      mapping := mapping[oid := nid];
      used := used + {nid};
      i := i + 1;
    }
  }

  /** `_assign_new_node_ids`. */
  method AssignNewNodeIds(plan: seq<Field>, reserved: set<int>) returns (mapping: map<int, int>)
    ensures mapping == Renumber(plan, reserved)
  {
    var traversal := TopoOrderFromRoots(plan);
    mapping := AssignInOrder(traversal, reserved);
  }

  lemma {:induction false} ValuesAfterUpdate(m: map<int, int>, k: int, v: int)
    requires k !in m
    ensures m[k := v].Values == m.Values + {v}
  {
    var m' := m[k := v];
    assert m'[k] == v;
    assert forall x | x in m :: m'[x] == m[x];
  }

  /** Mapped so far injectively to ids outside `reserved`. */
  ghost predicate Avoids(m: map<int, int>, reserved: set<int>) {
    Injective(m) && m.Values !! reserved
  }

  /** The rest of a duplicate-free list without its first element. */
  lemma {:induction false} RestDistinct(order: seq<int>)
    requires Distinct(order) && order != []
    ensures Distinct(order[1..]) && order[0] !in order[1..]
    ensures Elements(order) == {order[0]} + Elements(order[1..])
  {
    assert forall k | 0 <= k < |order[1..]| :: order[1..][k] == order[k + 1];
  }

  lemma {:induction false} AssignAvoids(order: seq<int>, used: set<int>, m: map<int, int>, reserved: set<int>)
    requires Distinct(order) && m.Keys !! Elements(order)
    requires Avoids(m, reserved) && reserved <= used && m.Values <= used
    ensures Assign(order, used, m).Keys == m.Keys + Elements(order)
    ensures Avoids(Assign(order, used, m), reserved)
    decreases |order|
  {
    if order != [] {
      var nid := NewId(order[0], used, m);
      RestDistinct(order);
      ValuesAfterUpdate(m, order[0], nid);
      assert nid !in used;
      assert Injective(m[order[0] := nid]) by {
        forall i | i in m ensures m[i] in m.Values {}
      }
      assert order[0] !in Elements(order[1..]);
      AssignAvoids(order[1..], used + {nid}, m[order[0] := nid], reserved);
    }
  }

  lemma {:induction false} AssignNonNegative(order: seq<int>, used: set<int>, m: map<int, int>)
    requires (forall o | o in order :: 0 <= o) && forall o | o in m :: 0 <= m[o]
    ensures forall o | o in Assign(order, used, m) :: 0 <= Assign(order, used, m)[o]
    decreases |order|
  {
    if order != [] {
      assert order[0] in order && forall o | o in order[1..] :: o in order;
      var nid := NewId(order[0], used, m);
      AssignNonNegative(order[1..], used + {nid}, m[order[0] := nid]);
    }
  }

  lemma {:induction false} AssignExtends(order: seq<int>, used: set<int>, m: map<int, int>)
    requires Distinct(order) && m.Keys !! Elements(order)
    ensures forall o | o in m :: o in Assign(order, used, m) && Assign(order, used, m)[o] == m[o]
    decreases |order|
  {
    if order != [] {
      RestDistinct(order);
      var nid := NewId(order[0], used, m);
      AssignExtends(order[1..], used + {nid}, m[order[0] := nid]);
    }
  }

  lemma {:induction false} AssignKeeps(order: seq<int>, used: set<int>, m: map<int, int>)
    requires Distinct(order) && m.Keys !! Elements(order) && m.Values <= used && used !! Elements(order)
    ensures forall o | o in order :: o in Assign(order, used, m) && Assign(order, used, m)[o] == o
    decreases |order|
  {
    if order != [] {
      var oid := order[0];
      RestDistinct(order);
      ValuesAfterUpdate(m, oid, oid);
      assert oid in Elements(order);
      assert NewId(oid, used, m) == oid;
      AssignKeeps(order[1..], used + {oid}, m[oid := oid]);
      AssignExtends(order[1..], used + {oid}, m[oid := oid]);
    }
  }

  lemma {:induction false} NodeIdsNonNegative(plan: seq<Field>)
    ensures forall o | o in NodeIds(plan) :: 0 <= o
  {
    forall o | o in NodeIds(plan) ensures 0 <= o {
      var i := PositionOfNode(plan, o);
    }
  }

  lemma {:induction false} AssignFromNone(order: seq<int>, reserved: set<int>)
    requires Distinct(order) && forall o | o in Elements(order) :: 0 <= o
    ensures
      var m := Assign(order, reserved, map[]);
      m.Keys == Elements(order) && Avoids(m, reserved) && forall o | o in m :: 0 <= m[o]
  {
    AssignAvoids(order, reserved, map[], reserved);
    assert forall o | o in order :: o in Elements(order);
    AssignNonNegative(order, reserved, map[]);
  }

  /** Renumbering is total on the node ids, injective, and avoids every reserved id. */
  lemma {:induction false} RenumberAvoids(plan: seq<Field>, reserved: set<int>)
    ensures Renumber(plan, reserved).Keys == NodeIds(plan)
    ensures Injective(Renumber(plan, reserved))
    ensures Renumber(plan, reserved).Values !! reserved
    ensures forall o | o in Renumber(plan, reserved) :: 0 <= Renumber(plan, reserved)[o]
  {
    TopoOrderIsPermutation(plan);
    NodeIdsNonNegative(plan);
    AssignFromNone(TopoOrder(plan), reserved);
  }

  /** Every node keeps its id if and only if no node id is a reserved id. */
  lemma {:induction false} RenumberIdentityIff(plan: seq<Field>, reserved: set<int>)
    ensures Renumber(plan, reserved).Keys == NodeIds(plan)
    ensures (forall o | o in NodeIds(plan) :: Renumber(plan, reserved)[o] == o) <==> NodeIds(plan) !! reserved
  {
    RenumberAvoids(plan, reserved);
    TopoOrderIsPermutation(plan);
    var order := TopoOrder(plan);
    var m := Renumber(plan, reserved);
    if NodeIds(plan) !! reserved {
      AssignKeeps(order, reserved, map[]);
      forall o | o in NodeIds(plan) ensures m[o] == o {
        assert o in Elements(order);
      }
    }
    if forall o | o in NodeIds(plan) :: m[o] == o {
      forall o | o in NodeIds(plan) ensures o !in reserved {
        assert m[o] in m.Values;
      }
    }
  }
}
