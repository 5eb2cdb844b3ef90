/**
  The tree of sampled plans of one query: the root of `prepare_sampling`, the
  growth step of `accumulate_samples`, and the ancestor walks of `sample_plans`.
 */
module SampleTree {
  import opened Basics
  import opened Json

  /** A list of JSON Patch operations. */
  type Patch = seq<Json>

  /** A measurement: the patch list of the plan it was taken on, and its readings by metric path. */
  datatype Stats = Stats(measuredOn: Patch, metrics: map<string, real>)

  datatype Node = Node(
    id: Option<nat>, parent: Option<nat>, patches: Option<Patch>, valid: bool, stats: Option<Stats>,
    isLast: bool, isLeaf: bool)

  /** A sampled plan before it joins the tree. */
  datatype Sample = Sample(
    parent: Option<nat>, upstream: Patch, upstreamStats: Option<Stats>,
    patches: Option<Patch>, valid: bool, stats: Option<Stats>)

  // ----- Shape -----

  function ParentAt(n: Node): nat {
    if n.parent.None? then 0 else n.parent.value
  }

  /** A sample below the root is stored at the position that is its id, and points to an earlier node. */
  predicate IsChild(nodes: seq<Node>, k: nat)
    requires k < |nodes|
  {
    && nodes[k].id == Some(k) && nodes[k].parent != Some(0) && ParentAt(nodes[k]) < k
    && (nodes[k].valid ==> nodes[k].patches.Some?)
  }

  predicate IsRoot(n: Node) {
    n.id.None? && n.parent.None? && n.valid
  }

  /** The shape of every sample tree: the original plan first, then the samples in the order of their ids. */
  predicate IsTree(nodes: seq<Node>) {
    nodes != [] && IsRoot(nodes[0]) && forall k | 0 < k < |nodes| :: IsChild(nodes, k)
  }

  /** `sampleid2sampleidx`. */
  function Positions(nodes: seq<Node>): map<Option<nat>, nat> {
    if nodes == [] then map[]
    else Positions(nodes[..|nodes| - 1])[nodes[|nodes| - 1].id := |nodes| - 1]
  }

  /** The position of the node with this id. */
  function PositionOfId(id: Option<nat>): nat {
    if id.None? then 0 else id.value
  }

  predicate HasId(nodes: seq<Node>, id: Option<nat>) {
    id.None? || 0 < id.value < |nodes|
  }

  lemma {:induction false} RootIsFirst(nodes: seq<Node>, k: nat)
    requires IsTree(nodes) && k < |nodes|
    ensures nodes[k].id.None? <==> k == 0
  {
    assert k == 0 || IsChild(nodes, k);
  }

  lemma {:induction false} PrefixIsTree(nodes: seq<Node>, n: nat)
    requires IsTree(nodes) && 0 < n <= |nodes|
    ensures IsTree(nodes[..n])
  {
    forall k | 0 < k < n ensures IsChild(nodes[..n], k) {
      assert IsChild(nodes, k);
    }
  }

  /** Ids are unique: the map finds every node at its own position, and nothing else. */
  lemma {:induction false} PositionsAre(nodes: seq<Node>)
    requires IsTree(nodes)
    ensures forall id :: id in Positions(nodes) <==> HasId(nodes, id)
    ensures forall id | id in Positions(nodes) :: Positions(nodes)[id] == PositionOfId(id)
    decreases |nodes|
  {
    var last := |nodes| - 1;
    if last == 0 {
      assert Positions(nodes[..0]) == map[];
    } else {
      assert IsChild(nodes, last);
      PrefixIsTree(nodes, last);
      PositionsAre(nodes[..last]);
    }
  }

  // ----- Ancestor walks -----

  /** The patches from the root to a node, those of invalid nodes left out; `force` keeps the node's own. */
  function Upstream(nodes: seq<Node>, k: nat, force: bool): Patch
    requires IsTree(nodes) && k < |nodes| && (force && k > 0 ==> nodes[k].patches.Some?)
    decreases k
  {
    if k == 0 then []
    else
      assert IsChild(nodes, k);
      Upstream(nodes, ParentAt(nodes[k]), false) + (if force || nodes[k].valid then nodes[k].patches.value else [])
  }

  /** The nearest valid node on the way to the root, the node itself included. */
  function NearestValid(nodes: seq<Node>, k: nat): (a: nat)
    requires IsTree(nodes) && k < |nodes|
    ensures a <= k && nodes[a].valid
    decreases k
  {
    if k == 0 || nodes[k].valid then k
    else
      assert IsChild(nodes, k);
      NearestValid(nodes, ParentAt(nodes[k]))
  }

  /** Skipping invalid nodes loses no patches. */
  lemma {:induction false} NearestValidUpstream(nodes: seq<Node>, k: nat)
    requires IsTree(nodes) && k < |nodes|
    ensures Upstream(nodes, k, false) == Upstream(nodes, NearestValid(nodes, k), false)
    decreases k
  {
    if k > 0 && !nodes[k].valid {
      assert IsChild(nodes, k);
      NearestValidUpstream(nodes, ParentAt(nodes[k]));
    }
  }

  /** The patch lists on a stack, the last one first. */
  function FlattenReversed(stack: seq<Patch>): Patch {
    if stack == [] then [] else FlattenReversed(stack[1..]) + stack[0]
  }

  lemma {:induction false} PushFlattens(stack: seq<Patch>, p: Patch)
    ensures FlattenReversed(stack + [p]) == p + FlattenReversed(stack)
  {
    if stack == [] {
      assert [p][1..] == [];
    } else {
      assert (stack + [p])[0] == stack[0] && (stack + [p])[1..] == stack[1..] + [p];
      PushFlattens(stack[1..], p);
    }
  }

  /** `get_upstream_patches`. */
  method GetUpstreamPatches(nodes: seq<Node>, k: nat, mustApplyCurrent: bool) returns (patches: Patch)
    requires IsTree(nodes) && k < |nodes| && (mustApplyCurrent && k > 0 ==> nodes[k].patches.Some?)
    ensures patches == Upstream(nodes, k, mustApplyCurrent)
  {
    PositionsAre(nodes);
    var positions := Positions(nodes);
    var stack: seq<Patch>, info, must := [], nodes[k], mustApplyCurrent;
    ghost var at: nat := k;
    while info.id.Some?
      invariant at < |nodes| && info == nodes[at]
      invariant must && at > 0 ==> info.patches.Some?
      invariant Upstream(nodes, k, mustApplyCurrent) == Upstream(nodes, at, must) + FlattenReversed(stack)
      decreases at
    {
      assert at > 0 && IsChild(nodes, at);
      if must || info.valid {
        PushFlattens(stack, info.patches.value);
        stack := stack + [info.patches.value];
      }
      must := false;
      at := PositionOfId(info.parent);
      info := nodes[positions[info.parent]];
    }
    RootIsFirst(nodes, at);
    patches := FlattenReversed(stack);
  }

  /** `get_upstream_evaluation_stats`. */
  method GetUpstreamEvaluationStats(nodes: seq<Node>, k: nat) returns (stats: Option<Stats>)
    requires IsTree(nodes) && k < |nodes|
    ensures stats == nodes[NearestValid(nodes, k)].stats
  {
    PositionsAre(nodes);
    var positions, info := Positions(nodes), nodes[k];
    ghost var at: nat := k;
    while info.id.Some?
      invariant at < |nodes| && info == nodes[at] && NearestValid(nodes, k) == NearestValid(nodes, at)
      decreases at
    {
      assert at > 0 && IsChild(nodes, at);
      if info.valid {
        return info.stats;
      }
      at := PositionOfId(info.parent);
      info := nodes[positions[info.parent]];
    }
    RootIsFirst(nodes, at);
    return info.stats;
  }

  // ----- Growth -----

  function NewNode(s: Sample, id: nat): Node {
    Node(Some(id), s.parent, s.patches, s.valid, s.stats, true, true)
  }

  predicate IsParentOfNew(samples: seq<Sample>, id: Option<nat>) {
    exists j | 0 <= j < |samples| :: samples[j].parent == id
  }

  /** An old node after the growth step. */
  function Updated(n: Node, samples: seq<Sample>): Node {
    n.(isLast := n.isLast && samples == [], isLeaf := n.isLeaf && !IsParentOfNew(samples, n.id))
  }

  /** The tree after `accumulate_samples`. */
  function Grown(nodes: seq<Node>, samples: seq<Sample>): (r: seq<Node>)
    ensures |r| == |nodes| + |samples|
  {
    seq(|nodes|, k requires 0 <= k < |nodes| => Updated(nodes[k], samples)) +
    seq(|samples|, j requires 0 <= j < |samples| => NewNode(samples[j], |nodes| + j))
  }

  /** A sample whose parent exists, and which has patches if it is valid. */
  predicate Attaches(nodes: seq<Node>, s: Sample) {
    HasId(nodes, s.parent) && (s.valid ==> s.patches.Some?)
  }

  predicate AllAttach(nodes: seq<Node>, samples: seq<Sample>) {
    forall j | 0 <= j < |samples| :: Attaches(nodes, samples[j])
  }

  lemma {:induction false} GrownIsTree(nodes: seq<Node>, samples: seq<Sample>)
    requires IsTree(nodes) && AllAttach(nodes, samples)
    ensures IsTree(Grown(nodes, samples))
  {
    var r := Grown(nodes, samples);
    forall k | 0 < k < |r| ensures IsChild(r, k) {
      if k < |nodes| {
        assert IsChild(nodes, k);
      } else {
        assert Attaches(nodes, samples[k - |nodes|]);
      }
    }
  }

  /** Two trees that agree on everything but the flags up to some position. */
  predicate Extends(a: seq<Node>, b: seq<Node>) {
    |a| <= |b| && forall k | 0 <= k < |a| :: a[k].(isLast := false, isLeaf := false) == b[k].(isLast := false, isLeaf := false)
  }

  lemma {:induction false} GrownExtends(nodes: seq<Node>, samples: seq<Sample>)
    ensures Extends(nodes, Grown(nodes, samples))
  {}

  lemma {:induction false} ExtendsTrans(a: seq<Node>, b: seq<Node>, c: seq<Node>)
    requires Extends(a, b) && Extends(b, c)
    ensures Extends(a, c)
  {
    forall k | 0 <= k < |a| ensures a[k].(isLast := false, isLeaf := false) == c[k].(isLast := false, isLeaf := false) {
      assert b[k].(isLast := false, isLeaf := false) == c[k].(isLast := false, isLeaf := false);
    }
  }

  /** The walks from an old node see nothing of what was added later. */
  lemma {:induction false} WalksAreStable(a: seq<Node>, b: seq<Node>, k: nat)
    requires IsTree(a) && IsTree(b) && Extends(a, b) && k < |a|
    ensures Upstream(b, k, false) == Upstream(a, k, false)
    ensures NearestValid(b, k) == NearestValid(a, k)
    decreases k
  {
    assert a[k].(isLast := false, isLeaf := false) == b[k].(isLast := false, isLeaf := false);
    if k > 0 {
      assert IsChild(a, k);
      WalksAreStable(a, b, ParentAt(a[k]));
    }
  }

  // ----- Flags -----

  predicate HasChild(nodes: seq<Node>, k: nat) {
    exists j | 0 < j < |nodes| :: ParentAt(nodes[j]) == k
  }

  /** `is_leaf` holds exactly for the nodes without children. */
  predicate LeavesAreRight(nodes: seq<Node>) {
    forall k | 0 <= k < |nodes| :: nodes[k].isLeaf <==> !HasChild(nodes, k)
  }

  /** `is_last` holds exactly for the nodes from position `b` on. */
  predicate LastFrom(nodes: seq<Node>, b: nat) {
    b < |nodes| && forall k | 0 <= k < |nodes| :: nodes[k].isLast <==> b <= k
  }

  lemma {:induction false} ChildAfterGrowth(nodes: seq<Node>, samples: seq<Sample>, k: nat)
    requires IsTree(nodes) && AllAttach(nodes, samples) && k < |nodes|
    ensures HasChild(Grown(nodes, samples), k) <==> HasChild(nodes, k) || IsParentOfNew(samples, nodes[k].id)
  {
    var r := Grown(nodes, samples);
    assert k > 0 ==> IsChild(nodes, k);
    if HasChild(r, k) {
      var j :| 0 < j < |r| && ParentAt(r[j]) == k;
      if j >= |nodes| {
        assert Attaches(nodes, samples[j - |nodes|]);
        assert samples[j - |nodes|].parent == nodes[k].id;
      } else {
        assert ParentAt(nodes[j]) == k;
      }
    }
    if HasChild(nodes, k) {
      var j :| 0 < j < |nodes| && ParentAt(nodes[j]) == k;
      assert ParentAt(r[j]) == k;
    }
    if IsParentOfNew(samples, nodes[k].id) {
      var j :| 0 <= j < |samples| && samples[j].parent == nodes[k].id;
      assert ParentAt(r[|nodes| + j]) == k;
    }
  }

  lemma {:induction false} NewHasNoChild(nodes: seq<Node>, samples: seq<Sample>, k: nat)
    requires IsTree(nodes) && AllAttach(nodes, samples) && |nodes| <= k
    ensures !HasChild(Grown(nodes, samples), k)
  {
    var r := Grown(nodes, samples);
    forall j | 0 < j < |r| ensures ParentAt(r[j]) != k {
      if j < |nodes| {
        assert IsChild(nodes, j);
      } else {
        assert Attaches(nodes, samples[j - |nodes|]);
      }
    }
  }

  lemma {:induction false} GrownLeaves(nodes: seq<Node>, samples: seq<Sample>)
    requires IsTree(nodes) && AllAttach(nodes, samples) && LeavesAreRight(nodes)
    ensures LeavesAreRight(Grown(nodes, samples))
  {
    var r := Grown(nodes, samples);
    forall k | 0 <= k < |r| ensures r[k].isLeaf <==> !HasChild(r, k) {
      if k < |nodes| {
        ChildAfterGrowth(nodes, samples, k);
        assert r[k] == Updated(nodes[k], samples);
      } else {
        NewHasNoChild(nodes, samples, k);
        assert r[k] == NewNode(samples[k - |nodes|], k);
      }
    }
  }

  /** A step that adds samples makes exactly these the last ones; an empty step changes nothing. */
  lemma {:induction false} GrownLast(nodes: seq<Node>, samples: seq<Sample>, b: nat)
    requires LastFrom(nodes, b)
    ensures LastFrom(Grown(nodes, samples), if samples == [] then b else |nodes|)
  {
    var r := Grown(nodes, samples);
    forall k | 0 <= k < |r| ensures r[k].isLast <==> (if samples == [] then b else |nodes|) <= k {
      if k < |nodes| {
        assert r[k] == Updated(nodes[k], samples);
      } else {
        assert r[k] == NewNode(samples[k - |nodes|], k);
      }
    }
  }

  // ----- Provenance -----

  /** What a valid node's stored measurement measured: the base plan with the node's upstream patches. */
  predicate MeasuredAt(nodes: seq<Node>, k: nat)
    requires IsTree(nodes) && k < |nodes|
  {
    nodes[k].valid && nodes[k].stats.Some? ==> nodes[k].stats.value.measuredOn == Upstream(nodes, k, false)
  }

  predicate Provenance(nodes: seq<Node>) {
    IsTree(nodes) && forall k | 0 <= k < |nodes| :: MeasuredAt(nodes, k)
  }

  /** A sample that was taken and measured relative to its parent in this tree. */
  predicate Belongs(nodes: seq<Node>, s: Sample)
    requires IsTree(nodes)
  {
    && Attaches(nodes, s)
    && s.upstream == Upstream(nodes, PositionOfId(s.parent), false)
    && (s.valid && s.stats.Some? ==> s.stats.value.measuredOn == s.upstream + s.patches.value)
  }

  predicate AllBelong(nodes: seq<Node>, samples: seq<Sample>)
    requires IsTree(nodes)
  {
    forall j | 0 <= j < |samples| :: Belongs(nodes, samples[j])
  }

  /** The upstream patches of a new node. */
  lemma {:induction false} NewUpstream(nodes: seq<Node>, samples: seq<Sample>, j: nat)
    requires IsTree(nodes) && AllAttach(nodes, samples) && j < |samples| && Belongs(nodes, samples[j])
    ensures IsTree(Grown(nodes, samples))
    ensures Upstream(Grown(nodes, samples), |nodes| + j, false) ==
            samples[j].upstream + if samples[j].valid then samples[j].patches.value else []
  {
    var r := Grown(nodes, samples);
    GrownIsTree(nodes, samples);
    GrownExtends(nodes, samples);
    assert r[|nodes| + j] == NewNode(samples[j], |nodes| + j);
    WalksAreStable(nodes, r, PositionOfId(samples[j].parent));
  }

  lemma {:induction false} BelongingAttach(nodes: seq<Node>, samples: seq<Sample>)
    requires IsTree(nodes) && AllBelong(nodes, samples)
    ensures AllAttach(nodes, samples)
  {
    forall j | 0 <= j < |samples| ensures Attaches(nodes, samples[j]) {
      assert Belongs(nodes, samples[j]);
    }
  }

  /** Growth keeps the provenance of every measurement, old and new. */
  lemma {:induction false} GrownProvenance(nodes: seq<Node>, samples: seq<Sample>)
    requires Provenance(nodes) && AllBelong(nodes, samples)
    ensures Provenance(Grown(nodes, samples))
  {
    var r := Grown(nodes, samples);
    BelongingAttach(nodes, samples);
    GrownIsTree(nodes, samples);
    GrownExtends(nodes, samples);
    forall k | 0 <= k < |r| ensures MeasuredAt(r, k) {
      if k < |nodes| {
        assert r[k] == Updated(nodes[k], samples) && MeasuredAt(nodes, k);
        WalksAreStable(nodes, r, k);
      } else {
        assert Belongs(nodes, samples[k - |nodes|]);
        NewUpstream(nodes, samples, k - |nodes|);
      }
    }
  }

  /** What holds of every sample tree. */
  ghost predicate Invariant(nodes: seq<Node>) {
    Provenance(nodes) && LeavesAreRight(nodes) && exists b: nat :: LastFrom(nodes, b)
  }

  lemma {:induction false} GrowthKeepsInvariant(nodes: seq<Node>, samples: seq<Sample>)
    requires Invariant(nodes) && AllBelong(nodes, samples)
    ensures Invariant(Grown(nodes, samples))
  {
    BelongingAttach(nodes, samples);
    GrownProvenance(nodes, samples);
    GrownLeaves(nodes, samples);
    var b: nat :| LastFrom(nodes, b);
    GrownLast(nodes, samples, b);
  }

  /** The first tree: the original plan alone. */
  function Prepared(stats: Option<Stats>): seq<Node> {
    [Node(None, None, Some([]), true, stats, true, true)]
  }

  /** The state file of one query. */
  class SampleState {
    var nodes: seq<Node>

    ghost predicate Valid()
      reads this
    {
      Invariant(nodes)
    }

    /** `prepare_sampling`: the measurement of the dataset entry was taken on the unpatched plan. */
    constructor (stats: Option<Stats>)
      requires stats.Some? ==> stats.value.measuredOn == []
      ensures nodes == Prepared(stats) && Valid()
    {
      nodes := Prepared(stats);
      new;
      assert LastFrom(nodes, 0);
    }

    /** `new_sample_id`: one more than the largest id, the root counting as 0. */
    method NewSampleId() returns (id: nat)
      requires Valid()
      ensures id == |nodes|
    {
      var largest, i := 0, 0;
      while i < |nodes|
        invariant 0 <= i <= |nodes|
        invariant largest == if i == 0 then 0 else i - 1
      {
        var here := if nodes[i].id.Some? then nodes[i].id.value else 0;
        assert i > 0 ==> IsChild(nodes, i);
        if here > largest {
          largest := here;
        }
        i := i + 1;
      }
      id := largest + 1;
    }

    /** The first loop of `accumulate_samples`: number the new samples and note their parents. */
    method Finalize(samples: seq<Sample>) returns (added: seq<Node>, leafParents: set<Option<nat>>)
      requires Valid()
      ensures |added| == |samples| && forall i | 0 <= i < |samples| :: added[i] == NewNode(samples[i], |nodes| + i)
      ensures forall id :: id in leafParents <==> IsParentOfNew(samples, id)
    {
      var newId := NewSampleId();
      added, leafParents := [], {};
      var j := 0;
      while j < |samples|
        invariant 0 <= j <= |samples| && newId == |nodes| + j && |added| == j
        invariant forall i | 0 <= i < j :: added[i] == NewNode(samples[i], |nodes| + i)
        invariant forall id :: id in leafParents <==> IsParentOfNew(samples[..j], id)
      {
        added := added + [NewNode(samples[j], newId)];
        ParentsOfNext(samples, j);
        leafParents := leafParents + {samples[j].parent};
        newId := newId + 1;
        j := j + 1;
      }
      assert samples[..j] == samples;
    }

    /** The second loop: clear the flags of the old nodes, then append. */
    method Merge(samples: seq<Sample>, added: seq<Node>, leafParents: set<Option<nat>>)
      requires |added| == |samples| && forall i | 0 <= i < |samples| :: added[i] == NewNode(samples[i], |nodes| + i)
      requires forall id :: id in leafParents <==> IsParentOfNew(samples, id)
      modifies this
      ensures nodes == Grown(old(nodes), samples)
    {
      ghost var before := nodes;
      var k := 0;
      while k < |nodes|
        invariant 0 <= k <= |nodes| == |before|
        invariant forall i | 0 <= i < k :: nodes[i] == Updated(before[i], samples)
        invariant nodes[k..] == before[k..]
      {
        var n := nodes[k];
        assert n == nodes[k..][0] == before[k];
        if |added| > 0 {
          n := n.(isLast := false);
        }
        if n.id in leafParents {
          n := n.(isLeaf := false);
        }
        nodes := nodes[k := n];
        k := k + 1;
      }
      nodes := nodes + added;
      assert nodes == Grown(before, samples);
    }

    /** `accumulate_samples` for one query. */
    method Accumulate(samples: seq<Sample>)
      requires Valid() && AllBelong(nodes, samples)
      modifies this
      ensures nodes == Grown(old(nodes), samples) && Valid()
    {
      ghost var before := nodes;
      var added, leafParents := Finalize(samples);
      Merge(samples, added, leafParents);
      GrowthKeepsInvariant(before, samples);
    }
  }

  lemma {:induction false} ParentsOfNext(samples: seq<Sample>, j: nat)
    requires j < |samples|
    ensures forall id :: IsParentOfNew(samples[..j + 1], id) <==> IsParentOfNew(samples[..j], id) || id == samples[j].parent
  {
    var a, b := samples[..j], samples[..j + 1];
    forall id ensures IsParentOfNew(b, id) <==> IsParentOfNew(a, id) || id == samples[j].parent {
      if IsParentOfNew(b, id) && id != samples[j].parent {
        var i :| 0 <= i < |b| && b[i].parent == id;
        assert a[i].parent == id;
      }
      if IsParentOfNew(a, id) {
        var i :| 0 <= i < |a| && a[i].parent == id;
        assert b[i].parent == id;
      }
      assert b[j].parent == samples[j].parent;
    }
  }
}
