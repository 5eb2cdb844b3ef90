/** Where the samples of a step come from, and what becomes of them, in terms of the trees of a run. */
module Evolution {
  import opened Basics
  import opened Json
  import opened StableSorting
  import opened SampleTree
  import opened BaseSelection
  import opened SampleEvaluation
  import opened SampleRuns
  import Patching = JsonPatch

  // ----- The samples of a step, one by one -----

  lemma {:induction false} SampleAt(bases: seq<Base>, generated: seq<seq<Generated>>, n: nat, b: nat, s: nat)
    requires |bases| == |generated| && (forall i | 0 <= i < |bases| :: |generated[i]| == n) && b < |bases| && s < n
    ensures b * n + s < |SampleAll(bases, generated)|
    ensures SampleAll(bases, generated)[b * n + s] == SampleFrom(bases[b], generated[b][s])
    decreases b
  {
    if b == 0 {
      assert b * n + s == s;
    } else {
      SampleAt(bases[1..], generated[1..], n, b - 1, s);
      assert b * n + s == n + ((b - 1) * n + s);
    }
  }

  /** What an evaluation makes of a sample: exactly when it is valid, and its measurement. */
  lemma {:induction false} JudgedIs(plan: Json, s: Sample, outcome: Outcome)
    ensures
      var j := Judged(plan, s, outcome);
      && j.parent == s.parent && j.upstream == s.upstream && j.upstreamStats == s.upstreamStats && j.patches == s.patches
      && (j.valid <==> (s.valid && s.patches.Some?
                        && (s.patches.value == []
                            || (Patching.Apply(plan, Arr(s.upstream + s.patches.value)).Ok? && outcome.Benchmarked?))))
      && (!j.valid ==> j.stats.None?)
      && (j.valid ==> j.stats == if s.patches.value == [] then s.upstreamStats
                                 else Some(Stats(s.upstream + s.patches.value, outcome.metrics)))
  {
    var route := RouteOf(plan, s);
    assert route.Remote? ==> route.patches == s.upstream + s.patches.value;
  }

  /** A valid node of the generated patches `g`, taken from node `x`. */
  predicate ValidFrom(plan: Json, a: seq<Node>, x: nat, g: Generated, outcome: Outcome)
    requires IsTree(a) && x < |a|
  {
    && !g.failed && g.patches.Some?
    && (g.patches.value == [] || (Patching.Apply(plan, Arr(Upstream(a, x, false) + g.patches.value)).Ok? && outcome.Benchmarked?))
  }

  /** Node `k` of `b` is the sample of the generated patches `g` from node `x` of `a`, evaluated with this outcome. */
  predicate SampledFrom(plan: Json, a: seq<Node>, x: nat, g: Generated, outcome: Outcome, b: seq<Node>, k: nat)
    requires IsTree(a) && x < |a| && k < |b|
  {
    && b[k].id == Some(k) && b[k].parent == a[x].id && b[k].patches == g.patches && b[k].isLast && b[k].isLeaf
    && (b[k].valid <==> ValidFrom(plan, a, x, g, outcome))
    && (!b[k].valid ==> b[k].stats.None?)
    && (b[k].valid ==> b[k].stats == if g.patches.value == [] then a[NearestValid(a, x)].stats
                                     else Some(Stats(Upstream(a, x, false) + g.patches.value, outcome.metrics)))
  }

  lemma {:induction false} JudgedNode(plan: Json, a: seq<Node>, x: nat, g: Generated, outcome: Outcome, samples: seq<Sample>, j: nat)
    requires IsTree(a) && x < |a| && j < |samples| && samples[j] == Judged(plan, SampleFrom(BaseAt(a, x), g), outcome)
    ensures SampledFrom(plan, a, x, g, outcome, Grown(a, samples), |a| + j)
  {
    JudgedIs(plan, SampleFrom(BaseAt(a, x), g), outcome);
    assert Grown(a, samples)[|a| + j] == NewNode(samples[j], |a| + j);
  }

  /**
    Every new node of a step: the sample `s` of the selected node `x` number `c`
    has the generated patches and the outcome of its evaluation.
   */
  lemma {:induction false} StepNode(run: Settings, stepIdx: nat, a: seq<Node>, b: seq<Node>, step: Step, c: nat, s: nat)
    requires Steps(run, stepIdx, a, b, step) && Selected(a, StrategyAt(run, stepIdx)).Ok?
    requires c < |Selected(a, StrategyAt(run, stepIdx)).value| && s < PerBaseAt(run, stepIdx)
    ensures
      var x, j := Selected(a, StrategyAt(run, stepIdx)).value[c], c * PerBaseAt(run, stepIdx) + s;
      && x < |a| && |a| + j < |b| && c < |step.generated| && s < |step.generated[c]| && j < |step.outcomes|
      && SampledFrom(run.plan, a, x, step.generated[c][s], step.outcomes[j], b, |a| + j)
  {
    var strategy, n := StrategyAt(run, stepIdx), PerBaseAt(run, stepIdx);
    var bases := Bases(a, strategy).value;
    SelectedWithin(a, strategy);
    var x := Selected(a, strategy).value[c];
    assert bases[c] == BaseAt(a, x);
    SampleAt(bases, step.generated, n, c, s);
    var j := c * n + s;
    var samples := EvaluatedSamples(run.plan, bases, step);
    assert samples[j] == Judged(run.plan, SampleAll(bases, step.generated)[j], step.outcomes[j]);
    JudgedNode(run.plan, a, x, step.generated[c][s], step.outcomes[j], samples, j);
  }

  /** Where a new node comes from. */
  lemma {:induction false} NewNodeOrigin(run: Settings, stepIdx: nat, a: seq<Node>, b: seq<Node>, step: Step, k: nat) returns (c: nat, s: nat)
    requires Steps(run, stepIdx, a, b, step) && |a| <= k < |b|
    ensures Selected(a, StrategyAt(run, stepIdx)).Ok?
    ensures c < |Selected(a, StrategyAt(run, stepIdx)).value| && s < PerBaseAt(run, stepIdx)
    ensures k == |a| + c * PerBaseAt(run, stepIdx) + s
  {
    var n := PerBaseAt(run, stepIdx);
    var bases := Bases(a, StrategyAt(run, stepIdx)).value;
    SampleCount(bases, step.generated, n);
    SelectedWithin(a, StrategyAt(run, stepIdx));
    assert |b| == |a| + |bases| * n;
    c, s := Split(k - |a|, |bases|, n);
  }

  lemma {:induction false} AtMostOnce(d: int, n: nat)
    requires d <= 1
    ensures d * n <= n
  {}

  lemma {:induction false} Split(j: nat, m: nat, n: nat) returns (c: nat, s: nat)
    requires j < m * n
    ensures c < m && s < n && j == c * n + s
  {
    c, s := 0, j;
    while s >= n
      invariant j == c * n + s && c < m && s < (m - c) * n
    {
      if m - c <= 1 { AtMostOnce(m - c, n); }
      assert (m - c) * n == (m - (c + 1)) * n + n;
      c, s := c + 1, s - n;
    }
  }

  // ----- Selectors, on the nodes -----

  lemma {:induction false} CandidatesIncrease(nodes: seq<Node>, s: Strategy, k: nat)
    requires k <= |nodes|
    ensures forall i, j | 0 <= i < j < |Candidates(nodes, s, k)| :: Candidates(nodes, s, k)[i] < Candidates(nodes, s, k)[j]
  {
    if k > 0 {
      CandidatesIncrease(nodes, s, k - 1);
      CandidatesAre(nodes, s, k - 1);
      var init := Candidates(nodes, s, k - 1);
      assert forall i | 0 <= i < |init| :: init[i] in init;
    }
  }

  /** The nodes that a selector lets through. */
  predicate Eligible(n: Node, s: Strategy) {
    match s.start
    case Original => n.id.None?
    case SoFar => s.fromValidOnly ==> n.valid
    case OfLast => n.isLast && (s.fromValidOnly ==> n.valid)
    case OfLeafs => n.isLeaf && (s.fromValidOnly ==> n.valid)
  }

  /** The selector `all` takes every eligible node, in the order of the tree. */
  lemma {:induction false} AllAreSelected(nodes: seq<Node>, s: Strategy)
    requires IsTree(nodes) && (s.start.Original? || s.final.All?)
    ensures Selected(nodes, s).Ok?
    ensures
      var r := Selected(nodes, s).value;
      && (forall k :: k in r <==> 0 <= k < |nodes| && Eligible(nodes[k], s))
      && forall i, j | 0 <= i < j < |r| :: r[i] < r[j]
  {
    forall k | 0 <= k < |nodes| ensures nodes[k].id.None? <==> k == 0 {
      RootIsFirst(nodes, k);
    }
    CandidatesAre(nodes, s, |nodes|);
    CandidatesIncrease(nodes, s, |nodes|);
  }

  /** A metric that counts: neither missing nor exactly 0. */
  function Reading(n: Node, path: string): Option<real> {
    if n.stats.Some? && path in n.stats.value.metrics && n.stats.value.metrics[path] != 0.0 then Some(n.stats.value.metrics[path]) else None
  }

  predicate NotWorse(x: Node, y: Node, path: string) {
    Reading(y, path).None? || (Reading(x, path).Some? && Reading(x, path).value <= Reading(y, path).value)
  }

  lemma {:induction false} KeyIsReading(x: Node, y: Node, path: string)
    ensures Leq(BestKey(MetricOf(x.stats, path)), BestKey(MetricOf(y.stats, path))) <==> NotWorse(x, y, path)
  {}

  /** How many nodes `best_1` and `best_n` take. */
  function BestCount(s: Strategy): nat {
    if s.final.BestN? && s.bestN.Some? then s.bestN.value else 1
  }

  /**
    The other selectors need their parameters, and take that many of the eligible
    nodes, the best ones first: nothing that is left out is better.
   */
  lemma {:induction false} BestAreSelected(nodes: seq<Node>, s: Strategy)
    requires IsTree(nodes) && !s.start.Original? && !s.final.All?
    ensures s.final.BestN? && s.bestN.None? ==> Selected(nodes, s) == Err(BestNMissing)
    ensures s.metric.None? && !(s.final.BestN? && s.bestN.None?) ==> Selected(nodes, s) == Err(MetricMissing)
    ensures s.metric.Some? && !(s.final.BestN? && s.bestN.None?) ==>
              Selected(nodes, s).Ok? && TakesBest(nodes, s, Candidates(nodes, s, |nodes|), Selected(nodes, s).value, s.metric.value, BestCount(s))
    ensures forall k :: k in Candidates(nodes, s, |nodes|) <==> 0 <= k < |nodes| && Eligible(nodes[k], s)
  {
    CandidatesAre(nodes, s, |nodes|);
    if s.metric.Some? && !(s.final.BestN? && s.bestN.None?) {
      BestAre(nodes, s, Candidates(nodes, s, |nodes|), s.metric.value, BestCount(s));
    }
  }

  /** The `n` best of the candidates, or all of them if there are fewer. */
  ghost predicate TakesBest(nodes: seq<Node>, s: Strategy, candidates: seq<nat>, r: seq<nat>, path: string, n: nat) {
    && Within(candidates, nodes) && Within(r, nodes)
    && |r| == (if n < |candidates| then n else |candidates|)
    && (forall i, j | 0 <= i < j < |r| :: NotWorse(nodes[r[i]], nodes[r[j]], path))
    && exists rest: seq<nat> :: LeavesOut(nodes, candidates, r, rest, path)
  }

  ghost predicate LeavesOut(nodes: seq<Node>, candidates: seq<nat>, r: seq<nat>, rest: seq<nat>, path: string)
    requires Within(r, nodes)
  {
    && Within(rest, nodes) && multiset(r) + multiset(rest) == multiset(candidates)
    && forall i, j | 0 <= i < |r| && 0 <= j < |rest| :: NotWorse(nodes[r[i]], nodes[rest[j]], path)
  }

  lemma {:induction false} WithoutAt<T>(b: seq<T>, k: nat)
    requires k < |b|
    ensures multiset(b) == multiset(b[..k] + b[k + 1..]) + multiset{b[k]}
  {
    assert b == b[..k] + [b[k]] + b[k + 1..];
  }

  lemma {:induction false} CancelOne<T>(a: multiset<T>, b: multiset<T>, x: T)
    requires a + multiset{x} == b + multiset{x}
    ensures a == b
  {
    assert a == a + multiset{x} - multiset{x} && b == b + multiset{x} - multiset{x};
  }

  lemma {:induction false} ItemsWithoutAt(b: seq<Ranked<nat>>, k: nat)
    requires k < |b|
    ensures multiset(Items(b)) == multiset(Items(b[..k] + b[k + 1..])) + multiset{b[k].item}
  {
    var items := Items(b);
    assert Items(b[..k] + b[k + 1..]) == items[..k] + items[k + 1..];
    WithoutAt(items, k);
  }

  lemma {:induction false} ItemsKeepContents(a: seq<Ranked<nat>>, b: seq<Ranked<nat>>)
    requires multiset(a) == multiset(b) && |a| == |b|
    ensures multiset(Items(a)) == multiset(Items(b))
  {
    if a != [] {
      assert a[0] in multiset(a) && a[0] in b;
      var k :| 0 <= k < |b| && b[k] == a[0];
      WithoutAt(a, 0);
      WithoutAt(b, k);
      ItemsWithoutAt(a, 0);
      ItemsWithoutAt(b, k);
      CancelOne(multiset(a[..0] + a[1..]), multiset(b[..k] + b[k + 1..]), a[0]);
      ItemsKeepContents(a[..0] + a[1..], b[..k] + b[k + 1..]);
    }
  }

  /** The candidates in sorted order. */
  function Sorted(nodes: seq<Node>, candidates: seq<nat>, path: string): seq<nat>
    requires Within(candidates, nodes)
  {
    Items(StableSort(RankedBy(nodes, candidates, path)))
  }

  /** An entry of the ranking: a node with its key. */
  predicate Keyed(nodes: seq<Node>, path: string, x: Ranked<nat>) {
    x.item < |nodes| && x.key == BestKey(MetricOf(nodes[x.item].stats, path))
  }

  lemma {:induction false} SortedKeys(nodes: seq<Node>, candidates: seq<nat>, path: string)
    requires Within(candidates, nodes)
    ensures |StableSort(RankedBy(nodes, candidates, path))| == |candidates|
    ensures forall i | 0 <= i < |StableSort(RankedBy(nodes, candidates, path))| ::
              Keyed(nodes, path, StableSort(RankedBy(nodes, candidates, path))[i])
  {
    var ranked := RankedBy(nodes, candidates, path);
    SortMembers(ranked);
    assert forall x | x in ranked :: Keyed(nodes, path, x);
  }

  lemma {:induction false} KeyedInOrder(nodes: seq<Node>, path: string, sorted: seq<Ranked<nat>>)
    requires Ordered(sorted) && forall i | 0 <= i < |sorted| :: Keyed(nodes, path, sorted[i])
    ensures Within(Items(sorted), nodes)
    ensures forall i, j | 0 <= i < j < |sorted| :: NotWorse(nodes[Items(sorted)[i]], nodes[Items(sorted)[j]], path)
  {
    forall i, j | 0 <= i < j < |sorted| ensures NotWorse(nodes[Items(sorted)[i]], nodes[Items(sorted)[j]], path) {
      KeyIsReading(nodes[sorted[i].item], nodes[sorted[j].item], path);
    }
  }

  lemma {:induction false} SortedIs(nodes: seq<Node>, candidates: seq<nat>, path: string)
    requires Within(candidates, nodes)
    ensures Within(Sorted(nodes, candidates, path), nodes) && multiset(Sorted(nodes, candidates, path)) == multiset(candidates)
    ensures |Sorted(nodes, candidates, path)| == |candidates|
    ensures forall i, j | 0 <= i < j < |candidates| ::
              NotWorse(nodes[Sorted(nodes, candidates, path)[i]], nodes[Sorted(nodes, candidates, path)[j]], path)
  {
    var ranked := RankedBy(nodes, candidates, path);
    SortOrders(ranked);
    SortedKeys(nodes, candidates, path);
    RankedItems(nodes, candidates, path);
    ItemsKeepContents(StableSort(ranked), ranked);
    KeyedInOrder(nodes, path, StableSort(ranked));
  }

  lemma {:induction false} BestAre(nodes: seq<Node>, s: Strategy, candidates: seq<nat>, path: string, n: nat)
    requires Within(candidates, nodes)
    ensures TakesBest(nodes, s, candidates, Best(nodes, candidates, path, n), path, n)
  {
    var all, r := Sorted(nodes, candidates, path), Best(nodes, candidates, path, n);
    SortedIs(nodes, candidates, path);
    assert r == all[..|r|] && all == r + all[|r|..];
    assert LeavesOut(nodes, candidates, r, all[|r|..], path);
  }

  lemma {:induction false} RankedItems(nodes: seq<Node>, candidates: seq<nat>, path: string)
    requires Within(candidates, nodes)
    ensures Items(RankedBy(nodes, candidates, path)) == candidates
  {}

  // ----- Strategies, on the trees -----

  /** Sampling that starts from the original plan. */
  predicate FromOriginal(run: Settings, stepIdx: nat) {
    run.kind.BestOf? || (run.kind.PstEvol? && stepIdx == 1)
  }

  /** With `best_of`, and in the first step of `pst_evol`, all samples are taken from the original plan. */
  lemma {:induction false} OriginalParents(run: Settings, trees: seq<seq<Node>>, steps: seq<Step>, i: nat, k: nat)
    requires IsRun(run, trees, steps) && i < |steps| && FromOriginal(run, i + 1) && |trees[i]| <= k < |trees[i + 1]|
    ensures trees[i + 1][k].parent == None
  {
    StepTaken(run, trees, steps, i);
    var c, s := NewNodeOrigin(run, i + 1, trees[i], trees[i + 1], steps[i], k);
    StepNode(run, i + 1, trees[i], trees[i + 1], steps[i], c, s);
  }

  /** Nodes of a tree have different ids. */
  lemma {:induction false} IdsDiffer(nodes: seq<Node>, x: nat, y: nat)
    requires IsTree(nodes) && x < |nodes| && y < |nodes| && nodes[x].id == nodes[y].id
    ensures x == y
  {
    RootIsFirst(nodes, x);
    RootIsFirst(nodes, y);
    assert x > 0 ==> IsChild(nodes, x);
    assert y > 0 ==> IsChild(nodes, y);
  }

  /** The last samples, by position. */
  function LastOnes(run: Settings, stepIdx: nat, a: seq<Node>): seq<nat> {
    Candidates(a, StrategyAt(run, stepIdx), |a|)
  }

  lemma {:induction false} LastOnesAre(run: Settings, stepIdx: nat, a: seq<Node>)
    requires run.kind.BolEvol? || (run.kind.PstEvol? && stepIdx > 1)
    ensures forall y :: y in LastOnes(run, stepIdx, a) <==> 0 <= y < |a| && a[y].isLast
    ensures forall i, j | 0 <= i < j < |LastOnes(run, stepIdx, a)| :: LastOnes(run, stepIdx, a)[i] < LastOnes(run, stepIdx, a)[j]
  {
    CandidatesAre(a, StrategyAt(run, stepIdx), |a|);
    CandidatesIncrease(a, StrategyAt(run, stepIdx), |a|);
  }

  /** With `pst_evol`, from step 2 on the new nodes are the children of the last samples, one by one. */
  lemma {:induction false} EvolvingNode(run: Settings, stepIdx: nat, a: seq<Node>, b: seq<Node>, step: Step, c: nat)
    requires Steps(run, stepIdx, a, b, step) && run.kind.PstEvol? && stepIdx > 1
    ensures |b| == |a| + |LastOnes(run, stepIdx, a)|
    ensures
      var last := LastOnes(run, stepIdx, a);
      c < |last| ==> last[c] < |a| && a[last[c]].isLast && b[|a| + c].parent == a[last[c]].id
  {
    var last := LastOnes(run, stepIdx, a);
    LastOnesAre(run, stepIdx, a);
    assert Selected(a, StrategyAt(run, stepIdx)) == Ok(last) && PerBaseAt(run, stepIdx) == 1;
    SampleCount(Bases(a, StrategyAt(run, stepIdx)).value, step.generated, 1);
    if c < |last| {
      assert last[c] in last;
      StepNode(run, stepIdx, a, b, step, c, 0);
    }
  }

  /** Every new node is the child of a last sample, and no two are children of the same. */
  ghost predicate OneChildEach(a: seq<Node>, b: seq<Node>) {
    && (forall k | |a| <= k < |b| :: IsChildOfLast(a, b[k]))
    && (forall y | 0 <= y < |a| && a[y].isLast :: HasNewChild(a, b, a[y].id))
    && forall k, l | |a| <= k < |b| && |a| <= l < |b| && b[k].parent == b[l].parent :: k == l
  }

  predicate IsChildOfLast(a: seq<Node>, n: Node) {
    exists y :: 0 <= y < |a| && a[y].isLast && n.parent == a[y].id
  }

  predicate HasNewChild(a: seq<Node>, b: seq<Node>, id: Option<nat>) {
    exists k :: |a| <= k < |b| && b[k].parent == id
  }

  lemma {:induction false} OneChildEachIs(run: Settings, stepIdx: nat, a: seq<Node>, b: seq<Node>, step: Step)
    requires Steps(run, stepIdx, a, b, step) && run.kind.PstEvol? && stepIdx > 1
    ensures OneChildEach(a, b)
  {
    var last := LastOnes(run, stepIdx, a);
    LastOnesAre(run, stepIdx, a);
    EvolvingNode(run, stepIdx, a, b, step, |last|);
    forall c | 0 <= c < |last| ensures last[c] < |a| && a[last[c]].isLast && b[|a| + c].parent == a[last[c]].id {
      EvolvingNode(run, stepIdx, a, b, step, c);
    }
    forall k | |a| <= k < |b| ensures IsChildOfLast(a, b[k]) {
      assert b[|a| + (k - |a|)].parent == a[last[k - |a|]].id;
    }
    forall y | 0 <= y < |a| && a[y].isLast ensures HasNewChild(a, b, a[y].id) {
      assert y in last;
      var c :| 0 <= c < |last| && last[c] == y;
      assert b[|a| + c].parent == a[y].id;
    }
    forall k, l | |a| <= k < |b| && |a| <= l < |b| && b[k].parent == b[l].parent ensures k == l {
      assert b[|a| + (k - |a|)].parent == a[last[k - |a|]].id && b[|a| + (l - |a|)].parent == a[last[l - |a|]].id;
      IdsDiffer(a, last[k - |a|], last[l - |a|]);
    }
  }

  /** With `pst_evol`, from step 2 on every last sample gets exactly one child, and nothing else gets any. */
  lemma {:induction false} EvolvingParents(run: Settings, trees: seq<seq<Node>>, steps: seq<Step>, i: nat)
    requires IsRun(run, trees, steps) && 1 <= i < |steps| && run.kind.PstEvol?
    ensures OneChildEach(trees[i], trees[i + 1])
  {
    StepTaken(run, trees, steps, i);
    OneChildEachIs(run, i + 1, trees[i], trees[i + 1], steps[i]);
  }

  /** `best_1` takes the first of the best candidates. */
  lemma {:induction false} BestIsFirst(nodes: seq<Node>, positions: seq<nat>, path: string) returns (k: nat)
    requires Within(positions, nodes) && positions != []
    ensures k < |positions| && Best(nodes, positions, path, 1) == [positions[k]]
    ensures forall i | 0 <= i < |positions| :: NotWorse(nodes[positions[k]], nodes[positions[i]], path)
    ensures forall i | 0 <= i < k :: !NotWorse(nodes[positions[i]], nodes[positions[k]], path)
  {
    var ranked := RankedBy(nodes, positions, path);
    SortFirst(ranked);
    SortOrders(ranked);
    k := FirstLeast(ranked);
    forall i | 0 <= i < |positions|
      ensures Leq(ranked[k].key, ranked[i].key) <==> NotWorse(nodes[positions[k]], nodes[positions[i]], path)
      ensures Leq(ranked[i].key, ranked[k].key) <==> NotWorse(nodes[positions[i]], nodes[positions[k]], path)
    {
      KeyIsReading(nodes[positions[k]], nodes[positions[i]], path);
      KeyIsReading(nodes[positions[i]], nodes[positions[k]], path);
    }
  }

  lemma {:induction false} SomeIsLast(run: Settings, trees: seq<seq<Node>>, steps: seq<Step>, i: nat) returns (y: nat)
    requires IsRun(run, trees, steps) && i < |trees| && 1 <= run.samplesPerStep
    ensures y < |trees[i]| && trees[i][y].isLast
  {
    CountStep(run, trees, steps, i);
    y := if i == 0 then 0 else PlansAfter(i - 1, run.samplesPerStep);
  }

  predicate AllChildrenOf(a: seq<Node>, b: seq<Node>, id: Option<nat>) {
    forall k | |a| <= k < |b| :: b[k].parent == id
  }

  lemma {:induction false} SelectedAlone(run: Settings, stepIdx: nat, a: seq<Node>, b: seq<Node>, step: Step, x: nat)
    requires Steps(run, stepIdx, a, b, step) && Selected(a, StrategyAt(run, stepIdx)) == Ok([x]) && x < |a|
    ensures AllChildrenOf(a, b, a[x].id)
  {
    forall k | |a| <= k < |b| ensures b[k].parent == a[x].id {
      var c, s := NewNodeOrigin(run, stepIdx, a, b, step, k);
      StepNode(run, stepIdx, a, b, step, c, s);
    }
  }

  /**
    With `bol_evol` all samples of a step are taken from one sample of the step
    before: the first of those with the least metric, where a missing metric and
    a metric of 0 count as infinite.
   */
  lemma {:induction false} BestParent(run: Settings, trees: seq<seq<Node>>, steps: seq<Step>, i: nat) returns (x: nat)
    requires IsRun(run, trees, steps) && i < |steps| && run.kind.BolEvol? && 1 <= run.samplesPerStep
    ensures x < |trees[i]| && trees[i][x].isLast
    ensures AllChildrenOf(trees[i], trees[i + 1], trees[i][x].id)
    ensures forall y | 0 <= y < |trees[i]| && trees[i][y].isLast ::
              NotWorse(trees[i][x], trees[i][y], run.metric) && (y < x ==> !NotWorse(trees[i][y], trees[i][x], run.metric))
  {
    var a, b := trees[i], trees[i + 1];
    StepTaken(run, trees, steps, i);
    var last := LastOnes(run, i + 1, a);
    LastOnesAre(run, i + 1, a);
    var y0 := SomeIsLast(run, trees, steps, i);
    assert y0 in last;
    var t := BestIsFirst(a, last, run.metric);
    x := last[t];
    assert last[t] in last;
    SelectedAlone(run, i + 1, a, b, steps[i], x);
    forall y | 0 <= y < |a| && a[y].isLast
      ensures NotWorse(a[x], a[y], run.metric) && (y < x ==> !NotWorse(a[y], a[x], run.metric))
    {
      assert y in last;
      var c :| 0 <= c < |last| && last[c] == y;
      assert y < x ==> c < t;
    }
  }

  /** The first tree holds the original plan with its measurement alone, and it stays the root. */
  lemma {:induction false} RootIsOriginal(run: Settings, trees: seq<seq<Node>>, steps: seq<Step>, i: nat)
    requires IsRun(run, trees, steps) && i < |trees|
    ensures |trees[0]| == 1 && trees[i] != []
    ensures trees[i][0].id == None && trees[i][0].parent == None && trees[i][0].patches == Some([]) && trees[i][0].valid
    ensures trees[i][0].stats == run.stats
  {
    RunsOnlyAdd(run, trees, steps, 0, i);
    assert trees[0][0].(isLast := false, isLeaf := false) == trees[i][0].(isLast := false, isLeaf := false);
  }
}
