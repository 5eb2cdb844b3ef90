/** Which nodes of the tree the next samples start from: `get_base_plans_for_sampling`. */
module BaseSelection {
  import opened Basics
  import opened StableSorting
  import opened SampleTree

  datatype StartingSelector = Original | SoFar | OfLast | OfLeafs

  datatype FinalSelector = All | Best1 | BestN

  datatype Strategy = Strategy(
    start: StartingSelector, final: FinalSelector, fromValidOnly: bool,
    metric: Option<string>, bestN: Option<nat>)

  datatype SelectionError = MetricMissing | BestNMissing

  /** What a new sample starts from. */
  datatype Base = Base(parent: Option<nat>, upstream: Patch, upstreamStats: Option<Stats>)

  /** `get_metric_value`. */
  function MetricOf(stats: Option<Stats>, path: string): Option<real> {
    if stats.Some? && path in stats.value.metrics then Some(stats.value.metrics[path]) else None
  }

  /** The metric as a number, missing ones last. */
  function MetricKey(metric: Option<real>): Key {
    if metric.Some? then Finite(metric.value) else Infinite
  }

  /** The key of `get_best_plan_infos`: `metric or float('inf')`, where 0 counts as missing. */
  function BestKey(metric: Option<real>): Key {
    if metric == Some(0.0) then Infinite else MetricKey(metric)
  }

  predicate Starts(n: Node, s: Strategy) {
    && (s.start.OfLast? ==> n.isLast)
    && (s.start.OfLeafs? ==> n.isLeaf)
    && (s.fromValidOnly ==> n.valid)
  }

  /** The positions of the candidates among the first `k` nodes. */
  function Candidates(nodes: seq<Node>, s: Strategy, k: nat): (r: seq<nat>)
    requires k <= |nodes|
    ensures Within(r, nodes)
  {
    if k == 0 then [] else Candidates(nodes, s, k - 1) + if Starts(nodes[k - 1], s) then [k - 1] else []
  }

  lemma {:induction false} CandidatesAre(nodes: seq<Node>, s: Strategy, k: nat)
    requires k <= |nodes|
    ensures forall i :: i in Candidates(nodes, s, k) <==> 0 <= i < k && Starts(nodes[i], s)
  {
    if k > 0 {
      CandidatesAre(nodes, s, k - 1);
    }
  }

  predicate Within(positions: seq<nat>, nodes: seq<Node>) {
    forall i | 0 <= i < |positions| :: positions[i] < |nodes|
  }

  function RankedBy(nodes: seq<Node>, positions: seq<nat>, path: string): (r: seq<Ranked<nat>>)
    requires Within(positions, nodes)
    ensures |r| == |positions|
    ensures forall i | 0 <= i < |r| :: r[i] == Ranked(BestKey(MetricOf(nodes[positions[i]].stats, path)), positions[i])
  {
    seq(|positions|, i requires 0 <= i < |positions| => Ranked(BestKey(MetricOf(nodes[positions[i]].stats, path)), positions[i]))
  }

  function Items(ranked: seq<Ranked<nat>>): (r: seq<nat>)
    ensures |r| == |ranked| && forall i | 0 <= i < |r| :: r[i] == ranked[i].item
  {
    seq(|ranked|, i requires 0 <= i < |ranked| => ranked[i].item)
  }

  function Take<T>(s: seq<T>, n: nat): seq<T> {
    if n < |s| then s[..n] else s
  }

  /** `get_best_plan_infos`. */
  function Best(nodes: seq<Node>, positions: seq<nat>, path: string, n: nat): seq<nat>
    requires Within(positions, nodes)
  {
    Take(Items(StableSort(RankedBy(nodes, positions, path))), n)
  }

  function Narrowed(nodes: seq<Node>, s: Strategy, positions: seq<nat>): Result<seq<nat>, SelectionError>
    requires Within(positions, nodes)
  {
    match s.final
    case All => Ok(positions)
    case Best1 => if s.metric.None? then Err(MetricMissing) else Ok(Best(nodes, positions, s.metric.value, 1))
    case BestN =>
      if s.bestN.None? then Err(BestNMissing)
      else if s.metric.None? then Err(MetricMissing)
      else Ok(Best(nodes, positions, s.metric.value, s.bestN.value))
  }

  /** The positions of the selected nodes, in the order of the result. */
  function Selected(nodes: seq<Node>, s: Strategy): Result<seq<nat>, SelectionError>
    requires nodes != []
  {
    if s.start.Original? then Ok([0]) else Narrowed(nodes, s, Candidates(nodes, s, |nodes|))
  }

  function BaseAt(nodes: seq<Node>, k: nat): Base
    requires IsTree(nodes) && k < |nodes|
  {
    Base(nodes[k].id, Upstream(nodes, k, false), nodes[NearestValid(nodes, k)].stats)
  }

  lemma {:induction false} BestWithin(nodes: seq<Node>, positions: seq<nat>, path: string, n: nat)
    requires Within(positions, nodes)
    ensures |Best(nodes, positions, path, n)| == if n < |positions| then n else |positions|
    ensures forall i | 0 <= i < |Best(nodes, positions, path, n)| :: Best(nodes, positions, path, n)[i] in positions
  {
    var ranked := RankedBy(nodes, positions, path);
    SortOrders(ranked);
    forall i | 0 <= i < |positions| ensures StableSort(ranked)[i].item in positions {
      assert StableSort(ranked)[i] in multiset(StableSort(ranked));
      assert StableSort(ranked)[i] in ranked;
    }
  }

  /** Only nodes of the tree are selected, and only candidates. */
  lemma {:induction false} SelectedWithin(nodes: seq<Node>, s: Strategy)
    requires nodes != [] && Selected(nodes, s).Ok?
    ensures Within(Selected(nodes, s).value, nodes)
    ensures !s.start.Original? ==> forall i | 0 <= i < |Selected(nodes, s).value| :: Starts(nodes[Selected(nodes, s).value[i]], s)
  {
    if !s.start.Original? {
      var positions := Candidates(nodes, s, |nodes|);
      CandidatesAre(nodes, s, |nodes|);
      match s.final
      case All =>
      case Best1 => BestWithin(nodes, positions, s.metric.value, 1);
      case BestN => BestWithin(nodes, positions, s.metric.value, s.bestN.value);
      forall i | 0 <= i < |Selected(nodes, s).value| ensures Selected(nodes, s).value[i] in positions {}
    }
  }

  function BasesAt(nodes: seq<Node>, positions: seq<nat>): (r: seq<Base>)
    requires IsTree(nodes) && Within(positions, nodes)
    ensures |r| == |positions| && forall i | 0 <= i < |r| :: r[i] == BaseAt(nodes, positions[i])
  {
    seq(|positions|, i requires 0 <= i < |positions| => BaseAt(nodes, positions[i]))
  }

  function Bases(nodes: seq<Node>, s: Strategy): Result<seq<Base>, SelectionError>
    requires IsTree(nodes)
  {
    var positions :- Selected(nodes, s);
    SelectedWithin(nodes, s);
    Ok(BasesAt(nodes, positions))
  }

  method CollectCandidates(nodes: seq<Node>, s: Strategy) returns (positions: seq<nat>)
    ensures positions == Candidates(nodes, s, |nodes|)
  {
    positions := [];
    var k: nat := 0;
    while k < |nodes|
      invariant 0 <= k <= |nodes| && positions == Candidates(nodes, s, k)
    {
      if Starts(nodes[k], s) {
        positions := positions + [k];
      }
      k := k + 1;
    }
  }

  method CollectBases(nodes: seq<Node>, selected: seq<nat>) returns (bases: seq<Base>)
    requires IsTree(nodes) && Within(selected, nodes)
    ensures bases == BasesAt(nodes, selected)
  {
    bases := [];
    var i := 0;
    while i < |selected|
      invariant 0 <= i <= |selected| && |bases| == i
      invariant forall j | 0 <= j < i :: bases[j] == BaseAt(nodes, selected[j])
    {
      var upstream := GetUpstreamPatches(nodes, selected[i], false);
      var stats := GetUpstreamEvaluationStats(nodes, selected[i]);
      bases := bases + [Base(nodes[selected[i]].id, upstream, stats)];
      i := i + 1;
    }
  }

  /** `get_base_plans_for_sampling`. */
  method GetBasePlansForSampling(nodes: seq<Node>, s: Strategy) returns (r: Result<seq<Base>, SelectionError>)
    requires IsTree(nodes)
    ensures r == Bases(nodes, s)
  {
    if s.start.Original? {
      assert BasesAt(nodes, [0]) == [Base(None, [], nodes[0].stats)];
      return Ok([Base(None, [], nodes[0].stats)]);
    }
    var positions := CollectCandidates(nodes, s);
    var selected :- Narrowed(nodes, s, positions);
    SelectedWithin(nodes, s);
    var bases := CollectBases(nodes, selected);
    return Ok(bases);
  }

  // ----- The best candidate -----

  /** No candidate has a smaller metric. */
  predicate HasLeastMetric(nodes: seq<Node>, positions: seq<nat>, path: string, c: nat)
    requires Within(positions, nodes) && c < |nodes|
  {
    forall i | 0 <= i < |positions| ::
      Leq(MetricKey(MetricOf(nodes[c].stats, path)), MetricKey(MetricOf(nodes[positions[i]].stats, path)))
  }

  function MetricAt(nodes: seq<Node>, positions: seq<nat>, path: string, i: nat): Option<real>
    requires Within(positions, nodes) && i < |positions|
  {
    MetricOf(nodes[positions[i]].stats, path)
  }

  /** A metric of exactly 0 is not overlooked. */
  predicate ZeroIsHarmless(nodes: seq<Node>, positions: seq<nat>, path: string)
    requires Within(positions, nodes) && positions != []
  {
    || (forall i | 0 <= i < |positions| :: MetricAt(nodes, positions, path, i) != Some(0.0))
    || (exists i | 0 <= i < |positions| :: MetricAt(nodes, positions, path, i).Some? && MetricAt(nodes, positions, path, i).value < 0.0)
    || (MetricAt(nodes, positions, path, 0) == Some(0.0)
        && forall i | 0 <= i < |positions| :: MetricAt(nodes, positions, path, i) in {None, Some(0.0)})
  }

  /**
    `best_1` takes a candidate with the least metric if and only if no candidate
    measures exactly 0, some candidate measures less, or all measured ones
    measure 0 and the first candidate is measured.
   */
  lemma {:induction false} BestIsLeastIff(nodes: seq<Node>, positions: seq<nat>, path: string)
    requires Within(positions, nodes) && positions != []
    ensures |Best(nodes, positions, path, 1)| == 1 && Best(nodes, positions, path, 1)[0] < |nodes|
    ensures HasLeastMetric(nodes, positions, path, Best(nodes, positions, path, 1)[0]) <==> ZeroIsHarmless(nodes, positions, path)
  {
    var ranked := RankedBy(nodes, positions, path);
    SortFirst(ranked);
    SortOrders(ranked);
    var k := FirstLeast(ranked);
    assert Best(nodes, positions, path, 1)[0] == positions[k];
    ChosenIsLeastIff(nodes, positions, path, k);
  }

  lemma {:induction false} HarmlessIsLeast(nodes: seq<Node>, positions: seq<nat>, path: string, k: nat)
    requires Within(positions, nodes) && positions != [] && k == FirstLeast(RankedBy(nodes, positions, path))
    requires ZeroIsHarmless(nodes, positions, path)
    ensures HasLeastMetric(nodes, positions, path, positions[k])
  {
    var ranked := RankedBy(nodes, positions, path);
    var best := MetricAt(nodes, positions, path, k);
    if MetricAt(nodes, positions, path, 0) == Some(0.0)
      && forall i | 0 <= i < |positions| :: MetricAt(nodes, positions, path, i) in {None, Some(0.0)}
    {
      assert ranked[0].key == Infinite && MetricAt(nodes, positions, path, k) in {None, Some(0.0)};
      assert k == 0;
      forall i | 0 <= i < |positions| ensures Leq(MetricKey(best), MetricKey(MetricAt(nodes, positions, path, i))) {
        assert MetricAt(nodes, positions, path, i) in {None, Some(0.0)};
      }
    } else {
      forall i | 0 <= i < |positions| ensures Leq(MetricKey(best), MetricKey(MetricAt(nodes, positions, path, i))) {
        assert Leq(ranked[k].key, ranked[i].key);
        assert MetricAt(nodes, positions, path, i) == Some(0.0) ==> best != None && best.value < 0.0 by {
          if j :| 0 <= j < |positions| && MetricAt(nodes, positions, path, j).Some? && MetricAt(nodes, positions, path, j).value < 0.0 {
            assert Leq(ranked[k].key, ranked[j].key);
          }
        }
      }
    }
    assert forall i | 0 <= i < |positions| :: MetricAt(nodes, positions, path, i) == MetricOf(nodes[positions[i]].stats, path);
  }

  /** A metric above 0 hides a metric of 0, unless some metric is negative. */
  lemma {:induction false} PositiveHidesZero(nodes: seq<Node>, positions: seq<nat>, path: string, k: nat, z: nat, p: nat)
    requires Within(positions, nodes) && positions != [] && k == FirstLeast(RankedBy(nodes, positions, path))
    requires z < |positions| && MetricAt(nodes, positions, path, z) == Some(0.0)
    requires forall i | 0 <= i < |positions| :: MetricAt(nodes, positions, path, i).Some? ==> MetricAt(nodes, positions, path, i).value >= 0.0
    requires p < |positions| && MetricAt(nodes, positions, path, p).Some? && MetricAt(nodes, positions, path, p).value > 0.0
    ensures !HasLeastMetric(nodes, positions, path, positions[k])
  {
    var ranked := RankedBy(nodes, positions, path);
    assert Leq(ranked[k].key, ranked[p].key);
    assert MetricAt(nodes, positions, path, k).value > 0.0;
    assert !Leq(MetricKey(MetricAt(nodes, positions, path, k)), MetricKey(MetricAt(nodes, positions, path, z)));
  }

  /** Without positive metrics the first candidate is taken, even if it was not measured. */
  lemma {:induction false} UnmeasuredHidesZero(nodes: seq<Node>, positions: seq<nat>, path: string, k: nat, z: nat)
    requires Within(positions, nodes) && positions != [] && k == FirstLeast(RankedBy(nodes, positions, path))
    requires z < |positions| && MetricAt(nodes, positions, path, z) == Some(0.0)
    requires forall i | 0 <= i < |positions| :: MetricAt(nodes, positions, path, i) in {None, Some(0.0)}
    requires MetricAt(nodes, positions, path, 0) != Some(0.0)
    ensures !HasLeastMetric(nodes, positions, path, positions[k])
  {
    var ranked := RankedBy(nodes, positions, path);
    assert MetricAt(nodes, positions, path, 0) in {None, Some(0.0)};
    assert ranked[0].key == Infinite;
    assert MetricAt(nodes, positions, path, k) in {None, Some(0.0)};
    assert k == 0;
    assert !Leq(MetricKey(MetricAt(nodes, positions, path, 0)), MetricKey(MetricAt(nodes, positions, path, z)));
  }

  lemma {:induction false} ChosenIsLeastIff(nodes: seq<Node>, positions: seq<nat>, path: string, k: nat)
    requires Within(positions, nodes) && positions != [] && k == FirstLeast(RankedBy(nodes, positions, path))
    ensures HasLeastMetric(nodes, positions, path, positions[k]) <==> ZeroIsHarmless(nodes, positions, path)
  {
    if ZeroIsHarmless(nodes, positions, path) {
      HarmlessIsLeast(nodes, positions, path, k);
    } else {
      var z :| 0 <= z < |positions| && MetricAt(nodes, positions, path, z) == Some(0.0);
      if p :| 0 <= p < |positions| && MetricAt(nodes, positions, path, p).Some? && MetricAt(nodes, positions, path, p).value > 0.0 {
        PositiveHidesZero(nodes, positions, path, k, z, p);
      } else {
        UnmeasuredHidesZero(nodes, positions, path, k, z);
      }
    }
  }
}
