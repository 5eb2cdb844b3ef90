/** `_process_sampling_results`: the patches reported for a query. */
module Ranking {
  import opened Basics
  import opened Json
  import opened StableSorting
  import opened SampleTree
  import opened BaseSelection
  import opened SampleRuns
  import Patching = JsonPatch

  datatype Candidate = Candidate(patchOps: Patch, stats: Option<Stats>, metric: Option<real>)

  /** The three parallel lists of the report. */
  datatype Report = Report(patches: seq<Option<Patch>>, stats: seq<Option<Stats>>, improvement: seq<Option<real>>)

  function CandidateAt(nodes: seq<Node>, k: nat, path: string): Candidate
    requires IsTree(nodes) && k < |nodes|
  {
    Candidate(Upstream(nodes, k, false), nodes[k].stats, MetricOf(nodes[k].stats, path))
  }

  function Rank(c: Candidate): Ranked<Candidate> {
    Ranked(MetricKey(c.metric), c)
  }

  predicate IsContender(n: Node, path: string) {
    n.id.Some? && n.valid && MetricOf(n.stats, path).Some?
  }

  /** The valid, measured samples among the first `k` nodes. */
  function Contenders(nodes: seq<Node>, path: string, k: nat): (r: seq<Ranked<nat>>)
    requires k <= |nodes|
    ensures forall x :: x in r <==> x.item < k && IsContender(nodes[x.item], path) && x.key == MetricKey(MetricOf(nodes[x.item].stats, path))
  {
    if k == 0 then []
    else Contenders(nodes, path, k - 1) +
         if IsContender(nodes[k - 1], path) then [Ranked(MetricKey(MetricOf(nodes[k - 1].stats, path)), k - 1)] else []
  }

  method CollectContenders(nodes: seq<Node>, path: string) returns (r: seq<Ranked<nat>>)
    ensures r == Contenders(nodes, path, |nodes|)
  {
    r := [];
    var k: nat := 0;
    while k < |nodes|
      invariant 0 <= k <= |nodes| && r == Contenders(nodes, path, k)
    {
      if IsContender(nodes[k], path) {
        r := r + [Ranked(MetricKey(MetricOf(nodes[k].stats, path)), k)];
      }
      k := k + 1;
    }
  }

  predicate Inside(sorted: seq<Ranked<nat>>, nodes: seq<Node>) {
    forall i | 0 <= i < |sorted| :: sorted[i].item < |nodes|
  }

  /** The base plan, then the given samples. */
  function Entries(nodes: seq<Node>, path: string, sorted: seq<Ranked<nat>>): (r: seq<Ranked<Candidate>>)
    requires IsTree(nodes) && Inside(sorted, nodes)
    ensures |r| == |sorted| + 1 && r[0] == Rank(CandidateAt(nodes, 0, path))
    ensures forall i | 0 <= i < |sorted| :: r[i + 1] == Rank(CandidateAt(nodes, sorted[i].item, path))
  {
    [Rank(CandidateAt(nodes, 0, path))] +
    seq(|sorted|, i requires 0 <= i < |sorted| => Rank(CandidateAt(nodes, sorted[i].item, path)))
  }

  lemma {:induction false} SortedInside(nodes: seq<Node>, path: string)
    ensures Inside(StableSort(Contenders(nodes, path, |nodes|)), nodes)
    ensures forall x :: x in StableSort(Contenders(nodes, path, |nodes|)) <==> x in Contenders(nodes, path, |nodes|)
  {
    var s := Contenders(nodes, path, |nodes|);
    SortOrders(s);
    forall x ensures x in StableSort(s) <==> x in s {
      assert x in StableSort(s) <==> x in multiset(StableSort(s));
    }
    assert forall i | 0 <= i < |StableSort(s)| :: StableSort(s)[i] in StableSort(s);
  }

  /** `ranked_candidates` before and after it is sorted. */
  function Unranked(nodes: seq<Node>, path: string): seq<Ranked<Candidate>>
    requires IsTree(nodes)
  {
    SortedInside(nodes, path);
    Entries(nodes, path, StableSort(Contenders(nodes, path, |nodes|)))
  }

  function RankedCandidates(nodes: seq<Node>, path: string): seq<Ranked<Candidate>>
    requires IsTree(nodes)
  {
    StableSort(Unranked(nodes, path))
  }

  /** The loop over the sorted valid candidates. */
  method CollectEntries(nodes: seq<Node>, path: string, sorted: seq<Ranked<nat>>) returns (entries: seq<Ranked<Candidate>>)
    requires IsTree(nodes) && Inside(sorted, nodes)
    ensures entries == Entries(nodes, path, sorted)
  {
    entries := [Rank(Candidate([], nodes[0].stats, MetricOf(nodes[0].stats, path)))];
    var i := 0;
    while i < |sorted|
      invariant 0 <= i <= |sorted| && |entries| == i + 1 && entries[0] == Rank(CandidateAt(nodes, 0, path))
      invariant forall j | 0 <= j < i :: entries[j + 1] == Rank(CandidateAt(nodes, sorted[j].item, path))
    {
      var k := sorted[i].item;
      var patchOps := GetUpstreamPatches(nodes, k, false);
      entries := entries + [Rank(Candidate(patchOps, nodes[k].stats, MetricOf(nodes[k].stats, path)))];
      i := i + 1;
    }
    EntriesAre(nodes, path, sorted, entries);
  }

  lemma {:induction false} EntriesAre(nodes: seq<Node>, path: string, sorted: seq<Ranked<nat>>, entries: seq<Ranked<Candidate>>)
    requires IsTree(nodes) && Inside(sorted, nodes) && |entries| == |sorted| + 1
    requires entries[0] == Rank(CandidateAt(nodes, 0, path))
    requires forall j | 0 <= j < |sorted| :: entries[j + 1] == Rank(CandidateAt(nodes, sorted[j].item, path))
    ensures entries == Entries(nodes, path, sorted)
  {
    var all := Entries(nodes, path, sorted);
    forall k | 0 <= k < |entries| ensures entries[k] == all[k] {
      if k > 0 {
        assert entries[k - 1 + 1] == all[k - 1 + 1];
      }
    }
  }

  method RankCandidates(nodes: seq<Node>, path: string) returns (ranked: seq<Ranked<Candidate>>)
    requires IsTree(nodes)
    ensures ranked == RankedCandidates(nodes, path)
  {
    var contenders := CollectContenders(nodes, path);
    SortedInside(nodes, path);
    var entries := CollectEntries(nodes, path, StableSort(contenders));
    ranked := StableSort(entries);
  }

  function Improvement(baseMetric: Option<real>, metric: Option<real>): Option<real> {
    if baseMetric.Some? && metric.Some? && metric.value > 0.0 then Some(baseMetric.value / metric.value) else None
  }

  /** The report lists the first `topK` ranked candidates, padded with `None`. */
  ghost predicate Reports(report: Report, ranked: seq<Ranked<Candidate>>, baseMetric: Option<real>, topK: nat) {
    && |report.patches| == |report.stats| == |report.improvement| == topK
    && forall i | 0 <= i < topK ::
         if i < |ranked| then
           && report.patches[i] == Some(ranked[i].item.patchOps)
           && report.stats[i] == ranked[i].item.stats
           && report.improvement[i] == Improvement(baseMetric, ranked[i].item.metric)
         else report.patches[i] == None && report.stats[i] == None && report.improvement[i] == None
  }

  /** The part of `_process_sampling_results` that makes the patch list of one query. */
  method ProcessSamplingResults(nodes: seq<Node>, path: string, topK: nat) returns (report: Report)
    requires IsTree(nodes)
    ensures Reports(report, RankedCandidates(nodes, path), MetricOf(nodes[0].stats, path), topK)
  {
    var ranked := RankCandidates(nodes, path);
    var baseMetric := MetricOf(nodes[0].stats, path);
    var patches: seq<Option<Patch>>, stats: seq<Option<Stats>>, improvement: seq<Option<real>> := [], [], [];
    var i := 0;
    while i < |ranked| && i < topK
      invariant 0 <= i <= |ranked| && i <= topK
      invariant Reports(Report(patches, stats, improvement), ranked, baseMetric, i)
    {
      var c := ranked[i].item;
      patches, stats := patches + [Some(c.patchOps)], stats + [c.stats];
      improvement := improvement + [Improvement(baseMetric, c.metric)];
      i := i + 1;
    }
    report := Pad(Report(patches, stats, improvement), ranked, baseMetric, i, topK);
  }

  /** The loop that pads the lists. */
  method Pad(report: Report, ghost ranked: seq<Ranked<Candidate>>, ghost baseMetric: Option<real>, ghost n: nat, topK: nat)
    returns (padded: Report)
    requires Reports(report, ranked, baseMetric, n) && n <= topK && (n < topK ==> n == |ranked|)
    ensures Reports(padded, ranked, baseMetric, topK)
  {
    padded := report;
    while |padded.patches| < topK
      invariant n <= |padded.patches| <= topK
      invariant Reports(padded, ranked, baseMetric, |padded.patches|)
    {
      padded := Report(padded.patches + [None], padded.stats + [None], padded.improvement + [None]);
    }
  }

  // ----- What is reported -----

  /** Every ranked candidate is the base plan or a valid, measured sample, and all of them are ranked. */
  lemma {:induction false} RankedAre(nodes: seq<Node>, path: string, i: nat) returns (k: nat)
    requires IsTree(nodes) && i < |RankedCandidates(nodes, path)|
    ensures k < |nodes| && (k == 0 || IsContender(nodes[k], path))
    ensures RankedCandidates(nodes, path)[i] == Rank(CandidateAt(nodes, k, path))
  {
    var entries := Unranked(nodes, path);
    SortOrders(entries);
    SortedInside(nodes, path);
    var x := StableSort(entries)[i];
    assert x in multiset(StableSort(entries));
    assert x in entries;
    var j :| 0 <= j < |entries| && entries[j] == x;
    if j == 0 {
      k := 0;
    } else {
      var sorted := StableSort(Contenders(nodes, path, |nodes|));
      k := sorted[j - 1].item;
      assert sorted[j - 1] in sorted;
    }
  }

  lemma {:induction false} AllAreRanked(nodes: seq<Node>, path: string, k: nat) returns (i: nat)
    requires IsTree(nodes) && k < |nodes| && (k == 0 || IsContender(nodes[k], path))
    ensures i < |RankedCandidates(nodes, path)|
    ensures RankedCandidates(nodes, path)[i] == Rank(CandidateAt(nodes, k, path))
  {
    var entries := Unranked(nodes, path);
    SortOrders(entries);
    SortedInside(nodes, path);
    var target := Rank(CandidateAt(nodes, k, path));
    assert target in entries by {
      if k == 0 {
        assert entries[0] == target;
      } else {
        var sorted := StableSort(Contenders(nodes, path, |nodes|));
        var x := Ranked(MetricKey(MetricOf(nodes[k].stats, path)), k);
        assert x in sorted;
        var j :| 0 <= j < |sorted| && sorted[j] == x;
        assert entries[j + 1] == target;
      }
    }
    assert target in multiset(StableSort(entries));
    assert target in StableSort(entries);
    i :| 0 <= i < |StableSort(entries)| && StableSort(entries)[i] == target;
  }

  /**
    The patch list reported at any rank is the one that the reported statistics
    were measured on, and it applies to the base plan.
   */
  lemma {:induction false} ReportedWasMeasured(plan: Json, nodes: seq<Node>, path: string, topK: nat, report: Report, i: nat)
    requires Provenance(nodes) && AllApply(plan, nodes) && i < topK
    requires Reports(report, RankedCandidates(nodes, path), MetricOf(nodes[0].stats, path), topK)
    ensures report.patches[i].Some? && report.stats[i].Some? ==> report.stats[i].value.measuredOn == report.patches[i].value
    ensures report.patches[i].Some? ==> Patching.Apply(plan, Arr(report.patches[i].value)).Ok?
  {
    if i < |RankedCandidates(nodes, path)| {
      var k := RankedAre(nodes, path, i);
      assert MeasuredAt(nodes, k);
      assert Patching.Apply(plan, Arr(Upstream(nodes, k, false))).Ok?;
    }
  }

  /**
    In every uninterrupted run: after any number of steps, whatever was sampled
    and however the evaluations ended, each reported patch list is the one its
    reported statistics were measured on, and it applies to the base plan.
   */
  lemma {:induction false} RunsReportWhatWasMeasured(run: Settings, trees: seq<seq<Node>>, steps: seq<Step>, k: nat, topK: nat, report: Report, i: nat)
    requires IsRun(run, trees, steps) && BaseMeasured(run) && k < |trees| && i < topK && IsTree(trees[k])
    requires Reports(report, RankedCandidates(trees[k], run.metric), MetricOf(trees[k][0].stats, run.metric), topK)
    ensures report.patches[i].Some? && report.stats[i].Some? ==> report.stats[i].value.measuredOn == report.patches[i].value
    ensures report.patches[i].Some? ==> Patching.Apply(run.plan, Arr(report.patches[i].value)).Ok?
  {
    RunsKeepProvenance(run, trees, steps, k);
    ReportedWasMeasured(run.plan, trees[k], run.metric, topK, report, i);
  }

  /** Ranks are ordered by metric, and nothing that is left out beats what is reported. */
  lemma {:induction false} ReportedAreBest(nodes: seq<Node>, path: string, i: nat, k: nat) returns (j: nat)
    requires IsTree(nodes) && i < |RankedCandidates(nodes, path)|
    requires k < |nodes| && (k == 0 || IsContender(nodes[k], path))
    ensures j < |RankedCandidates(nodes, path)| && RankedCandidates(nodes, path)[j] == Rank(CandidateAt(nodes, k, path))
    ensures j >= i ==> Leq(RankedCandidates(nodes, path)[i].key, MetricKey(MetricOf(nodes[k].stats, path)))
  {
    j := AllAreRanked(nodes, path, k);
    SortOrders(Unranked(nodes, path));
  }

  /** The first reported plan is never slower than the base plan: its improvement factor is at least 1. */
  lemma {:induction false} WinnerImproves(nodes: seq<Node>, path: string, topK: nat, report: Report)
    requires IsTree(nodes) && 1 <= topK
    requires Reports(report, RankedCandidates(nodes, path), MetricOf(nodes[0].stats, path), topK)
    ensures report.patches[0].Some?
    ensures report.improvement[0].Some? ==> report.improvement[0].value >= 1.0
  {
    var ranked := RankedCandidates(nodes, path);
    SortOrders(Unranked(nodes, path));
    assert ranked != [];
    var j := ReportedAreBest(nodes, path, 0, 0);
    var k := RankedAre(nodes, path, 0);
    if report.improvement[0].Some? {
      AtLeastOne(MetricOf(nodes[0].stats, path).value, ranked[0].item.metric.value);
    }
  }

  lemma {:induction false} FactorAtLeastOne(q: real, b: real)
    requires 0.0 < b && b <= q * b
    ensures q >= 1.0
  {
    assert (q - 1.0) * b >= 0.0;
  }

  lemma {:induction false} AtLeastOne(a: real, b: real)
    requires 0.0 < b <= a
    ensures a / b >= 1.0
  {
    FactorAtLeastOne(a / b, b);
  }

  // ----- The report in terms of the stored metrics -----

  /** A measurement with a reading at this path. */
  predicate Reads(stats: Option<Stats>, path: string) {
    stats.Some? && path in stats.value.metrics
  }

  lemma {:induction false} QuotientTimes(a: real, b: real)
    requires b > 0.0
    ensures a / b * b == a
  {}

  /**
    The improvement factor at a rank: present exactly if the base plan has a
    metric and the reported candidate a positive one, and then the factor times
    the candidate's metric is the base metric.
   */
  lemma {:induction false} ImprovementIs(nodes: seq<Node>, path: string, topK: nat, report: Report, i: nat)
    requires IsTree(nodes) && i < topK
    requires Reports(report, RankedCandidates(nodes, path), MetricOf(nodes[0].stats, path), topK)
    ensures report.improvement[i].Some? <==>
            report.patches[i].Some? && Reads(nodes[0].stats, path) && Reads(report.stats[i], path) && report.stats[i].value.metrics[path] > 0.0
    ensures report.improvement[i].Some? ==>
              report.improvement[i].value * report.stats[i].value.metrics[path] == nodes[0].stats.value.metrics[path]
  {
    if i < |RankedCandidates(nodes, path)| {
      var k := RankedAre(nodes, path, i);
      if report.improvement[i].Some? {
        QuotientTimes(nodes[0].stats.value.metrics[path], report.stats[i].value.metrics[path]);
      }
    }
  }

  /** The valid samples with a reading. */
  function MeasuredSamples(nodes: seq<Node>, path: string, n: nat): set<nat>
    requires n <= |nodes|
  {
    set k | 0 < k < n && nodes[k].valid && Reads(nodes[k].stats, path)
  }

  lemma {:induction false} ContenderCount(nodes: seq<Node>, path: string, n: nat)
    requires IsTree(nodes) && n <= |nodes|
    ensures |Contenders(nodes, path, n)| == |MeasuredSamples(nodes, path, n)|
  {
    if n > 0 {
      ContenderCount(nodes, path, n - 1);
      RootIsFirst(nodes, n - 1);
      if n > 1 && nodes[n - 1].valid && Reads(nodes[n - 1].stats, path) {
        assert MeasuredSamples(nodes, path, n) == MeasuredSamples(nodes, path, n - 1) + {n - 1};
      } else {
        assert MeasuredSamples(nodes, path, n) == MeasuredSamples(nodes, path, n - 1);
      }
    } else {
      assert MeasuredSamples(nodes, path, 0) == {};
    }
  }

  lemma {:induction false} RankedCount(nodes: seq<Node>, path: string)
    requires IsTree(nodes)
    ensures |RankedCandidates(nodes, path)| == |MeasuredSamples(nodes, path, |nodes|)| + 1
  {
    ContenderCount(nodes, path, |nodes|);
    SortOrders(Contenders(nodes, path, |nodes|));
    SortedInside(nodes, path);
    SortOrders(Unranked(nodes, path));
  }

  /**
    How long the report is: the base plan and every valid sample with a reading
    are ranked, as far as there is room, and the rest is padding.
   */
  lemma {:induction false} ReportLength(nodes: seq<Node>, path: string, topK: nat, report: Report, i: nat)
    requires IsTree(nodes) && i < topK
    requires Reports(report, RankedCandidates(nodes, path), MetricOf(nodes[0].stats, path), topK)
    ensures |report.patches| == |report.stats| == |report.improvement| == topK
    ensures report.patches[i].Some? <==> i <= |MeasuredSamples(nodes, path, |nodes|)|
    ensures report.patches[i].None? ==> report.stats[i].None? && report.improvement[i].None?
  {
    RankedCount(nodes, path);
  }

  /** What is reported at a rank: the patches and the measurement of the base plan or of a valid sample with a reading. */
  lemma {:induction false} ReportedIs(nodes: seq<Node>, path: string, topK: nat, report: Report, i: nat) returns (k: nat)
    requires IsTree(nodes) && i < topK
    requires Reports(report, RankedCandidates(nodes, path), MetricOf(nodes[0].stats, path), topK)
    ensures report.patches[i].Some? ==>
              && k < |nodes| && (k == 0 || (nodes[k].valid && Reads(nodes[k].stats, path)))
              && report.patches[i].value == Upstream(nodes, k, false) && report.stats[i] == nodes[k].stats
  {
    k := 0;
    if i < |RankedCandidates(nodes, path)| {
      k := RankedAre(nodes, path, i);
    }
  }

  /** The order of the ranks, by the stored readings; without a reading a candidate comes last. */
  lemma {:induction false} RanksAscend(nodes: seq<Node>, path: string, topK: nat, report: Report, i: nat, j: nat)
    requires IsTree(nodes) && i < j < topK
    requires Reports(report, RankedCandidates(nodes, path), MetricOf(nodes[0].stats, path), topK) && report.patches[j].Some?
    ensures report.patches[i].Some?
    ensures Reads(report.stats[j], path) ==>
              Reads(report.stats[i], path) && report.stats[i].value.metrics[path] <= report.stats[j].value.metrics[path]
  {
    var x := RankedAre(nodes, path, i);
    var y := RankedAre(nodes, path, j);
    SortOrders(Unranked(nodes, path));
    assert Leq(RankedCandidates(nodes, path)[i].key, RankedCandidates(nodes, path)[j].key);
  }
}
