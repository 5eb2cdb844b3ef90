/** Whole sampling runs: sample, evaluate, accumulate, step after step. */
module SampleRuns {
  import opened Basics
  import opened Json
  import opened SampleTree
  import opened BaseSelection
  import opened SampleEvaluation
  import Patching = JsonPatch
  import Laws = JsonPatchLaws

  // ----- Sampling -----

  /** What the model returned for one sample: patches, if the response had any, or a failure. */
  datatype Generated = Generated(patches: Option<Patch>, failed: bool)

  function SampleFrom(b: Base, g: Generated): Sample {
    Sample(b.parent, b.upstream, b.upstreamStats, g.patches, !g.failed, None)
  }

  function SamplesFrom(b: Base, gs: seq<Generated>): (r: seq<Sample>)
    ensures |r| == |gs| && forall i | 0 <= i < |r| :: r[i] == SampleFrom(b, gs[i])
  {
    seq(|gs|, i requires 0 <= i < |gs| => SampleFrom(b, gs[i]))
  }

  /** All samples of a step, base by base. */
  function SampleAll(bases: seq<Base>, generated: seq<seq<Generated>>): seq<Sample>
    requires |bases| == |generated|
  {
    if bases == [] then [] else SamplesFrom(bases[0], generated[0]) + SampleAll(bases[1..], generated[1..])
  }

  /** The inner loop, over the generation results of one base. */
  method SampleBase(base: Base, gs: seq<Generated>) returns (samples: seq<Sample>)
    ensures samples == SamplesFrom(base, gs)
  {
    samples := [];
    var j := 0;
    while j < |gs|
      invariant 0 <= j <= |gs| && samples == SamplesFrom(base, gs)[..j]
    {
      samples := samples + [SampleFrom(base, gs[j])];
      j := j + 1;
    }
  }

  /** The loops of `sample_plans_from_file` over bases and generation results. */
  method SamplePlans(bases: seq<Base>, generated: seq<seq<Generated>>) returns (samples: seq<Sample>)
    requires |bases| == |generated|
    ensures samples == SampleAll(bases, generated)
  {
    samples := [];
    var i := 0;
    while i < |bases|
      invariant 0 <= i <= |bases|
      invariant SampleAll(bases, generated) == samples + SampleAll(bases[i..], generated[i..])
    {
      var next := SampleBase(bases[i], generated[i]);
      assert bases[i..][1..] == bases[i + 1..] && generated[i..][1..] == generated[i + 1..];
      samples := samples + next;
      i := i + 1;
    }
  }

  // ----- One step -----

  /** The oracles of a step: what was generated from each base, and how each evaluation ended. */
  datatype Step = Step(generated: seq<seq<Generated>>, outcomes: seq<Outcome>)

  /** `n` generated samples for every base, and an outcome for each of them. */
  predicate Answers(step: Step, bases: seq<Base>, n: nat) {
    && |step.generated| == |bases|
    && (forall i | 0 <= i < |bases| :: |step.generated[i]| == n)
    && |step.outcomes| == |SampleAll(bases, step.generated)|
  }

  function EvaluatedSamples(plan: Json, bases: seq<Base>, step: Step): (r: seq<Sample>)
    requires |step.generated| == |bases| && |step.outcomes| == |SampleAll(bases, step.generated)|
    ensures |r| == |step.outcomes|
    ensures forall i | 0 <= i < |r| :: r[i] == Judged(plan, SampleAll(bases, step.generated)[i], step.outcomes[i])
  {
    var samples := SampleAll(bases, step.generated);
    seq(|samples|, i requires 0 <= i < |samples| => Judged(plan, samples[i], step.outcomes[i]))
  }

  /** Where a sample comes from. */
  lemma {:induction false} SampleOrigin(bases: seq<Base>, generated: seq<seq<Generated>>, i: nat) returns (b: nat, g: Generated)
    requires |bases| == |generated| && i < |SampleAll(bases, generated)|
    ensures b < |bases| && SampleAll(bases, generated)[i] == SampleFrom(bases[b], g)
    decreases |bases|
  {
    if i < |generated[0]| {
      b, g := 0, generated[0][i];
    } else {
      var c;
      c, g := SampleOrigin(bases[1..], generated[1..], i - |generated[0]|);
      b := c + 1;
    }
  }

  lemma {:induction false} SampleCount(bases: seq<Base>, generated: seq<seq<Generated>>, n: nat)
    requires |bases| == |generated| && forall i | 0 <= i < |bases| :: |generated[i]| == n
    ensures |SampleAll(bases, generated)| == |bases| * n
    decreases |bases|
  {
    if bases != [] {
      SampleCount(bases[1..], generated[1..], n);
    }
  }

  /** Every upstream patch list applies to the base plan. */
  predicate AllApply(plan: Json, nodes: seq<Node>)
    requires IsTree(nodes)
  {
    forall k | 0 <= k < |nodes| :: Patching.Apply(plan, Arr(Upstream(nodes, k, false))).Ok?
  }

  /** A base is a node of the tree. */
  lemma {:induction false} BaseIsNode(nodes: seq<Node>, s: Strategy, b: nat) returns (k: nat)
    requires IsTree(nodes) && Bases(nodes, s).Ok? && b < |Bases(nodes, s).value|
    ensures k < |nodes| && Bases(nodes, s).value[b] == BaseAt(nodes, k)
  {
    SelectedWithin(nodes, s);
    k := Selected(nodes, s).value[b];
  }

  /** A sample taken from a node belongs to the tree, whatever its evaluation says. */
  lemma {:induction false} JudgedBelongs(plan: Json, nodes: seq<Node>, k: nat, g: Generated, o: Outcome)
    requires Provenance(nodes) && k < |nodes|
    ensures Belongs(nodes, Judged(plan, SampleFrom(BaseAt(nodes, k), g), o))
  {
    var s := SampleFrom(BaseAt(nodes, k), g);
    assert k > 0 ==> IsChild(nodes, k);
    if Judged(plan, s, o).valid {
      ValidHasPatches(plan, s, o);
      if s.patches.value == [] {
        NearestValidUpstream(nodes, k);
        assert MeasuredAt(nodes, NearestValid(nodes, k));
        assert s.upstream + [] == s.upstream;
      }
    }
  }

  lemma {:induction false} EvaluatedBelong(plan: Json, nodes: seq<Node>, s: Strategy, step: Step, n: nat)
    requires Provenance(nodes) && Bases(nodes, s).Ok? && Answers(step, Bases(nodes, s).value, n)
    ensures AllBelong(nodes, EvaluatedSamples(plan, Bases(nodes, s).value, step))
  {
    var bases := Bases(nodes, s).value;
    var samples := EvaluatedSamples(plan, bases, step);
    forall i | 0 <= i < |samples| ensures Belongs(nodes, samples[i]) {
      var b, g := SampleOrigin(bases, step.generated, i);
      var k := BaseIsNode(nodes, s, b);
      JudgedBelongs(plan, nodes, k, g, step.outcomes[i]);
    }
  }

  /** The tree after one step. */
  function After(plan: Json, nodes: seq<Node>, s: Strategy, step: Step): seq<Node>
    requires IsTree(nodes) && Bases(nodes, s).Ok?
    requires |step.generated| == |Bases(nodes, s).value|
    requires |step.outcomes| == |SampleAll(Bases(nodes, s).value, step.generated)|
  {
    Grown(nodes, EvaluatedSamples(plan, Bases(nodes, s).value, step))
  }

  lemma {:induction false} NewNodeApplies(plan: Json, nodes: seq<Node>, samples: seq<Sample>, j: nat, k: nat, g: Generated, o: Outcome)
    requires Provenance(nodes) && AllApply(plan, nodes) && AllBelong(nodes, samples) && j < |samples| && k < |nodes|
    requires samples[j] == Judged(plan, SampleFrom(BaseAt(nodes, k), g), o)
    ensures IsTree(Grown(nodes, samples))
    ensures Patching.Apply(plan, Arr(Upstream(Grown(nodes, samples), |nodes| + j, false))).Ok?
  {
    BelongingAttach(nodes, samples);
    assert Belongs(nodes, samples[j]);
    NewUpstream(nodes, samples, j);
    var s := SampleFrom(BaseAt(nodes, k), g);
    if samples[j].valid {
      ValidHasPatches(plan, s, o);
    }
    if !samples[j].valid || s.patches.value == [] {
      assert s.upstream + [] == s.upstream;
    }
  }

  /** Whatever is upstream of an old or a new node applies after the step. */
  lemma {:induction false} AppliesAfter(plan: Json, nodes: seq<Node>, s: Strategy, step: Step, n: nat, k: nat)
    requires Provenance(nodes) && AllApply(plan, nodes)
    requires Bases(nodes, s).Ok? && Answers(step, Bases(nodes, s).value, n)
    requires AllBelong(nodes, EvaluatedSamples(plan, Bases(nodes, s).value, step))
    requires k < |After(plan, nodes, s, step)| && IsTree(After(plan, nodes, s, step))
    ensures Patching.Apply(plan, Arr(Upstream(After(plan, nodes, s, step), k, false))).Ok?
  {
    var bases := Bases(nodes, s).value;
    var samples := EvaluatedSamples(plan, bases, step);
    if k < |nodes| {
      GrownExtends(nodes, samples);
      WalksAreStable(nodes, After(plan, nodes, s, step), k);
    } else {
      var b, g := SampleOrigin(bases, step.generated, k - |nodes|);
      var a := BaseIsNode(nodes, s, b);
      NewNodeApplies(plan, nodes, samples, k - |nodes|, a, g, step.outcomes[k - |nodes|]);
    }
  }

  /** A step keeps the invariant and the applicability of every upstream patch list. */
  lemma {:induction false} StepKeeps(plan: Json, nodes: seq<Node>, s: Strategy, step: Step, n: nat)
    requires Invariant(nodes) && AllApply(plan, nodes)
    requires Bases(nodes, s).Ok? && Answers(step, Bases(nodes, s).value, n)
    ensures Invariant(After(plan, nodes, s, step)) && AllApply(plan, After(plan, nodes, s, step))
    ensures Extends(nodes, After(plan, nodes, s, step))
  {
    EvaluatedBelong(plan, nodes, s, step, n);
    GrowthKeepsInvariant(nodes, EvaluatedSamples(plan, Bases(nodes, s).value, step));
    GrownExtends(nodes, EvaluatedSamples(plan, Bases(nodes, s).value, step));
    forall k | 0 <= k < |After(plan, nodes, s, step)|
      ensures Patching.Apply(plan, Arr(Upstream(After(plan, nodes, s, step), k, false))).Ok?
    {
      AppliesAfter(plan, nodes, s, step, n, k);
    }
  }

  // ----- Strategies -----

  datatype Kind = BolEvol | PstEvol | BestOf

  /** `_select_strategy`: the strategy and the number of samples per base. */
  function SelectStrategy(kind: Kind, stepIdx: nat, n: nat, metric: string): (Strategy, nat) {
    match kind
    case PstEvol =>
      if stepIdx == 1 then (Strategy(Original, All, false, None, None), n)
      else (Strategy(OfLast, All, false, None, None), 1)
    case BolEvol => (Strategy(OfLast, Best1, false, Some(metric), None), n)
    case BestOf => (Strategy(Original, All, false, None, None), n)
  }

  lemma {:induction false} LastCandidates(nodes: seq<Node>, s: Strategy, b: nat, k: nat)
    requires LastFrom(nodes, b) && k <= |nodes| && s.start.OfLast? && !s.fromValidOnly
    ensures |Candidates(nodes, s, k)| == if k <= b then 0 else k - b
    decreases k
  {
    if k > 0 {
      LastCandidates(nodes, s, b, k - 1);
    }
  }

  /** With `n` samples per base, a step of the evolution always has `n` samples in all. */
  lemma {:induction false} BaseCount(nodes: seq<Node>, kind: Kind, stepIdx: nat, n: nat, metric: string, b: nat)
    requires IsTree(nodes) && LastFrom(nodes, b) && 1 <= stepIdx && 1 <= n
    requires stepIdx > 1 ==> |nodes| - b == n
    ensures
      var (s, perBase) := SelectStrategy(kind, stepIdx, n, metric);
      Bases(nodes, s).Ok? && |Bases(nodes, s).value| * perBase == n
  {
    var (s, perBase) := SelectStrategy(kind, stepIdx, n, metric);
    if s.start.OfLast? {
      LastCandidates(nodes, s, b, |nodes|);
      if s.final.Best1? {
        BestWithin(nodes, Candidates(nodes, s, |nodes|), metric, 1);
      }
    }
  }

  // ----- Runs -----

  datatype Settings = Settings(plan: Json, stats: Option<Stats>, kind: Kind, samplesPerStep: nat, metric: string)

  function StrategyAt(run: Settings, stepIdx: nat): Strategy {
    SelectStrategy(run.kind, stepIdx, run.samplesPerStep, run.metric).0
  }

  function PerBaseAt(run: Settings, stepIdx: nat): nat {
    SelectStrategy(run.kind, stepIdx, run.samplesPerStep, run.metric).1
  }

  /** `b` is what step `stepIdx` can make of `a`. */
  ghost predicate Steps(run: Settings, stepIdx: nat, a: seq<Node>, b: seq<Node>, step: Step) {
    && IsTree(a) && Bases(a, StrategyAt(run, stepIdx)).Ok?
    && Answers(step, Bases(a, StrategyAt(run, stepIdx)).value, PerBaseAt(run, stepIdx))
    && b == After(run.plan, a, StrategyAt(run, stepIdx), step)
  }

  /** The trees of an uninterrupted run, from the prepared one on. */
  ghost predicate IsRun(run: Settings, trees: seq<seq<Node>>, steps: seq<Step>) {
    && |trees| == |steps| + 1 && trees[0] == Prepared(run.stats)
    && forall i | 0 <= i < |steps| :: StepAt(run, trees, steps, i)
  }

  ghost predicate StepAt(run: Settings, trees: seq<seq<Node>>, steps: seq<Step>, i: nat)
    requires i < |steps| < |trees|
  {
    Steps(run, i + 1, trees[i], trees[i + 1], steps[i])
  }

  /** The stored measurement of the dataset entry is one of the unpatched plan. */
  predicate BaseMeasured(run: Settings) {
    run.stats.Some? ==> run.stats.value.measuredOn == []
  }

  lemma {:induction false} PreparedIsFine(run: Settings)
    requires BaseMeasured(run)
    ensures Invariant(Prepared(run.stats)) && AllApply(run.plan, Prepared(run.stats))
  {
    assert LastFrom(Prepared(run.stats), 0);
  }

  /**
    Provenance over every uninterrupted run.  In every tree of such a run ids are
    positions, parents come earlier, the flags are right, every stored measurement
    of a valid node was taken on the base plan with the node's upstream patches,
    and these patches apply.
   */
  lemma {:induction false} RunsKeepProvenance(run: Settings, trees: seq<seq<Node>>, steps: seq<Step>, i: nat)
    requires IsRun(run, trees, steps) && BaseMeasured(run) && i < |trees|
    ensures Invariant(trees[i]) && AllApply(run.plan, trees[i])
    decreases i
  {
    if i == 0 {
      PreparedIsFine(run);
    } else {
      RunsKeepProvenance(run, trees, steps, i - 1);
      assert StepAt(run, trees, steps, i - 1);
      StepKeeps(run.plan, trees[i - 1], StrategyAt(run, i), steps[i - 1], PerBaseAt(run, i));
    }
  }

  lemma {:induction false} StepExtends(run: Settings, stepIdx: nat, a: seq<Node>, b: seq<Node>, step: Step)
    requires Steps(run, stepIdx, a, b, step)
    ensures Extends(a, b)
  {
    GrownExtends(a, EvaluatedSamples(run.plan, Bases(a, StrategyAt(run, stepIdx)).value, step));
  }

  /** Later steps change nothing of an earlier node but its flags, and see the same upstream patches. */
  lemma {:induction false} RunsOnlyAdd(run: Settings, trees: seq<seq<Node>>, steps: seq<Step>, i: nat, j: nat)
    requires IsRun(run, trees, steps) && i <= j < |trees|
    ensures Extends(trees[i], trees[j])
    decreases j
  {
    if i < j {
      RunsOnlyAdd(run, trees, steps, i, j - 1);
      assert StepAt(run, trees, steps, j - 1);
      StepExtends(run, j, trees[j - 1], trees[j], steps[j - 1]);
      ExtendsTrans(trees[i], trees[j - 1], trees[j]);
    }
  }

  /** Growth of one step of a run. */
  lemma {:induction false} StepGrows(run: Settings, stepIdx: nat, a: seq<Node>, b: seq<Node>, step: Step, last: nat)
    requires Steps(run, stepIdx, a, b, step) && LastFrom(a, last) && 1 <= stepIdx && 1 <= run.samplesPerStep
    requires stepIdx > 1 ==> |a| - last == run.samplesPerStep
    ensures |b| == |a| + run.samplesPerStep && LastFrom(b, |a|)
  {
    var bases := Bases(a, StrategyAt(run, stepIdx)).value;
    BaseCount(a, run.kind, stepIdx, run.samplesPerStep, run.metric, last);
    SampleCount(bases, step.generated, PerBaseAt(run, stepIdx));
    GrownLast(a, EvaluatedSamples(run.plan, bases, step), last);
  }

  /** `1 + k * n`. */
  function PlansAfter(k: nat, n: nat): (r: nat)
    ensures r == 1 + k * n
  {
    if k == 0 then 1 else PlansAfter(k - 1, n) + n
  }

  lemma {:induction false} StepTaken(run: Settings, trees: seq<seq<Node>>, steps: seq<Step>, i: nat)
    requires IsRun(run, trees, steps) && i < |steps|
    ensures Steps(run, i + 1, trees[i], trees[i + 1], steps[i])
  {
    assert StepAt(run, trees, steps, i);
  }

  lemma {:induction false} CountStep(run: Settings, trees: seq<seq<Node>>, steps: seq<Step>, k: nat)
    requires IsRun(run, trees, steps) && 1 <= run.samplesPerStep && k < |trees|
    ensures |trees[k]| == PlansAfter(k, run.samplesPerStep)
    ensures LastFrom(trees[k], if k == 0 then 0 else PlansAfter(k - 1, run.samplesPerStep))
    decreases k
  {
    if k > 0 {
      CountStep(run, trees, steps, k - 1);
      StepTaken(run, trees, steps, k - 1);
      StepGrows(run, k, trees[k - 1], trees[k], steps[k - 1], if k == 1 then 0 else PlansAfter(k - 2, run.samplesPerStep));
    }
  }

  /** After `k >= 1` steps of `n >= 1` samples there are `1 + k * n` plans, the last `n` of them marked `is_last`. */
  lemma {:induction false} PlanCount(run: Settings, trees: seq<seq<Node>>, steps: seq<Step>, k: nat)
    requires IsRun(run, trees, steps) && 1 <= run.samplesPerStep && 1 <= k < |trees|
    ensures |trees[k]| == 1 + k * run.samplesPerStep
    ensures run.samplesPerStep < |trees[k]| && LastFrom(trees[k], |trees[k]| - run.samplesPerStep)
  {
    CountStep(run, trees, steps, k);
    assert PlansAfter(k, run.samplesPerStep) == PlansAfter(k - 1, run.samplesPerStep) + run.samplesPerStep;
  }

  /** The plan that is validated and measured is the plan the model was shown, with the sampled patches applied. */
  lemma {:induction false} MeasuredPlanExtendsShownPlan(plan: Json, nodes: seq<Node>, k: nat, patches: Patch)
    requires IsTree(nodes) && AllApply(plan, nodes) && k < |nodes|
    ensures Patching.Apply(plan, Arr(BaseAt(nodes, k).upstream + patches)) ==
            Patching.Apply(Patching.Apply(plan, Arr(BaseAt(nodes, k).upstream)).value, Arr(patches))
  {
    Laws.ApplyConcat(plan, BaseAt(nodes, k).upstream, patches);
  }
}
