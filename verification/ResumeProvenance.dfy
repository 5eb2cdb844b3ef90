/** What measurements say in states that were reached by resuming and rebuilding. */
module ResumeProvenance {
  import opened Basics
  import opened Json
  import opened SampleTree
  import opened BaseSelection
  import opened SampleEvaluation
  import opened SampleRuns
  import opened Ranking
  import opened ResumeReplay
  import opened ResumeLoss
  import opened ResumeSchedule
  import opened ResumeRisk
  import Patching = JsonPatch

  // ----- Producers -----

  /** Every measurement in the tree has its provenance, and every upstream patch list applies. */
  ghost predicate Sound(plan: Json, nodes: seq<Node>) {
    Invariant(nodes) && AllApply(plan, nodes)
  }

  /** Samples that keep a tree sound. */
  ghost predicate Fitting(plan: Json, nodes: seq<Node>, samples: Evaluated) {
    IsTree(nodes) && AllBelong(nodes, samples) && Sound(plan, Grown(nodes, samples))
  }

  /** The file is an evaluation of these sampled plans. */
  ghost predicate JudgedFrom(plan: Json, samples: Sampled, file: Evaluated) {
    |file| == |samples| && forall i | 0 <= i < |file| :: IsJudged(plan, samples[i], file[i])
  }

  ghost predicate IsJudged(plan: Json, s: Sample, judged: Sample) {
    exists outcome :: judged == Judged(plan, s, outcome)
  }

  /** Sampled plans that fit the tree, however they are evaluated, and whenever. */
  ghost predicate Draws(plan: Json, nodes: seq<Node>, samples: Sampled) {
    forall file | JudgedFrom(plan, samples, file) :: Fitting(plan, nodes, file)
  }

  /** The producer samples a sound state truthfully, and evaluates whatever was sampled. */
  ghost predicate Truthful(plan: Json, produce: Producer) {
    && (forall k: int, nodes | 1 <= k && Sound(plan, nodes) :: Draws(plan, nodes, produce.sample(k, nodes)))
    && forall k: int, samples :: JudgedFrom(plan, samples, produce.evaluate(k, samples))
  }

  /**
    What the model generates for a base and a sample number, and how evaluations
    end.  Where an ancestor walk raises or does not return, the run ends as if it
    were cut off before the sampled file; nothing is assumed about `elsewhere`.
   */
  datatype World = World(
    generate: (int, seq<Node>, nat, nat) -> Generated,
    outcome: (int, Sampled, nat) -> Outcome,
    elsewhere: (int, seq<Node>) -> Sampled)

  /** The bases of step `k` can be selected and their ancestors walked. */
  ghost predicate CanSample(run: Settings, k: int, nodes: seq<Node>) {
    k >= 1 && IsTree(nodes) && Bases(nodes, StrategyAt(run, k)).Ok?
  }

  ghost function GeneratedFor(run: Settings, world: World, k: int, nodes: seq<Node>): (r: seq<seq<Generated>>)
    requires CanSample(run, k, nodes)
    ensures |r| == |Bases(nodes, StrategyAt(run, k)).value|
    ensures forall b | 0 <= b < |r| :: |r[b]| == PerBaseAt(run, k)
  {
    seq(|Bases(nodes, StrategyAt(run, k)).value|, (b: nat) => seq(PerBaseAt(run, k), (s: nat) => world.generate(k, nodes, b, s)))
  }

  ghost function SamplesOf(run: Settings, world: World, k: int, nodes: seq<Node>): Sampled
    requires CanSample(run, k, nodes)
  {
    SampleAll(Bases(nodes, StrategyAt(run, k)).value, GeneratedFor(run, world, k, nodes))
  }

  ghost function EvaluationOf(plan: Json, world: World, k: int, samples: Sampled): (r: Evaluated)
    ensures |r| == |samples| && forall i | 0 <= i < |r| :: r[i] == Judged(plan, samples[i], world.outcome(k, samples, i))
  {
    seq(|samples|, i requires 0 <= i < |samples| => Judged(plan, samples[i], world.outcome(k, samples, i)))
  }

  /** Sampling with the strategy of the step, and evaluating, as the step loop does. */
  ghost function Sampler(run: Settings, world: World): Producer {
    Producer(
      (k: int, nodes: seq<Node>) => if CanSample(run, k, nodes) then SamplesOf(run, world, k, nodes) else world.elsewhere(k, nodes),
      (k: int, samples: Sampled) => EvaluationOf(run.plan, world, k, samples))
  }

  /** The strategies of the step loop always select bases. */
  lemma {:induction false} TreesCanBeSampled(run: Settings, k: nat, nodes: seq<Node>)
    requires IsTree(nodes) && 1 <= k
    ensures CanSample(run, k, nodes)
  {}

  lemma {:induction false} SamplesDraw(run: Settings, world: World, k: nat, nodes: seq<Node>, file: Evaluated)
    requires Sound(run.plan, nodes) && CanSample(run, k, nodes)
    requires JudgedFrom(run.plan, SamplesOf(run, world, k, nodes), file)
    ensures Fitting(run.plan, nodes, file)
  {
    var bases, samples := Bases(nodes, StrategyAt(run, k)).value, SamplesOf(run, world, k, nodes);
    var outcomes := Outcomes(run.plan, samples, file);
    var step := Step(GeneratedFor(run, world, k, nodes), outcomes);
    assert EvaluatedSamples(run.plan, bases, step) == file;
    EvaluatedBelong(run.plan, nodes, StrategyAt(run, k), step, PerBaseAt(run, k));
    StepKeeps(run.plan, nodes, StrategyAt(run, k), step, PerBaseAt(run, k));
  }

  /** How the evaluations of a file ended. */
  ghost function Outcomes(plan: Json, samples: Sampled, file: Evaluated): (r: seq<Outcome>)
    requires JudgedFrom(plan, samples, file)
    ensures |r| == |file| && forall i | 0 <= i < |r| :: file[i] == Judged(plan, samples[i], r[i])
  {
    seq(|file|, i requires 0 <= i < |file| => OutcomeOf(plan, samples[i], file[i]))
  }

  ghost function OutcomeOf(plan: Json, s: Sample, judged: Sample): (o: Outcome)
    requires IsJudged(plan, s, judged)
    ensures judged == Judged(plan, s, o)
  {
    var o :| judged == Judged(plan, s, o);
    o
  }

  /**
    The sampling steps of the system are truthful, whatever the model and the
    evaluations answer: what is sampled from a sound state fits it, also when a
    later run evaluates it.
   */
  lemma {:induction false} SamplerIsTruthful(run: Settings, world: World)
    ensures Truthful(run.plan, Sampler(run, world))
  {
    var produce := Sampler(run, world);
    forall k: int, nodes | 1 <= k && Sound(run.plan, nodes) ensures Draws(run.plan, nodes, produce.sample(k, nodes)) {
      TreesCanBeSampled(run, k, nodes);
      forall file | JudgedFrom(run.plan, produce.sample(k, nodes), file) ensures Fitting(run.plan, nodes, file) {
        SamplesDraw(run, world, k, nodes, file);
      }
    }
    forall k: int, samples ensures JudgedFrom(run.plan, samples, produce.evaluate(k, samples)) {
      assert produce.evaluate(k, samples) == EvaluationOf(run.plan, world, k, samples);
    }
  }

  ghost predicate IsSampler(run: Settings, produce: Producer) {
    exists world :: produce == Sampler(run, world)
  }

  ghost predicate AllSamplers(run: Settings, runs: seq<Invocation>) {
    forall i | 0 <= i < |runs| :: IsSampler(run, runs[i].produce)
  }

  lemma {:induction false} SamplersAreTruthful(run: Settings, runs: seq<Invocation>)
    requires AllSamplers(run, runs)
    ensures AllTruthful(run.plan, runs)
  {
    forall i | 0 <= i < |runs| ensures Truthful(run.plan, runs[i].produce) {
      assert IsSampler(run, runs[i].produce);
      var world :| runs[i].produce == Sampler(run, world);
      SamplerIsTruthful(run, world);
    }
  }

  // ----- Provenance through crashes, resumes and rebuilds -----

  ghost predicate AllTruthful(plan: Json, runs: seq<Invocation>) {
    forall i | 0 <= i < |runs| :: Truthful(plan, runs[i].produce)
  }

  /** A property of states, and of samples for a state. */
  type Good = seq<Node> -> bool
  type Fits = (seq<Node>, Evaluated) -> bool

  /** Samples that fit a state keep every good state good that extends it. */
  ghost predicate Carries(good: Good, fits: Fits) {
    forall a, b, samples | fits(a, samples) && Extends(a, b) && good(b) :: good(Grown(b, samples))
  }

  /** The file of step `k + 1` fits the state that it was sampled from, if that was good. */
  ghost predicate FitsAt(good: Good, fits: Fits, base: seq<Node>, evaluated: map<int, Evaluated>, lost: set<int>, k: nat)
    requires HasSteps(evaluated, k + 1)
  {
    var nodes := LiveFold(base, evaluated, lost, k);
    good(nodes) ==> fits(nodes, evaluated[k + 1])
  }

  ghost predicate AllFit(good: Good, fits: Fits, base: seq<Node>, evaluated: map<int, Evaluated>, madeOn: seq<set<int>>)
    requires HasSteps(evaluated, |madeOn|)
  {
    forall k | 0 <= k < |madeOn| :: FitsAt(good, fits, base, evaluated, madeOn[k], k)
  }

  /** As `StartOf`, where only steps with samples matter. */
  ghost predicate SamplesStart(evaluated: map<int, Evaluated>, a: set<int>, b: set<int>, k: int) {
    forall i | 1 <= i <= k && i !in a && Holds(evaluated, i) ::
      i !in b && forall j | 1 <= j < i && j !in b && Holds(evaluated, j) :: j !in a
  }

  /** Some step that is there with samples was sampled from a state that is not how the present one began. */
  ghost predicate Mixes(evaluated: map<int, Evaluated>, p: Progress) {
    exists k :: 0 <= k < p.done && k < |p.madeOn| && k + 1 !in p.lost && Holds(evaluated, k + 1)
                && !SamplesStart(evaluated, p.madeOn[k], p.lost, k)
  }

  lemma {:induction false} MixesIsRisky(evaluated: map<int, Evaluated>, p: Progress)
    requires Mixes(evaluated, p)
    ensures Risky(p)
  {
    var k :| 0 <= k < p.done && k < |p.madeOn| && k + 1 !in p.lost && Holds(evaluated, k + 1)
             && !SamplesStart(evaluated, p.madeOn[k], p.lost, k);
    assert RiskyAt(p, k);
  }

  lemma {:induction false} SameSamples(base: seq<Node>, evaluated: map<int, Evaluated>, a: set<int>, b: set<int>, k: nat)
    requires HasSteps(evaluated, k) && forall s | 1 <= s <= k && Holds(evaluated, s) :: s in a <==> s in b
    ensures LiveFold(base, evaluated, a, k) == LiveFold(base, evaluated, b, k)
  {
    if k > 0 {
      SameSamples(base, evaluated, a, b, k - 1);
      GrownByNothing(LiveFold(base, evaluated, a, k - 1));
    }
  }

  /** The state that a step was sampled from is an earlier stage of the present one. */
  lemma {:induction false} LiveIsStage(base: seq<Node>, evaluated: map<int, Evaluated>, a: set<int>, b: set<int>, k: nat) returns (c: nat)
    requires HasSteps(evaluated, k) && SamplesStart(evaluated, a, b, k)
    ensures c <= k && LiveFold(base, evaluated, a, k) == LiveFold(base, evaluated, b, c)
  {
    if k == 0 {
      c := 0;
    } else if k in a || !Holds(evaluated, k) {
      c := LiveIsStage(base, evaluated, a, b, k - 1);
      GrownByNothing(LiveFold(base, evaluated, a, k - 1));
    } else {
      c := k;
      SameSamples(base, evaluated, a, b, k);
    }
  }

  lemma {:induction false} LiveExtends(base: seq<Node>, evaluated: map<int, Evaluated>, lost: set<int>, c: nat, k: nat)
    requires c <= k && HasSteps(evaluated, k)
    ensures Extends(LiveFold(base, evaluated, lost, c), LiveFold(base, evaluated, lost, k))
    decreases k
  {
    if c < k {
      LiveExtends(base, evaluated, lost, c, k - 1);
      if k !in lost {
        GrownExtends(LiveFold(base, evaluated, lost, k - 1), evaluated[k]);
        ExtendsTrans(LiveFold(base, evaluated, lost, c), LiveFold(base, evaluated, lost, k - 1), LiveFold(base, evaluated, lost, k));
      }
    }
  }

  /** The states stay good, unless the files are mixed. */
  lemma {:induction false} LiveIsGood(good: Good, fits: Fits, base: seq<Node>, evaluated: map<int, Evaluated>, p: Progress, k: nat)
    requires Carries(good, fits) && good(base) && k <= p.done == |p.madeOn| && HasSteps(evaluated, p.done)
    requires AllFit(good, fits, base, evaluated, p.madeOn) && !Mixes(evaluated, p)
    ensures good(LiveFold(base, evaluated, p.lost, k))
    decreases k
  {
    if k > 0 {
      var before := LiveFold(base, evaluated, p.lost, k - 1);
      LiveIsGood(good, fits, base, evaluated, p, k - 1);
      if evaluated[k] == [] {
        GrownByNothing(before);
      } else if k !in p.lost {
        assert Holds(evaluated, k);
        var c := LiveIsStage(base, evaluated, p.madeOn[k - 1], p.lost, k - 1);
        LiveIsGood(good, fits, base, evaluated, p, c);
        LiveExtends(base, evaluated, p.lost, c, k - 1);
        assert FitsAt(good, fits, base, evaluated, p.madeOn[k - 1], k - 1);
      }
    }
  }

  /** Samples that fit a tree fit every sound tree that extends it. */
  lemma {:induction false} FittingCarries(plan: Json, a: seq<Node>, b: seq<Node>, samples: Evaluated)
    requires Fitting(plan, a, samples) && Sound(plan, b) && Extends(a, b)
    ensures Fitting(plan, b, samples)
  {
    forall j | 0 <= j < |samples| ensures Belongs(b, samples[j]) {
      assert Belongs(a, samples[j]);
      WalksAreStable(a, b, PositionOfId(samples[j].parent));
    }
    GrowthKeepsInvariant(b, samples);
    AllApplyIs(plan, Grown(a, samples));
    AllApplyIs(plan, b);
    AllApplyIs(plan, Grown(b, samples));
    UpstreamCarries(Applying(plan), a, b, samples);
  }

  /** A new sample has the same upstream patches in both trees. */
  lemma {:induction false} SameNewUpstream(a: seq<Node>, b: seq<Node>, samples: Evaluated, j: nat)
    requires IsTree(a) && IsTree(b) && AllBelong(a, samples) && AllBelong(b, samples) && j < |samples|
    ensures IsTree(Grown(a, samples)) && IsTree(Grown(b, samples))
    ensures Upstream(Grown(b, samples), |b| + j, false) == Upstream(Grown(a, samples), |a| + j, false)
  {
    BelongingAttach(a, samples);
    BelongingAttach(b, samples);
    assert Belongs(a, samples[j]) && Belongs(b, samples[j]);
    NewUpstream(a, samples, j);
    NewUpstream(b, samples, j);
  }

  lemma {:induction false} OldUpstream(b: seq<Node>, samples: Evaluated, k: nat)
    requires IsTree(b) && IsTree(Grown(b, samples)) && k < |b|
    ensures Upstream(Grown(b, samples), k, false) == Upstream(b, k, false)
  {
    GrownExtends(b, samples);
    WalksAreStable(b, Grown(b, samples), k);
  }

  /** Every upstream patch list has this property. */
  ghost predicate AllUpstream(ok: Patch -> bool, nodes: seq<Node>)
    requires IsTree(nodes)
  {
    forall k | 0 <= k < |nodes| :: ok(Upstream(nodes, k, false))
  }

  lemma {:induction false} UpstreamCarries(ok: Patch -> bool, a: seq<Node>, b: seq<Node>, samples: Evaluated)
    requires IsTree(a) && AllBelong(a, samples) && IsTree(Grown(a, samples)) && AllUpstream(ok, Grown(a, samples))
    requires IsTree(b) && AllBelong(b, samples) && IsTree(Grown(b, samples)) && AllUpstream(ok, b)
    ensures AllUpstream(ok, Grown(b, samples))
  {
    forall k | 0 <= k < |Grown(b, samples)| ensures ok(Upstream(Grown(b, samples), k, false)) {
      if k < |b| {
        OldUpstream(b, samples, k);
      } else {
        SameNewUpstream(a, b, samples, k - |b|);
      }
    }
  }

  ghost function Applying(plan: Json): Patch -> bool {
    p => Patching.Apply(plan, Arr(p)).Ok?
  }

  lemma {:induction false} AllApplyIs(plan: Json, nodes: seq<Node>)
    requires IsTree(nodes)
    ensures AllApply(plan, nodes) <==> AllUpstream(Applying(plan), nodes)
  {
    forall k | 0 <= k < |nodes|
      ensures Applying(plan)(Upstream(nodes, k, false)) == Patching.Apply(plan, Arr(Upstream(nodes, k, false))).Ok?
    {}
  }

  ghost function SoundFor(plan: Json): Good {
    nodes => Sound(plan, nodes)
  }

  ghost function FittingFor(plan: Json): Fits {
    (nodes, samples) => Fitting(plan, nodes, samples)
  }

  lemma {:induction false} SoundnessCarries(plan: Json)
    ensures Carries(SoundFor(plan), FittingFor(plan))
  {
    forall a, b, samples | FittingFor(plan)(a, samples) && Extends(a, b) && SoundFor(plan)(b)
      ensures SoundFor(plan)(Grown(b, samples))
    {
      FittingCarries(plan, a, b, samples);
    }
  }

  /** A file of truthful runs fits the state it was sampled from, whichever run evaluated it. */
  lemma {:induction false} FileFits(plan: Json, runs: seq<Invocation>, k: nat, nodes: seq<Node>, file: Evaluated)
    requires 1 <= k && MadeBy(runs, k, nodes, file) && AllTruthful(plan, runs) && Sound(plan, nodes)
    ensures Fitting(plan, nodes, file)
  {
    var i, samples :| 0 <= i < |runs| && SampledBy(runs, k, nodes, samples) && runs[i].produce.evaluate(k, samples) == file;
    var j :| 0 <= j < |runs| && runs[j].produce.sample(k, nodes) == samples;
    assert Truthful(plan, runs[i].produce) && Truthful(plan, runs[j].produce);
    assert JudgedFrom(plan, samples, runs[i].produce.evaluate(k, samples));
    assert Draws(plan, nodes, runs[j].produce.sample(k, nodes));
  }

  lemma {:induction false} FilesFit(plan: Json, base: seq<Node>, evaluated: map<int, Evaluated>, madeOn: seq<set<int>>, runs: seq<Invocation>)
    requires HasSteps(evaluated, |madeOn|) && History(base, evaluated, madeOn, runs) && AllTruthful(plan, runs)
    ensures AllFit(SoundFor(plan), FittingFor(plan), base, evaluated, madeOn)
  {
    forall k | 0 <= k < |madeOn| ensures FitsAt(SoundFor(plan), FittingFor(plan), base, evaluated, madeOn[k], k) {
      var nodes := LiveFold(base, evaluated, madeOn[k], k);
      assert MadeAt(base, evaluated, madeOn[k], runs, k);
      if Sound(plan, nodes) {
        FileFits(plan, runs, k + 1, nodes, evaluated[k + 1]);
      }
    }
  }

  /**
    Provenance through any sequence of resumed runs, with any step counts and
    wherever they crash: stored measurements were taken on the base plan with the
    node's upstream patches, and these patches apply, unless samples of the state
    were taken from a state that is not, in samples, how this one began.
   */
  lemma {:induction false} UnmixedRunsKeepProvenance(plan: Json, base: seq<Node>, runs: seq<Invocation>)
    requires runs != [] && Sound(plan, base) && AllTruthful(plan, runs) && RanAll(base, EMPTY_DIR, runs).Some?
    requires !Mixes(RanAll(base, EMPTY_DIR, runs).value.evaluated, ProgressOf(runs))
    ensures
      var after := RanAll(base, EMPTY_DIR, runs).value;
      after.final.Some? && Sound(plan, after.final.value)
  {
    var d, p := RanAll(base, EMPTY_DIR, runs).value, ProgressOf(runs);
    RunsAreLive(base, runs);
    SoundnessCarries(plan);
    FilesFit(plan, base, d.evaluated, p.madeOn, runs);
    LiveIsGood(SoundFor(plan), FittingFor(plan), base, d.evaluated, p, p.done);
  }

  /** The same, from the schedule alone. */
  lemma {:induction false} SafeRunsKeepProvenance(plan: Json, base: seq<Node>, runs: seq<Invocation>)
    requires runs != [] && Sound(plan, base) && AllTruthful(plan, runs) && !Risky(ProgressOf(runs))
    ensures
      var after := RanAll(base, EMPTY_DIR, runs);
      after.Some? && after.value.final.Some? && Sound(plan, after.value.final.value)
  {
    RunsAreLive(base, runs);
    var d := RanAll(base, EMPTY_DIR, runs).value;
    if Mixes(d.evaluated, ProgressOf(runs)) {
      MixesIsRisky(d.evaluated, ProgressOf(runs));
    }
    UnmixedRunsKeepProvenance(plan, base, runs);
  }

  /**
    Provenance through any sequence of resumed runs with nondecreasing step
    counts, wherever they crash, reused sampled files included.
   */
  lemma {:induction false} ResumedRunsKeepProvenance(plan: Json, base: seq<Node>, runs: seq<Invocation>)
    requires Nondecreasing(runs) && Sound(plan, base) && AllTruthful(plan, runs)
    ensures
      var after := RanAll(base, EMPTY_DIR, runs);
      && after.Some? && Completed(after.value.evaluated, ProgressOf(runs).done)
      && (if runs == [] then IsEmptyDir(after.value) else after.value.final.Some? && Sound(plan, after.value.final.value))
  {
    if runs != [] {
      NondecreasingIsStraight(runs);
      StraightIsSafe(ProgressOf(runs));
      RunsAreLive(base, runs);
      SafeRunsKeepProvenance(plan, base, runs);
    }
  }

  /** Every file was sampled and measured on the state folded over the files before it. */
  ghost predicate InLine(plan: Json, base: seq<Node>, evaluated: map<int, Evaluated>, n: nat)
    requires HasSteps(evaluated, n)
  {
    forall k | 0 <= k < n :: InLineAt(plan, base, evaluated, k)
  }

  ghost predicate InLineAt(plan: Json, base: seq<Node>, evaluated: map<int, Evaluated>, k: nat)
    requires HasSteps(evaluated, k + 1)
  {
    Fitting(plan, Fold(base, evaluated, k), evaluated[k + 1])
  }

  /**
    After any sequence of runs with nondecreasing step counts and no crash
    before an accumulation, the files are in line.
   */
  lemma {:induction false} BenignRunsStayInLine(plan: Json, base: seq<Node>, runs: seq<Invocation>)
    requires Nondecreasing(runs) && AllBenign(runs) && Sound(plan, base) && AllTruthful(plan, runs)
    ensures
      var after := RanAll(base, EMPTY_DIR, runs);
      && after.Some? && Consistent(base, after.value, ProgressOf(runs).done)
      && InLine(plan, base, after.value.evaluated, ProgressOf(runs).done)
  {
    if runs != [] {
      BenignLosesNothing(runs);
      NondecreasingIsStraight(runs);
      RunsAreLive(base, runs);
      LiveIsInLine(plan, base, RanAll(base, EMPTY_DIR, runs).value, ProgressOf(runs), runs);
    }
  }

  lemma {:induction false} LiveIsInLine(plan: Json, base: seq<Node>, d: Disk, p: Progress, runs: seq<Invocation>)
    requires Live(base, d, p, runs) && Sound(plan, base) && AllTruthful(plan, runs) && Straight(p) && p.lost == {}
    ensures Consistent(base, d, p.done) && InLine(plan, base, d.evaluated, p.done)
  {
    NothingLostIsFold(base, d.evaluated, {}, p.done);
    StraightIsSafe(p);
    if Mixes(d.evaluated, p) {
      MixesIsRisky(d.evaluated, p);
    }
    SoundnessCarries(plan);
    FilesFit(plan, base, d.evaluated, p.madeOn, runs);
    forall k | 0 <= k < p.done ensures InLineAt(plan, base, d.evaluated, k) {
      NothingLostIsFold(base, d.evaluated, {}, k);
      LiveIsGood(SoundFor(plan), FittingFor(plan), base, d.evaluated, p, k);
      assert AgreeUpTo(p.madeOn[k], p.lost, k);
      NothingLostIsFold(base, d.evaluated, p.madeOn[k], k);
      assert FitsAt(SoundFor(plan), FittingFor(plan), base, d.evaluated, p.madeOn[k], k);
    }
  }

  /**
    After any sequence of resumed runs of the sampling steps that is not risky,
    wherever they crash, each reported patch list is the one its statistics were
    measured on, and it applies to the base plan.
   */
  lemma {:induction false} ResumedRunsReportWhatWasMeasured(run: Settings, runs: seq<Invocation>, path: string, topK: nat, report: Report, i: nat)
    requires BaseMeasured(run) && runs != [] && AllSamplers(run, runs) && i < topK
    requires !Risky(ProgressOf(runs))
    ensures RanAll(Prepared(run.stats), EMPTY_DIR, runs).Some?
    ensures RanAll(Prepared(run.stats), EMPTY_DIR, runs).value.final.Some?
    ensures
      var nodes := RanAll(Prepared(run.stats), EMPTY_DIR, runs).value.final.value;
      && IsTree(nodes)
      && (Reports(report, RankedCandidates(nodes, path), MetricOf(nodes[0].stats, path), topK) && report.patches[i].Some? ==>
            && (report.stats[i].Some? ==> report.stats[i].value.measuredOn == report.patches[i].value)
            && Patching.Apply(run.plan, Arr(report.patches[i].value)).Ok?)
  {
    PreparedIsFine(run);
    SamplersAreTruthful(run, runs);
    SafeRunsKeepProvenance(run.plan, Prepared(run.stats), runs);
    var nodes := RanAll(Prepared(run.stats), EMPTY_DIR, runs).value.final.value;
    if Reports(report, RankedCandidates(nodes, path), MetricOf(nodes[0].stats, path), topK) {
      ReportedWasMeasured(run.plan, nodes, path, topK, report, i);
    }
  }
}
