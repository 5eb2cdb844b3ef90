/** Exactly which schedules of crashed and resumed runs let a measurement be attached to the wrong patches. */
module ResumeMisattribution {
  import opened Basics
  import opened Json
  import opened SampleTree
  import opened SampleRuns
  import opened ResumeReplay
  import opened ResumeLoss
  import opened ResumeSchedule
  import opened ResumeRisk
  import opened ResumeProvenance
  import opened ResumeWitness

  // ----- Schedules -----

  /** After the runs there is a state, and every measurement in it has its provenance. */
  ghost predicate KeepsProvenance(base: seq<Node>, runs: seq<Invocation>) {
    var after := RanAll(base, EMPTY_DIR, runs);
    after.Some? && after.value.final.Some? && Provenance(after.value.final.value)
  }

  /** After the runs there is a state, and it attaches a measurement to the wrong patches, or is no tree. */
  ghost predicate Misattributes(base: seq<Node>, runs: seq<Invocation>) {
    var after := RanAll(base, EMPTY_DIR, runs);
    after.Some? && after.value.final.Some? && !Provenance(after.value.final.value)
  }

  /** Every step was sampled from a tree, so that all ancestor walks returned. */
  ghost predicate SamplesTrees(base: seq<Node>, runs: seq<Invocation>) {
    var after, p := RanAll(base, EMPTY_DIR, runs), ProgressOf(runs);
    after.Some? && HasSteps(after.value.evaluated, p.done) &&
    forall k | 0 <= k < p.done && k < |p.madeOn| :: IsTree(LiveFold(base, after.value.evaluated, p.madeOn[k], k))
  }

  /** What the sampler leaves in a schedule that it can follow. */
  lemma {:induction false} MarkingFiles(plan: Json, runs: seq<Invocation>, i: nat)
    requires runs != [] && AllProduce(runs, Marking(plan, i)) && Followable(ProgressOf(runs))
    ensures RanAll(Prepared(None), EMPTY_DIR, runs).Some?
    ensures
      var d, p := RanAll(Prepared(None), EMPTY_DIR, runs).value, ProgressOf(runs);
      Live(Prepared(None), d, p, runs) && FilesUpTo(i, Prepared(None), d.evaluated, p.madeOn, p.done)
  {
    var base, p := Prepared(None), ProgressOf(runs);
    RunsAreLive(base, runs);
    assert LastFrom(base, 0);
    AllFiles(plan, i, base, RanAll(base, EMPTY_DIR, runs).value.evaluated, p, runs, p.done);
  }

  /** A risky schedule that can be followed: the sampler, marking the right step, follows it and misattributes. */
  lemma {:induction false} MarkingMisattributes(plan: Json, runs: seq<Invocation>, i: nat, k: nat)
    requires runs != [] && AllProduce(runs, Marking(plan, i)) && Followable(ProgressOf(runs))
    requires RiskyAt(ProgressOf(runs), k) && LastKept(ProgressOf(runs).madeOn[k], i, k)
    ensures Misattributes(Prepared(None), runs) && SamplesTrees(Prepared(None), runs)
  {
    var base, p := Prepared(None), ProgressOf(runs);
    ProgressIsJoined(runs);
    MarkingFiles(plan, runs, i);
    var d := RanAll(base, EMPTY_DIR, runs).value;
    RiskMisattributes(i, base, d.evaluated, p, k);
    forall x | 0 <= x < p.done ensures IsTree(LiveFold(base, d.evaluated, p.madeOn[x], x)) {
      assert FileAt(i, base, d.evaluated, p.madeOn[x], x);
    }
  }

  /** A schedule with another producer. */
  function WithProducer(runs: seq<Invocation>, produce: Producer): (r: seq<Invocation>)
    ensures SameSchedule(runs, r) && AllProduce(r, produce)
  {
    seq(|runs|, x requires 0 <= x < |runs| => runs[x].(produce := produce))
  }

  /** The last state is risky, and all steps can be sampled. */
  lemma {:induction false} FollowableRunsMisattribute(plan: Json, runs: seq<Invocation>) returns (i: nat)
    requires Risky(ProgressOf(runs)) && Followable(ProgressOf(runs))
    ensures
      var others := WithProducer(runs, Marking(plan, i));
      Misattributes(Prepared(None), others) && SamplesTrees(Prepared(None), others)
  {
    var p := ProgressOf(runs);
    var k :| 0 <= k < p.done && RiskyAt(p, k);
    i := HasLastKept(p.madeOn[k], p.lost, k);
    SameScheduleSameProgress(runs, WithProducer(runs, Marking(plan, i)));
    MarkingMisattributes(plan, WithProducer(runs, Marking(plan, i)), i, k);
  }

  // ----- The first risky run -----

  lemma {:induction false} RunExtends(d: Disk, k: int, nSteps: int, produce: Producer, crash: Crash)
    requires d.final.Some?
    ensures
      var r := RunFrom(d, k, nSteps, true, produce, crash);
      r.final.Some? && Extends(d.final.value, r.final.value)
    decreases nSteps - k + 1
  {
    if !StopsAt(k, nSteps, crash) && crash != BeforeAccumulated(k) {
      var next := AfterStep(WithStep(d, k, true, produce), k);
      OneStepOn(d, k, nSteps, true, produce, crash);
      GrownExtends(d.final.value, WithStep(d, k, true, produce).evaluated[k]);
      RunExtends(next, k + 1, nSteps, produce, crash);
      ExtendsTrans(d.final.value, next.final.value, RunFrom(next, k + 1, nSteps, true, produce, crash).final.value);
    }
  }

  /** What holds of every measurement of a state holds of those of an earlier stage. */
  lemma {:induction false} EarlierProvenance(a: seq<Node>, b: seq<Node>)
    requires Provenance(b) && Extends(a, b) && a != []
    ensures Provenance(a)
  {
    forall k | 0 <= k < |a| ensures a[k].(isLast := false, isLeaf := false) == b[k].(isLast := false, isLeaf := false) {}
    forall k | 0 < k < |a| ensures IsChild(a, k) {
      assert IsChild(b, k);
    }
    forall k | 0 <= k < |a| ensures MeasuredAt(a, k) {
      assert MeasuredAt(b, k);
      WalksAreStable(a, b, k);
    }
  }

  /** A run goes on from what it has after one step. */
  lemma {:induction false} OneStepThenMore(base: seq<Node>, d: Disk, m: nat, nSteps: int, produce: Producer, crash: Crash)
    requires Completed(d.evaluated, m) && d.final.Some? && d.final.value != [] && m < nSteps
    requires !StopsAt(m + 1, nSteps, crash) && crash != BeforeAccumulated(m + 1)
    ensures
      var short, long := Ran(base, d, m + 1, true, produce, NoCrash), Ran(base, d, nSteps, true, produce, crash);
      && short.Some? && long.Some? && short.value.final.Some? && long.value.final.Some?
      && Extends(short.value.final.value, long.value.final.value) && short.value.final.value != []
  {
    BehindRuns(base, d, m, m + 1, produce, NoCrash);
    BehindRuns(base, d, m, nSteps, produce, crash);
    OneStepOn(d, m + 1, m + 1, true, produce, NoCrash);
    OneStepOn(d, m + 1, nSteps, true, produce, crash);
    RunExtends(AfterStep(WithStep(d, m + 1, true, produce), m + 1), m + 2, nSteps, produce, crash);
  }

  /** The last run cut short behind its first step. */
  function CutShort(init: seq<Invocation>, last: Invocation): seq<Invocation> {
    init + [Invocation(ProgressOf(init).done + 1, last.produce, NoCrash)]
  }

  /** The last run completes its first step. */
  predicate TakesStep(init: seq<Invocation>, last: Invocation) {
    var k := ProgressOf(init).done + 1;
    !StopsAt(k, last.nSteps, last.crash) && last.crash != BeforeAccumulated(k)
  }

  lemma {:induction false} CutShortProgress(init: seq<Invocation>, last: Invocation)
    ensures ProgressOf(CutShort(init, last)) == OneMore(ProgressOf(init))
  {
    var p := ProgressOf(init);
    assert CutShort(init, last)[..|init|] == init;
    assert Stepped(OneMore(p), p.done + 1, NoCrash) == OneMore(p);
  }

  lemma {:induction false} LastRun(base: seq<Node>, runs: seq<Invocation>, r: Invocation)
    requires RanAll(base, EMPTY_DIR, runs).Some?
    ensures RanAll(base, EMPTY_DIR, runs + [r]) ==
            Ran(base, RanAll(base, EMPTY_DIR, runs).value, r.nSteps, true, r.produce, r.crash)
  {
    assert (runs + [r])[..|runs|] == runs;
  }

  lemma {:induction false} CutShortExtends(base: seq<Node>, init: seq<Invocation>, last: Invocation)
    requires init != [] && base != [] && TakesStep(init, last)
    ensures
      var short, long := RanAll(base, EMPTY_DIR, CutShort(init, last)), RanAll(base, EMPTY_DIR, init + [last]);
      && short.Some? && long.Some? && short.value.final.Some? && long.value.final.Some?
      && Extends(short.value.final.value, long.value.final.value) && short.value.final.value != []
  {
    var p := ProgressOf(init);
    RunsAreLive(base, init);
    var d := RanAll(base, EMPTY_DIR, init).value;
    LiveHasBase(base, d.evaluated, p.lost, p.done);
    LastRun(base, init, Invocation(p.done + 1, last.produce, NoCrash));
    LastRun(base, init, last);
    OneStepThenMore(base, d, p.done, last.nSteps, last.produce, last.crash);
  }

  lemma {:induction false} CutShortMisattributes(base: seq<Node>, init: seq<Invocation>, last: Invocation)
    requires init != [] && base != [] && TakesStep(init, last) && Misattributes(base, CutShort(init, last))
    ensures Misattributes(base, init + [last])
  {
    CutShortExtends(base, init, last);
    var short, long := RanAll(base, EMPTY_DIR, CutShort(init, last)).value.final.value, RanAll(base, EMPTY_DIR, init + [last]).value.final.value;
    if Provenance(long) {
      EarlierProvenance(short, long);
    }
  }

  lemma {:induction false} LiveHasBase(base: seq<Node>, evaluated: map<int, Evaluated>, lost: set<int>, k: nat)
    requires HasSteps(evaluated, k)
    ensures |base| <= |LiveFold(base, evaluated, lost, k)|
  {
    if k > 0 {
      LiveHasBase(base, evaluated, lost, k - 1);
    }
  }

  lemma {:induction false} CutShortWith(base: seq<Node>, init: seq<Invocation>, last: Invocation, produce: Producer)
    requires init != [] && base != [] && TakesStep(init, last) && Misattributes(base, WithProducer(CutShort(init, last), produce))
    ensures Misattributes(base, WithProducer(init + [last], produce))
  {
    var others, other := WithProducer(init, produce), last.(produce := produce);
    SameScheduleSameProgress(init, others);
    assert CutShort(others, other) == WithProducer(CutShort(init, last), produce);
    CutShortMisattributes(base, others, other);
    assert others + [other] == WithProducer(init + [last], produce);
  }

  /** Then the run cut short behind its first step is risky as well, and can be followed. */
  lemma {:induction false} CutShortIsRisky(init: seq<Invocation>, last: Invocation)
    requires Risky(ProgressOf(init + [last])) && !BecomesRisky(init) && ProgressOf(init).done <= last.nSteps
    ensures init != [] && TakesStep(init, last)
    ensures Risky(ProgressOf(CutShort(init, last))) && Followable(ProgressOf(CutShort(init, last)))
  {
    ProgressNext(init, last);
    SafeIsSampleable(init);
    ProgressIsJoined(init);
    FirstStepIsRisky(ProgressOf(init), last.nSteps, last.crash);
    OneMoreSampleable(ProgressOf(init));
    CutShortProgress(init, last);
  }

  lemma {:induction false} ProgressNext(runs: seq<Invocation>, r: Invocation)
    ensures ProgressOf(runs + [r]) == AfterRun(ProgressOf(runs), r)
  {
    assert (runs + [r])[..|runs|] == runs;
  }

  /** A run that takes steps, the first of them with a sampled file of an earlier run. */
  lemma {:induction false} ReuseMisattributes(plan: Json, init: seq<Invocation>, last: Invocation) returns (i: nat)
    requires Risky(ProgressOf(init + [last])) && !BecomesRisky(init) && ProgressOf(init).done <= last.nSteps
    ensures Misattributes(Prepared(None), WithProducer(init + [last], Marking(plan, i)))
  {
    CutShortIsRisky(init, last);
    i := FollowableRunsMisattribute(plan, CutShort(init, last));
    CutShortWith(Prepared(None), init, last, Marking(plan, i));
  }

  /** The first run after which a schedule is risky: for some answers of the model it misattributes. */
  lemma {:induction false} FirstRiskyRunMisattributes(plan: Json, runs: seq<Invocation>) returns (i: nat)
    requires runs != [] && Risky(ProgressOf(runs)) && !BecomesRisky(runs[..|runs| - 1])
    ensures Misattributes(Prepared(None), WithProducer(runs, Marking(plan, i)))
  {
    if runs[|runs| - 1].nSteps < ProgressOf(runs[..|runs| - 1]).done {
      SafeIsSampleable(runs[..|runs| - 1]);
      i := FollowableRunsMisattribute(plan, runs);
    } else {
      assert runs == runs[..|runs| - 1] + [runs[|runs| - 1]];
      i := ReuseMisattributes(plan, runs[..|runs| - 1], runs[|runs| - 1]);
    }
  }

  /** A schedule that becomes risky: for some answers of the model some run misattributes. */
  lemma {:induction false} RiskyRunsMisattribute(plan: Json, runs: seq<Invocation>) returns (i: nat, n: nat)
    requires BecomesRisky(runs)
    ensures 0 < n <= |runs| && Misattributes(Prepared(None), WithProducer(runs, Marking(plan, i))[..n])
  {
    n := FirstRiskyRun(runs);
    assert runs[..n][..n - 1] == runs[..n - 1];
    i := FirstRiskyRunMisattributes(plan, runs[..n]);
    assert WithProducer(runs, Marking(plan, i))[..n] == WithProducer(runs[..n], Marking(plan, i));
  }

  // ----- Safe schedules -----

  /** Whatever is sampled and measured in these runs, provenance is kept after every one of them. */
  ghost predicate AlwaysKeeps(runs: seq<Invocation>) {
    forall run: Settings, others, n | BaseMeasured(run) && SameSchedule(runs, others) && AllSamplers(run, others) && 0 < n <= |runs| ::
      KeepsProvenance(Prepared(run.stats), others[..n])
  }

  /** The same after the last of them. */
  ghost predicate KeepsAtEnd(runs: seq<Invocation>) {
    forall run: Settings, others | BaseMeasured(run) && SameSchedule(runs, others) && AllSamplers(run, others) ::
      KeepsProvenance(Prepared(run.stats), others)
  }

  lemma {:induction false} SafeSamplersKeep(run: Settings, runs: seq<Invocation>, others: seq<Invocation>)
    requires runs != [] && !Risky(ProgressOf(runs)) && BaseMeasured(run) && SameSchedule(runs, others) && AllSamplers(run, others)
    ensures KeepsProvenance(Prepared(run.stats), others)
  {
    PreparedIsFine(run);
    SamplersAreTruthful(run, others);
    SameScheduleSameProgress(runs, others);
    SafeRunsKeepProvenance(run.plan, Prepared(run.stats), others);
  }

  lemma {:induction false} MarkingIsSampler(plan: Json, i: int, runs: seq<Invocation>)
    requires AllProduce(runs, Marking(plan, i))
    ensures AllSamplers(OnePerStep(plan), runs) && BaseMeasured(OnePerStep(plan))
  {
    forall x | 0 <= x < |runs| ensures IsSampler(OnePerStep(plan), runs[x].produce) {
      assert runs[x].produce == Sampler(OnePerStep(plan), Answering(plan, i));
    }
  }

  lemma {:induction false} BecomingRiskyIsUnsafe(plan: Json, runs: seq<Invocation>)
    requires BecomesRisky(runs)
    ensures !AlwaysKeeps(runs)
  {
    var i, n := RiskyRunsMisattribute(plan, runs);
    var others := WithProducer(runs, Marking(plan, i));
    MarkingIsSampler(plan, i, others);
    assert !KeepsProvenance(Prepared(OnePerStep(plan).stats), others[..n]);
  }

  /**
    Exactly which schedules are safe.  For any sequence of resumed runs, with any
    step counts and crashes: after every run every measurement has its
    provenance, whatever the model and the evaluations answer, if and only if
    after no run the state holds a step that was sampled from a state that is not
    how this one began.
   */
  lemma {:induction false} RunsAreSafeIff(runs: seq<Invocation>)
    ensures AlwaysKeeps(runs) <==> !BecomesRisky(runs)
  {
    if BecomesRisky(runs) {
      BecomingRiskyIsUnsafe(Null, runs);
    } else {
      forall run: Settings, others, n | BaseMeasured(run) && SameSchedule(runs, others) && AllSamplers(run, others) && 0 < n <= |runs|
        ensures KeepsProvenance(Prepared(run.stats), others[..n])
      {
        SafeSamplersKeep(run, runs[..n], others[..n]);
      }
    }
  }

  lemma {:induction false} RiskyEndIsUnsafe(plan: Json, runs: seq<Invocation>)
    requires Risky(ProgressOf(runs)) && Followable(ProgressOf(runs))
    ensures !KeepsAtEnd(runs)
  {
    var i := FollowableRunsMisattribute(plan, runs);
    var others := WithProducer(runs, Marking(plan, i));
    MarkingIsSampler(plan, i, others);
    assert !KeepsProvenance(Prepared(OnePerStep(plan).stats), others);
  }

  /**
    A later rebuild can put right what an earlier run has put wrong.  Where no
    step is sampled from a state whose ancestor walks do not return, provenance
    after the last run depends on the last state alone.
   */
  lemma {:induction false} EndIsSafeIff(runs: seq<Invocation>)
    requires runs != [] && Followable(ProgressOf(runs))
    ensures KeepsAtEnd(runs) <==> !Risky(ProgressOf(runs))
  {
    if Risky(ProgressOf(runs)) {
      RiskyEndIsUnsafe(Null, runs);
    } else {
      forall run: Settings, others | BaseMeasured(run) && SameSchedule(runs, others) && AllSamplers(run, others)
        ensures KeepsProvenance(Prepared(run.stats), others)
      {
        SafeSamplersKeep(run, runs, others);
      }
    }
  }

  // ----- Four such schedules -----

  /** A schedule is risky after its last run and was not before; marking step `i` shows it. */
  ghost predicate Witness(runs: seq<Invocation>, i: int) {
    && runs != [] && Followable(ProgressOf(runs)) && !Risky(ProgressOf(runs[..|runs| - 1]))
    && exists k :: RiskyAt(ProgressOf(runs), k) && LastKept(ProgressOf(runs).madeOn[k], i, k)
  }

  lemma {:induction false} WitnessMisattributes(plan: Json, runs: seq<Invocation>, i: nat)
    requires Witness(runs, i) && |runs| > 1 && AllProduce(runs, Marking(plan, i))
    ensures KeepsProvenance(Prepared(None), runs[..|runs| - 1])
    ensures Misattributes(Prepared(None), runs) && SamplesTrees(Prepared(None), runs)
  {
    var init := runs[..|runs| - 1];
    var k :| RiskyAt(ProgressOf(runs), k) && LastKept(ProgressOf(runs).madeOn[k], i, k);
    MarkingMisattributes(plan, runs, i, k);
    MarkingIsSampler(plan, i, init);
    assert SameSchedule(init, init);
    SafeSamplersKeep(OnePerStep(plan), init, init);
  }

  /** Step 1 crashes before its accumulation; then four steps are asked for, and then three. */
  function LossyRuns(produce: Producer): (r: seq<Invocation>)
    ensures |r| == 3 && AllProduce(r, produce)
  {
    [Invocation(1, produce, BeforeAccumulated(1)), Invocation(4, produce, NoCrash), Invocation(3, produce, NoCrash)]
  }

  /** Without any crash: two steps, then one, then five, then four. */
  function ShrinkingRuns(produce: Producer): (r: seq<Invocation>)
    ensures |r| == 4 && AllProduce(r, produce)
  {
    [Invocation(2, produce, NoCrash), Invocation(1, produce, NoCrash), Invocation(5, produce, NoCrash), Invocation(4, produce, NoCrash)]
  }

  /** Step 1 is lost, step 3 is cut off behind its sampled file; then one step is asked for, and then three. */
  function LossyReusingRuns(produce: Producer): (r: seq<Invocation>)
    ensures |r| == 4 && AllProduce(r, produce)
  {
    [Invocation(1, produce, BeforeAccumulated(1)), Invocation(3, produce, BeforeEvaluated(3)),
     Invocation(1, produce, NoCrash), Invocation(3, produce, NoCrash)]
  }

  /** Step 3 is cut off behind its sampled file; then one step is asked for, and then three. */
  function ReusingRuns(produce: Producer): (r: seq<Invocation>)
    ensures |r| == 3 && AllProduce(r, produce)
  {
    [Invocation(3, produce, BeforeEvaluated(3)), Invocation(1, produce, NoCrash), Invocation(3, produce, NoCrash)]
  }

  lemma {:induction false} NotStart(a: set<int>, b: set<int>, k: int, i: int, j: int)
    requires 1 <= j < i <= k && i !in a && j !in b && j in a
    ensures !StartOf(a, b, k)
  {}

  /** One more step of a run that is not cut off. */
  lemma {:induction false} StepOn(p: Progress, n: int, source: set<int>)
    requires source == Source(p) && p.done < n
    ensures Stepped(p, n, NoCrash) == Stepped(Progress(p.done + 1, p.lost, p.madeOn + [source], None), n, NoCrash)
  {}

  lemma {:induction false} LastStep(p: Progress, source: set<int>)
    requires source == Source(p)
    ensures Stepped(p, p.done + 1, NoCrash) == Progress(p.done + 1, p.lost, p.madeOn + [source], None)
  {
    StepOn(p, p.done + 1, source);
  }

  lemma {:induction false} ThreeSteps(p: Progress)
    requires p.pending.None?
    ensures Stepped(p, p.done + 3, NoCrash) == Progress(p.done + 3, p.lost, p.madeOn + [p.lost, p.lost, p.lost], None)
  {
    var n, a := p.done + 3, p.lost;
    var q := Progress(p.done + 1, a, p.madeOn + [a], None);
    var r := Progress(p.done + 2, a, q.madeOn + [a], None);
    StepOn(p, n, a);
    StepOn(q, n, a);
    LastStep(r, a);
    assert r.madeOn + [a] == p.madeOn + [a, a, a];
  }

  lemma {:induction false} FirstStepIsLost(produce: Producer)
    ensures ProgressOf([] + [Invocation(1, produce, BeforeAccumulated(1))]) == Progress(1, {1}, [{}], None)
  {
    ProgressNext([], Invocation(1, produce, BeforeAccumulated(1)));
    assert {} + {1} == {1};
  }

  /** What the rebuild makes of that. */
  lemma {:induction false} LossyIsRisky(a: set<int>)
    requires a == {1}
    ensures
      var init, p := Progress(4, a, [{}, a, a, a], None), Progress(4, Beyond(3, 4), [{}, a, a, a], None);
      !Risky(init) && Followable(p) && RiskyAt(p, 2) && LastKept(p.madeOn[2], 2, 2)
  {
    var init, p := Progress(4, a, [{}, a, a, a], None), Progress(4, Beyond(3, 4), [{}, a, a, a], None);
    forall k | 0 <= k < 4 ensures !RiskyAt(init, k) {}
    NotStart(p.madeOn[2], p.lost, 2, 2, 1);
  }

  lemma {:induction false} LossyProgress(produce: Producer)
    ensures Witness(LossyRuns(produce), 2)
  {
    var r := LossyRuns(produce);
    assert r[..2] == [] + [r[0]] + [r[1]] && r == r[..2] + [r[2]];
    FirstStepIsLost(produce);
    ProgressNext([] + [r[0]], r[1]);
    ThreeSteps(Progress(1, {1}, [{}], None));
    ProgressNext(r[..2], r[2]);
    assert ProgressOf(r) == Progress(4, Beyond(3, 4), [{}, {1}, {1}, {1}], None);
    LossyIsRisky({1});
  }

  lemma {:induction false} ShrunkToOne(produce: Producer)
    ensures
      ProgressOf([] + [Invocation(2, produce, NoCrash)] + [Invocation(1, produce, NoCrash)]) ==
      Progress(2, Beyond(1, 2), [{}, {}], None)
  {
    ProgressNext([], Invocation(2, produce, NoCrash));
    StepOn(ProgressOf([]), 2, {});
    LastStep(Progress(1, {}, [{}], None), {});
    assert ProgressOf([] + [Invocation(2, produce, NoCrash)]) == Progress(2, {}, [{}, {}], None);
    ProgressNext([] + [Invocation(2, produce, NoCrash)], Invocation(1, produce, NoCrash));
  }

  /** What the last two of these runs make of that. */
  lemma {:induction false} ShrinkingIsRisky(b: set<int>)
    requires b == {2}
    ensures
      var init, p := Progress(5, b, [{}, {}, b, b, b], None), Progress(5, Beyond(4, 5), [{}, {}, b, b, b], None);
      !Risky(init) && Followable(p) && RiskyAt(p, 3) && LastKept(p.madeOn[3], 3, 3)
  {
    var init, p := Progress(5, b, [{}, {}, b, b, b], None), Progress(5, Beyond(4, 5), [{}, {}, b, b, b], None);
    forall k | 0 <= k < 5 ensures !RiskyAt(init, k) {}
    NotStart(p.madeOn[3], p.lost, 3, 3, 2);
  }

  lemma {:induction false} ShrinkingProgress(produce: Producer)
    ensures Witness(ShrinkingRuns(produce), 3)
  {
    var r := ShrinkingRuns(produce);
    var b := Beyond(1, 2);
    assert r[..3] == [] + [r[0]] + [r[1]] + [r[2]] && r == r[..3] + [r[3]];
    ShrunkToOne(produce);
    ProgressNext([] + [r[0]] + [r[1]], r[2]);
    ThreeSteps(Progress(2, b, [{}, {}], None));
    assert ProgressOf(r[..3]) == Progress(5, b, [{}, {}, b, b, b], None);
    ProgressNext(r[..3], r[3]);
    assert ProgressOf(r) == Progress(5, Beyond(4, 5), [{}, {}, b, b, b], None);
    ShrinkingIsRisky(b);
  }

  lemma {:induction false} LossyReusingProgress(produce: Producer)
    ensures Witness(LossyReusingRuns(produce), 2)
  {
    var r := LossyReusingRuns(produce);
    var b := Beyond(1, 2);
    assert r[..3] == [] + [r[0]] + [r[1]] + [r[2]] && r == [] + [r[0]] + [r[1]] + [r[2]] + [r[3]];
    FirstStepIsLost(produce);
    ProgressNext([] + [r[0]], r[1]);
    assert OneMore(Progress(1, {1}, [{}], None)) == Progress(2, {1}, [{}, {1}], None);
    assert ProgressOf([] + [r[0]] + [r[1]]) == Progress(2, {1}, [{}, {1}], Some({1}));
    ProgressNext([] + [r[0]] + [r[1]], r[2]);
    var init, p := Progress(2, b, [{}, {1}], Some({1})), Progress(3, b, [{}, {1}, {1}], None);
    assert ProgressOf(r[..3]) == init;
    ProgressNext([] + [r[0]] + [r[1]] + [r[2]], r[3]);
    LastStep(init, {1});
    assert ProgressOf(r) == p;
    forall k | 0 <= k < 2 ensures !RiskyAt(init, k) {}
    assert RiskyAt(p, 2) && LastKept(p.madeOn[2], 2, 2);
  }

  lemma {:induction false} ReusingProgress(produce: Producer)
    ensures Witness(ReusingRuns(produce), 2)
    ensures
      var p := ProgressOf(ReusingRuns(produce));
      p == Progress(3, Beyond(1, 2), [{}, {}, {}], None) && RiskyAt(p, 2) && LastKept(p.madeOn[2], 2, 2)
  {
    var r := ReusingRuns(produce);
    var b := Beyond(1, 2);
    assert r[..2] == [] + [r[0]] + [r[1]] && r == [] + [r[0]] + [r[1]] + [r[2]];
    ProgressNext([], r[0]);
    assert OneMore(OneMore(Progress(0, {}, [], None))) == Progress(2, {}, [{}, {}], None);
    assert ProgressOf([] + [r[0]]) == Progress(2, {}, [{}, {}], Some({}));
    ProgressNext([] + [r[0]], r[1]);
    var init, p := Progress(2, b, [{}, {}], Some({})), Progress(3, b, [{}, {}, {}], None);
    assert ProgressOf(r[..2]) == init;
    ProgressNext([] + [r[0]] + [r[1]], r[2]);
    LastStep(init, {});
    assert ProgressOf(r) == p;
    forall k | 0 <= k < 2 ensures !RiskyAt(init, k) {}
    assert RiskyAt(p, 2) && LastKept(p.madeOn[2], 2, 2);
  }

  /** A crash before an accumulation, and a rebuild: the state has full provenance before the last run, and not after it. */
  lemma {:induction false} LostStepMisattributes(plan: Json)
    ensures KeepsProvenance(Prepared(None), LossyRuns(Marking(plan, 2))[..2])
    ensures Misattributes(Prepared(None), LossyRuns(Marking(plan, 2))) && SamplesTrees(Prepared(None), LossyRuns(Marking(plan, 2)))
  {
    LossyProgress(Marking(plan, 2));
    WitnessMisattributes(plan, LossyRuns(Marking(plan, 2)), 2);
  }

  /** The same without a crash: asking for fewer steps, for more, and for fewer again. */
  lemma {:induction false} ShrinkingMisattributes(plan: Json)
    ensures KeepsProvenance(Prepared(None), ShrinkingRuns(Marking(plan, 3))[..3])
    ensures Misattributes(Prepared(None), ShrinkingRuns(Marking(plan, 3))) && SamplesTrees(Prepared(None), ShrinkingRuns(Marking(plan, 3)))
  {
    ShrinkingProgress(Marking(plan, 3));
    WitnessMisattributes(plan, ShrinkingRuns(Marking(plan, 3)), 3);
  }

  /** The same without replaying the sample: its sampled file outlives the steps that it was sampled from. */
  lemma {:induction false} ReusedFileMisattributes(plan: Json)
    ensures KeepsProvenance(Prepared(None), LossyReusingRuns(Marking(plan, 2))[..3])
    ensures Misattributes(Prepared(None), LossyReusingRuns(Marking(plan, 2)))
    ensures SamplesTrees(Prepared(None), LossyReusingRuns(Marking(plan, 2)))
  {
    LossyReusingProgress(Marking(plan, 2));
    WitnessMisattributes(plan, LossyReusingRuns(Marking(plan, 2)), 2);
  }

  /** The node of a step, and the node that it was sampled from. */
  lemma {:induction false} ParentOfStep(i: nat, base: seq<Node>, evaluated: map<int, Evaluated>, p: Progress, k: nat)
    requires |base| == 1 && |p.madeOn| == p.done && HasSteps(evaluated, p.done) && FilesUpTo(i, base, evaluated, p.madeOn, p.done)
    requires k < p.done && k + 1 !in p.lost && LastKept(p.madeOn[k], i, k)
    ensures
      var nodes, x := LiveFold(base, evaluated, p.lost, p.done), 1 + CountKept(p.lost, k);
      x < |nodes| && nodes[x].parent == Some(CountKept(p.madeOn[k], k))
  {
    FilesAreSingle(i, base, evaluated, p.madeOn, p.done);
    InheritedSample(i, base, evaluated, p.madeOn, k);
    NodeOfStep(base, evaluated, p.lost, k, p.done);
  }

  lemma {:induction false} MarkingParent(plan: Json, runs: seq<Invocation>, i: nat, k: nat)
    requires runs != [] && AllProduce(runs, Marking(plan, i)) && Followable(ProgressOf(runs))
    requires k < ProgressOf(runs).done == |ProgressOf(runs).madeOn| && k + 1 !in ProgressOf(runs).lost
    requires LastKept(ProgressOf(runs).madeOn[k], i, k)
    ensures
      var after, p := RanAll(Prepared(None), EMPTY_DIR, runs), ProgressOf(runs);
      && after.Some? && after.value.final.Some? && 1 + CountKept(p.lost, k) < |after.value.final.value|
      && after.value.final.value[1 + CountKept(p.lost, k)].parent == Some(CountKept(p.madeOn[k], k))
  {
    var base, p := Prepared(None), ProgressOf(runs);
    MarkingFiles(plan, runs, i);
    var d := RanAll(base, EMPTY_DIR, runs).value;
    ParentOfStep(i, base, d.evaluated, p, k);
  }

  lemma {:induction false} TreeHasNoOwnParent(nodes: seq<Node>, k: nat)
    requires IsTree(nodes) && 0 < k < |nodes|
    ensures nodes[k].parent != Some(k)
  {
    assert IsChild(nodes, k);
  }

  /** After the runs there is a state in which node `k` is its own parent. */
  ghost predicate LeavesOwnParent(base: seq<Node>, runs: seq<Invocation>, k: nat) {
    var after := RanAll(base, EMPTY_DIR, runs);
    && after.Some? && after.value.final.Some? && 0 < k < |after.value.final.value|
    && after.value.final.value[k].parent == Some(k) && !IsTree(after.value.final.value)
  }

  lemma {:induction false} MarkingOwnParent(plan: Json, runs: seq<Invocation>, i: nat, k: nat, x: nat)
    requires runs != [] && AllProduce(runs, Marking(plan, i)) && Followable(ProgressOf(runs))
    requires k < ProgressOf(runs).done == |ProgressOf(runs).madeOn| && k + 1 !in ProgressOf(runs).lost
    requires LastKept(ProgressOf(runs).madeOn[k], i, k)
    requires CountKept(ProgressOf(runs).madeOn[k], k) == x == 1 + CountKept(ProgressOf(runs).lost, k)
    ensures LeavesOwnParent(Prepared(None), runs, x)
  {
    MarkingParent(plan, runs, i, k);
    if IsTree(RanAll(Prepared(None), EMPTY_DIR, runs).value.final.value) {
      TreeHasNoOwnParent(RanAll(Prepared(None), EMPTY_DIR, runs).value.final.value, x);
    }
  }

  /** A sampled file that outlives the step it was sampled from leaves a node that is its own parent. */
  lemma {:induction false} ReusedFileIsItsOwnParent(plan: Json)
    ensures KeepsProvenance(Prepared(None), ReusingRuns(Marking(plan, 2))[..2])
    ensures LeavesOwnParent(Prepared(None), ReusingRuns(Marking(plan, 2)), 2)
    ensures SamplesTrees(Prepared(None), ReusingRuns(Marking(plan, 2)))
  {
    ReusingProgress(Marking(plan, 2));
    WitnessMisattributes(plan, ReusingRuns(Marking(plan, 2)), 2);
    TailCount(Beyond(1, 2), 1, 2);
    TailCount({}, 2, 2);
    MarkingOwnParent(plan, ReusingRuns(Marking(plan, 2)), 2, 2, 2);
  }
}
