/** Which schedules of resumed runs put samples next to steps that they were not taken with. */
module ResumeRisk {
  import opened Basics
  import opened ResumeReplay
  import opened ResumeSchedule

  /** Up to `k`, the steps that are there with the losses `a` are the first ones of those that are there with `b`. */
  predicate StartOf(a: set<int>, b: set<int>, k: int) {
    forall i | 1 <= i <= k && i !in a :: i !in b && forall j | 1 <= j < i && j !in b :: j !in a
  }

  /** Step `k + 1` is there, and was sampled from a state that is not how the present one began. */
  predicate RiskyAt(p: Progress, k: int) {
    0 <= k < p.done && k < |p.madeOn| && k + 1 !in p.lost && !StartOf(p.madeOn[k], p.lost, k)
  }

  predicate Risky(p: Progress) {
    exists k | 0 <= k < p.done :: RiskyAt(p, k)
  }

  lemma {:induction false} StraightIsSafe(p: Progress)
    requires Straight(p)
    ensures !Risky(p)
  {
    forall k ensures !RiskyAt(p, k) {
      if 0 <= k < p.done {
        assert AgreeUpTo(p.madeOn[k], p.lost, k);
      }
    }
  }

  // ----- Risk arises when a sampled file is reused, or in a rebuild -----

  lemma {:induction false} StartReads(a: set<int>, b: set<int>, c: set<int>, k: int)
    requires AgreeUpTo(b, c, k) && StartOf(a, b, k)
    ensures StartOf(a, c, k)
  {
    forall i | 1 <= i <= k && i !in a ensures i !in c && forall j | 1 <= j < i && j !in c :: j !in a {
      assert i !in b;
    }
  }

  /** The next step joins, or is lost. */
  lemma {:induction false} OneMoreRisk(p: Progress, lost: set<int>, k: int)
    requires LossesDone(p) && AgreeUpTo(lost, p.lost, p.done)
    ensures k < p.done ==> (RiskyAt(OneMore(p).(lost := lost), k) <==> RiskyAt(p, k))
    ensures p.pending.None? || p.done + 1 in lost ==> !RiskyAt(OneMore(p).(lost := lost), p.done)
  {
    if 0 <= k < p.done {
      assert AgreeUpTo(p.lost, lost, k) && AgreeUpTo(lost, p.lost, k);
      if StartOf(p.madeOn[k], p.lost, k) {
        StartReads(p.madeOn[k], p.lost, lost, k);
      } else if StartOf(p.madeOn[k], lost, k) {
        StartReads(p.madeOn[k], lost, p.lost, k);
      }
    }
  }

  lemma {:induction false} OneMoreKeepsRisk(p: Progress, lost: set<int>)
    requires LossesDone(p) && AgreeUpTo(lost, p.lost, p.done) && Risky(p)
    ensures Risky(OneMore(p).(lost := lost))
  {
    var q := OneMore(p).(lost := lost);
    var k :| 0 <= k < p.done && RiskyAt(p, k);
    OneMoreRisk(p, lost, k);
    assert RiskyAt(q, k);
  }

  lemma {:induction false} OneMoreIsSafe(p: Progress, lost: set<int>)
    requires LossesDone(p) && AgreeUpTo(lost, p.lost, p.done) && !Risky(p) && (p.pending.None? || p.done + 1 in lost)
    ensures !Risky(OneMore(p).(lost := lost))
  {
    forall k ensures !RiskyAt(OneMore(p).(lost := lost), k) {
      OneMoreRisk(p, lost, k);
    }
  }

  lemma {:induction false} OneMoreLosses(p: Progress, lost: set<int>)
    requires LossesDone(p) && lost in {p.lost, p.lost + {p.done + 1}}
    ensures LossesDone(OneMore(p).(lost := lost)) && AgreeUpTo(lost, p.lost, p.done)
  {}

  /** A run that takes steps does not undo a risk. */
  lemma {:induction false} RiskStays(p: Progress, nSteps: int, crash: Crash)
    requires LossesDone(p) && Risky(p)
    ensures Risky(Stepped(p, nSteps, crash))
    decreases nSteps - p.done
  {
    OneMoreLosses(p, p.lost);
    OneMoreKeepsRisk(p, p.lost);
    if p.done < nSteps && crash == BeforeAccumulated(p.done + 1) {
      OneMoreLosses(p, p.lost + {p.done + 1});
      OneMoreKeepsRisk(p, p.lost + {p.done + 1});
    } else if p.done < nSteps && crash != BeforeSampled(p.done + 1) && crash != BeforeEvaluated(p.done + 1) {
      RiskStays(OneMore(p), nSteps, crash);
    } else {
      SamePending(p);
    }
  }

  /** What is pending is no risk yet. */
  lemma {:induction false} SamePending(p: Progress)
    ensures Risky(p.(pending := Some(Source(p)))) <==> Risky(p)
  {
    var q := p.(pending := Some(Source(p)));
    forall k ensures RiskyAt(q, k) <==> RiskyAt(p, k) {}
  }

  /** Without a pending file it adds none. */
  lemma {:induction false} StepsAreSafe(p: Progress, nSteps: int, crash: Crash)
    requires LossesDone(p) && !Risky(p) && p.pending.None?
    ensures !Risky(Stepped(p, nSteps, crash))
    decreases nSteps - p.done
  {
    SamePending(p);
    OneMoreLosses(p, p.lost);
    OneMoreIsSafe(p, p.lost);
    OneMoreLosses(p, p.lost + {p.done + 1});
    OneMoreIsSafe(p, p.lost + {p.done + 1});
    if p.done < nSteps {
      StepsAreSafe(OneMore(p), nSteps, crash);
    }
  }

  /** So if a run that takes steps adds a risk, it is its first step that does, with the pending file. */
  lemma {:induction false} FirstStepIsRisky(p: Progress, nSteps: int, crash: Crash)
    requires LossesDone(p) && !Risky(p) && Risky(Stepped(p, nSteps, crash))
    ensures p.done < nSteps && p.pending.Some? && Risky(OneMore(p))
    ensures !StopsAt(p.done + 1, nSteps, crash) && crash != BeforeAccumulated(p.done + 1)
  {
    SamePending(p);
    OneMoreLosses(p, p.lost);
    OneMoreLosses(p, p.lost + {p.done + 1});
    OneMoreIsSafe(p, p.lost + {p.done + 1});
    if p.pending.None? {
      StepsAreSafe(p, nSteps, crash);
    } else if !Risky(OneMore(p)) {
      StepsAreSafe(OneMore(p), nSteps, crash);
    }
  }

  // ----- The state that a risky step joins -----

  /** Up to `k` exactly the steps beyond `q` are lost. */
  predicate TailOnly(lost: set<int>, q: int, k: int) {
    0 <= q <= k && forall s | 1 <= s <= k :: s in lost <==> q < s
  }

  /** A step joins the state that it was sampled from, or what a rebuild left. */
  ghost predicate Joins(a: set<int>, lost: set<int>, k: int) {
    AgreeUpTo(a, lost, k) || exists q :: TailOnly(lost, q, k)
  }

  ghost predicate WellJoined(p: Progress) {
    && LossesDone(p)
    && (forall k | 0 <= k < p.done && k + 1 !in p.lost :: Joins(p.madeOn[k], p.lost, k))
    && (p.pending.Some? ==> Joins(p.pending.value, p.lost, p.done))
  }

  lemma {:induction false} JoinsReads(a: set<int>, b: set<int>, c: set<int>, k: int)
    requires Joins(a, b, k) && AgreeUpTo(b, c, k)
    ensures Joins(a, c, k)
  {
    if q :| TailOnly(b, q, k) {
      assert TailOnly(c, q, k);
    }
  }

  lemma {:induction false} OneMoreJoins(p: Progress, lost: set<int>)
    requires WellJoined(p) && lost in {p.lost, p.lost + {p.done + 1}}
    ensures WellJoined(OneMore(p).(lost := lost))
  {
    var q := OneMore(p).(lost := lost);
    OneMoreLosses(p, lost);
    forall k | 0 <= k < q.done && k + 1 !in lost ensures Joins(q.madeOn[k], lost, k) {
      if k < p.done {
        JoinsReads(p.madeOn[k], p.lost, lost, k);
      } else {
        assert AgreeUpTo(p.lost, lost, k);
        if p.pending.Some? { JoinsReads(p.pending.value, p.lost, lost, k); }
      }
    }
  }

  lemma {:induction false} SteppedJoins(p: Progress, nSteps: int, crash: Crash)
    requires WellJoined(p)
    ensures WellJoined(Stepped(p, nSteps, crash))
    decreases nSteps - p.done
  {
    OneMoreJoins(p, p.lost);
    OneMoreJoins(p, p.lost + {p.done + 1});
    if p.done < nSteps {
      SteppedJoins(OneMore(p), nSteps, crash);
    }
  }

  lemma {:induction false} RebuiltJoins(p: Progress, n: nat)
    requires LossesDone(p) && n <= p.done
    ensures WellJoined(p.(lost := Beyond(n, p.done)))
  {
    var lost := Beyond(n, p.done);
    forall k | 0 <= k < p.done && k + 1 !in lost ensures Joins(p.madeOn[k], lost, k) {
      assert TailOnly(lost, k, k);
    }
    assert TailOnly(lost, n, p.done);
  }

  lemma {:induction false} ProgressIsJoined(runs: seq<Invocation>)
    ensures WellJoined(ProgressOf(runs))
    decreases |runs|
  {
    if runs != [] {
      var p, last := ProgressOf(runs[..|runs| - 1]), runs[|runs| - 1];
      ProgressIsJoined(runs[..|runs| - 1]);
      if last.nSteps < p.done {
        RebuiltJoins(p, Replayed(p.done, last.nSteps, last.crash));
      } else {
        SteppedJoins(p, last.nSteps, last.crash);
      }
    }
  }

  // ----- Counting -----

  /** How many of the steps `1..k` are there. */
  function CountKept(lost: set<int>, k: nat): nat {
    if k == 0 then 0 else CountKept(lost, k - 1) + if k in lost then 0 else 1
  }

  lemma {:induction false} CountMonotone(a: set<int>, b: set<int>, k: nat)
    requires forall s | 1 <= s <= k && s !in a :: s !in b
    ensures CountKept(a, k) <= CountKept(b, k)
  {
    if k > 0 {
      CountMonotone(a, b, k - 1);
    }
  }

  lemma {:induction false} CountAtMost(lost: set<int>, k: nat)
    ensures CountKept(lost, k) <= k
    ensures CountKept(lost, k) == k ==> forall s | 1 <= s <= k :: s !in lost
  {
    if k > 0 {
      CountAtMost(lost, k - 1);
    }
  }

  lemma {:induction false} TailCount(lost: set<int>, q: nat, k: nat)
    requires TailOnly(lost, q, k)
    ensures CountKept(lost, k) == q
  {
    if k > 0 {
      TailCount(lost, if q == k then q - 1 else q, k - 1);
    }
  }

  /** `i` is the last step up to `k` that is there. */
  predicate LastKept(lost: set<int>, i: int, k: int) {
    1 <= i <= k && i !in lost && forall x | i < x <= k :: x in lost
  }

  lemma {:induction false} LastKeptCount(lost: set<int>, i: nat, k: nat)
    requires LastKept(lost, i, k)
    ensures CountKept(lost, k) == CountKept(lost, i - 1) + 1
    decreases k
  {
    if i < k {
      LastKeptCount(lost, i, k - 1);
    }
  }

  /** A risky step was sampled below a step that the joined state does not have at that place: it has fewer, or another one. */
  lemma {:induction false} RiskIsShift(a: set<int>, lost: set<int>, q: nat, i: nat, k: nat)
    requires !StartOf(a, lost, k) && TailOnly(lost, q, k) && LastKept(a, i, k)
    ensures 1 <= CountKept(a, k) && (q < CountKept(a, k) || CountKept(a, k) < i)
  {
    LastKeptCount(a, i, k);
    CountAtMost(a, i);
    if CountKept(a, k) <= q && i <= CountKept(a, k) {
      FullIsStart(a, lost, q, i, k);
    }
  }

  lemma {:induction false} FullIsStart(a: set<int>, lost: set<int>, q: nat, i: nat, k: nat)
    requires TailOnly(lost, q, k) && LastKept(a, i, k) && i <= q && forall s | 1 <= s <= i :: s !in a
    ensures StartOf(a, lost, k)
  {}

  lemma {:induction false} HasLastKept(a: set<int>, lost: set<int>, k: int) returns (i: nat)
    requires !StartOf(a, lost, k)
    ensures LastKept(a, i, k)
  {
    var x :| 1 <= x <= k && x !in a;
    i := k;
    while i in a
      invariant x <= i <= k && forall y | i < y <= k :: y in a
      decreases i
    {
      i := i - 1;
    }
  }

  // ----- Schedules that can be followed -----

  /** With one sample a step: each step that is there comes behind the node that it was sampled from. */
  predicate Attached(madeOn: seq<set<int>>, lost: set<int>, k: nat)
    requires k <= |madeOn|
  {
    forall x | 0 <= x < k && x + 1 !in lost :: CountKept(madeOn[x], x) <= CountKept(lost, x)
  }

  /** No step was sampled from a state in which a step does not come behind its parent: an ancestor walk would not return there. */
  predicate Followable(p: Progress) {
    |p.madeOn| == p.done && forall k | 0 <= k < p.done :: Attached(p.madeOn, p.madeOn[k], k)
  }

  predicate Sampleable(p: Progress) {
    && Followable(p)
    && (p.pending.Some? ==> Attached(p.madeOn, p.pending.value, p.done))
  }

  lemma {:induction false} SafeIsAttached(p: Progress)
    requires LossesDone(p) && !Risky(p)
    ensures Attached(p.madeOn, p.lost, p.done)
  {
    forall x | 0 <= x < p.done && x + 1 !in p.lost ensures CountKept(p.madeOn[x], x) <= CountKept(p.lost, x) {
      assert !RiskyAt(p, x);
      CountMonotone(p.madeOn[x], p.lost, x);
    }
  }

  lemma {:induction false} AttachedInMore(madeOn: seq<set<int>>, next: set<int>, lost: set<int>, k: nat)
    requires k <= |madeOn| && Attached(madeOn, lost, k)
    ensures Attached(madeOn + [next], lost, k)
  {}

  lemma {:induction false} OneMoreSampleable(p: Progress)
    requires LossesDone(p) && !Risky(p) && Sampleable(p)
    ensures Attached(p.madeOn, Source(p), p.done) && Sampleable(OneMore(p))
  {
    var q := OneMore(p);
    SafeIsAttached(p);
    forall k | 0 <= k < q.done ensures Attached(q.madeOn, q.madeOn[k], k) {
      if k < p.done { assert Attached(p.madeOn, p.madeOn[k], k); }
      AttachedInMore(p.madeOn, Source(p), q.madeOn[k], k);
    }
  }

  lemma {:induction false} SteppedSampleable(p: Progress, nSteps: int, crash: Crash)
    requires LossesDone(p) && !Risky(p) && Sampleable(p) && !Risky(Stepped(p, nSteps, crash))
    ensures Sampleable(Stepped(p, nSteps, crash))
    decreases nSteps - p.done
  {
    OneMoreSampleable(p);
    OneMoreLosses(p, p.lost);
    if p.done < nSteps && !StopsAt(p.done + 1, nSteps, crash) && crash != BeforeAccumulated(p.done + 1) {
      if Risky(OneMore(p)) {
        RiskStays(OneMore(p), nSteps, crash);
      }
      SteppedSampleable(OneMore(p), nSteps, crash);
    }
  }

  /** After some of the runs the schedule is risky. */
  predicate BecomesRisky(runs: seq<Invocation>) {
    exists n :: 0 <= n <= |runs| && Risky(ProgressOf(runs[..n]))
  }

  lemma {:induction false} PrefixesStaySafe(runs: seq<Invocation>)
    requires runs != [] && !BecomesRisky(runs)
    ensures !BecomesRisky(runs[..|runs| - 1]) && !Risky(ProgressOf(runs))
  {
    var init := runs[..|runs| - 1];
    assert runs[..|runs|] == runs;
    forall n | 0 <= n <= |init| ensures !Risky(ProgressOf(init[..n])) {
      assert init[..n] == runs[..n];
    }
  }

  /** Until a schedule becomes risky it can be followed. */
  lemma {:induction false} SafeIsSampleable(runs: seq<Invocation>)
    requires !BecomesRisky(runs)
    ensures !Risky(ProgressOf(runs)) && Sampleable(ProgressOf(runs))
    decreases |runs|
  {
    if runs == [] {
      assert !Risky(ProgressOf([]));
    } else {
      var init, last := runs[..|runs| - 1], runs[|runs| - 1];
      PrefixesStaySafe(runs);
      SafeIsSampleable(init);
      ProgressIsJoined(init);
      if last.nSteps >= ProgressOf(init).done {
        SteppedSampleable(ProgressOf(init), last.nSteps, last.crash);
      }
    }
  }

  lemma {:induction false} NothingIsSafe()
    ensures !BecomesRisky([])
  {}

  /** The first run after which the schedule is risky. */
  lemma {:induction false} FirstRiskyRun(runs: seq<Invocation>) returns (n: nat)
    requires BecomesRisky(runs)
    ensures 0 < n <= |runs| && Risky(ProgressOf(runs[..n])) && !BecomesRisky(runs[..n - 1])
    decreases |runs|
  {
    if runs == [] {
      NothingIsSafe();
    } else if BecomesRisky(runs[..|runs| - 1]) {
      var init := runs[..|runs| - 1];
      n := FirstRiskyRun(init);
      assert init[..n] == runs[..n] && init[..n - 1] == runs[..n - 1];
    } else {
      n := |runs|;
      var m :| 0 <= m <= |runs| && Risky(ProgressOf(runs[..m]));
      if m < |runs| {
        assert runs[..|runs| - 1][..m] == runs[..m];
      }
      assert runs[..n - 1] == runs[..|runs| - 1];
    }
  }
}
