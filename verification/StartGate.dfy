/** `_gate_modal_start`: spacing the starts of remote executions. */
module StartGate {

  const RATE_LIMIT_PER_SEC := 4.0
  const WAIT_TIME := 1.0 / RATE_LIMIT_PER_SEC

  /** Consecutive starts are a wait time apart. */
  ghost predicate Consecutive(starts: seq<real>) {
    forall i | 0 < i < |starts| :: Gap(starts, i)
  }

  ghost predicate Gap(starts: seq<real>, i: nat)
    requires 0 < i < |starts|
  {
    starts[i] - starts[i - 1] >= WAIT_TIME
  }

  class Gate {
    var latestScheduledStart: real
    ghost var starts: seq<real>

    ghost predicate Valid()
      reads this
    {
      && Consecutive(starts)
      && (starts != [] ==> latestScheduledStart == starts[|starts| - 1] + WAIT_TIME)
    }

    constructor ()
      ensures Valid() && latestScheduledStart == 0.0 && starts == []
    {
      latestScheduledStart, starts := 0.0, [];
    }

    /**
      One call: `now0` and `now1` are the two clock readings, `jitter` the random
      delay.  Returns the scheduled start and how long the caller sleeps.
     */
    method Pass(now0: real, now1: real, jitter: real) returns (scheduled: real, sleep: real)
      requires Valid() && 0.0 <= jitter <= 0.2 * WAIT_TIME
      modifies this
      ensures Valid() && starts == old(starts) + [scheduled]
      ensures scheduled == (if old(latestScheduledStart) > now0 then old(latestScheduledStart) else now0) + jitter
      ensures latestScheduledStart == scheduled + 0.25
      ensures if scheduled > now1 then now1 + sleep == scheduled else sleep == 0.0
    {
      scheduled := if latestScheduledStart > now0 then latestScheduledStart else now0;
      scheduled := scheduled + jitter;
      latestScheduledStart := scheduled + WAIT_TIME;
      sleep := if scheduled > now1 then scheduled - now1 else 0.0;
      ghost var before := starts;
      starts := starts + [scheduled];
      forall i | 0 < i < |starts| ensures Gap(starts, i) {
        if i < |before| { assert Gap(before, i); }
      }
    }
  }

  /** Over any run, starts `i < j` are at least `(j - i) / RATE_LIMIT_PER_SEC` apart. */
  lemma {:induction false} StartsAreSpaced(starts: seq<real>, i: nat, j: nat)
    requires Consecutive(starts) && i <= j < |starts|
    ensures starts[j] - starts[i] >= (j - i) as real / RATE_LIMIT_PER_SEC
    decreases j
  {
    if i < j {
      StartsAreSpaced(starts, i, j - 1);
      assert Gap(starts, j);
      assert (j - i) as real == (j - 1 - i) as real + 1.0;
    }
  }

  /** The starts in the half-open second from `t` on. */
  ghost function Window(starts: seq<real>, t: real): set<nat> {
    set i: nat | i < |starts| && t <= starts[i] < t + 1.0
  }

  lemma {:induction false} RangeSize(lo: nat, hi: nat, s: set<nat>)
    requires lo <= hi && forall i | i in s :: lo <= i < hi
    ensures |s| <= hi - lo
    decreases hi - lo
  {
    if lo == hi {
      assert s == {};
    } else {
      RangeSize(lo, hi - 1, s - {hi - 1});
    }
  }

  /** No half-open second holds more than `RATE_LIMIT_PER_SEC` scheduled starts. */
  lemma {:induction false} AtMostFourPerSecond(starts: seq<real>, t: real)
    requires Consecutive(starts)
    ensures |Window(starts, t)| <= 4
  {
    var w := Window(starts, t);
    if w != {} {
      var lo := FirstOf(starts, w);
      forall i | i in w ensures lo <= i < lo + 4 {
        StartsAreSpaced(starts, lo, i);
      }
      RangeSize(lo, lo + 4, w);
    }
  }

  lemma {:induction false} FirstOf(starts: seq<real>, w: set<nat>) returns (lo: nat)
    requires w != {}
    ensures lo in w && forall i | i in w :: lo <= i
  {
    var x :| x in w;
    if forall i | i in w :: x <= i {
      lo := x;
    } else {
      var y :| y in w && y < x;
      var rest := w - {x};
      assert y in rest;
      lo := FirstOf(starts, rest);
      assert lo <= y;
      assert forall i | i in w :: i == x || i in rest;
    }
  }
}
