/** `validate_plan_result_set`: comparing result sets in the order in which the executions finish. */
module ResultComparison {
  import opened Basics

  datatype Kind = Baseline | Candidate

  /** How one execution ends: an exception, an error result, or a result set. */
  datatype Execution<T> = Raised | Failed | Produced(data: T)

  datatype Arrival<T> = Arrival(kind: Kind, execution: Execution<T>)

  datatype ValidationError = ValidationFailed | BaselineFailed | CandidateFailed | Mismatch | NonDeterministic

  /** `compare_result_sets`. */
  type Compare<!T> = (T, T) -> bool

  /** The payloads that are held between arrivals: a baseline until the first candidate, then that candidate. */
  datatype Held<T> = Held(baseline: Option<T>, primary: Option<T>)

  /** What one arrival does: an error, or the payloads held from then on. */
  function Receive<T>(compare: Compare<T>, held: Held<T>, a: Arrival<T>): Result<Held<T>, ValidationError> {
    match a.execution
    case Raised => Err(ValidationFailed)
    case Failed => Err(if a.kind.Baseline? then BaselineFailed else CandidateFailed)
    case Produced(data) =>
      if a.kind.Baseline? then
        if held.primary.None? then Ok(held.(baseline := Some(data)))
        else if compare(data, held.primary.value) then Ok(held)
        else Err(Mismatch)
      else if held.primary.Some? then
        if compare(held.primary.value, data) then Ok(held) else Err(NonDeterministic)
      else if held.baseline.None? then Ok(Held(None, Some(data)))
      else if compare(held.baseline.value, data) then Ok(Held(None, Some(data)))
      else Err(Mismatch)
  }

  function ReceiveAll<T>(compare: Compare<T>, held: Held<T>, arrivals: seq<Arrival<T>>): Result<Held<T>, ValidationError>
    decreases |arrivals|
  {
    if arrivals == [] then Ok(held)
    else
      var next :- Receive(compare, held, arrivals[0]);
      ReceiveAll(compare, next, arrivals[1..])
  }

  /** The verdict: no error means that the candidate is accepted. */
  function Verdict<T>(compare: Compare<T>, arrivals: seq<Arrival<T>>): Option<ValidationError> {
    match ReceiveAll(compare, Held(None, None), arrivals)
    case Ok(_) => None
    case Err(e) => Some(e)
  }

  class Checker<T(!new)> {
    const compare: Compare<T>
    var baselineData: Option<T>
    var primaryCandData: Option<T>

    constructor (compare: Compare<T>)
      ensures this.compare == compare && Contents() == Held(None, None) && Valid()
    {
      this.compare, baselineData, primaryCandData := compare, None, None;
    }

    function Contents(): Held<T>
      reads this
    {
      Held(baselineData, primaryCandData)
    }

    /** A baseline and a primary candidate are never held at the same time. */
    predicate Valid()
      reads this
    {
      !(baselineData.Some? && primaryCandData.Some?)
    }

    /** The body of the loop over completed futures. */
    method Accept(a: Arrival<T>) returns (error: Option<ValidationError>)
      requires Valid()
      modifies this
      ensures Valid()
      ensures match Receive(compare, old(Contents()), a)
              case Ok(held) => error == None && Contents() == held
              case Err(e) => error == Some(e)
    {
      match a.execution {
        case Raised => return Some(ValidationFailed);
        case Failed => return Some(if a.kind.Baseline? then BaselineFailed else CandidateFailed);
        case Produced(data) =>
          if a.kind.Baseline? {
            if primaryCandData.Some? {
              return if compare(data, primaryCandData.value) then None else Some(Mismatch);
            }
            baselineData := Some(data);
          } else if primaryCandData.None? {
            var stashed := baselineData;
            primaryCandData, baselineData := Some(data), None;
            if stashed.Some? && !compare(stashed.value, data) {
              return Some(Mismatch);
            }
          } else if !compare(primaryCandData.value, data) {
            return Some(NonDeterministic);
          }
      }
      return None;
    }

    /** The loop: stop at the first error. */
    method Validate(arrivals: seq<Arrival<T>>) returns (error: Option<ValidationError>)
      requires Contents() == Held(None, None)
      modifies this
      ensures Valid() && error == Verdict(compare, arrivals)
    {
      var i := 0;
      while i < |arrivals|
        invariant 0 <= i <= |arrivals| && Valid()
        invariant ReceiveAll(compare, Held(None, None), arrivals) == ReceiveAll(compare, Contents(), arrivals[i..])
      {
        error := Accept(arrivals[i]);
        if error.Some? {
          return;
        }
        i := i + 1;
      }
      error := None;
    }
  }

  // ----- The verdict without an order -----

  /** There is one baseline execution. */
  ghost predicate OneBaseline<T>(arrivals: seq<Arrival<T>>) {
    exists b | 0 <= b < |arrivals| :: IsBaselineAt(arrivals, b)
  }

  ghost predicate IsBaselineAt<T>(arrivals: seq<Arrival<T>>, b: nat) {
    b < |arrivals| && forall i | 0 <= i < |arrivals| :: arrivals[i].kind.Baseline? <==> i == b
  }

  predicate AllProduced<T>(arrivals: seq<Arrival<T>>) {
    forall i | 0 <= i < |arrivals| :: arrivals[i].execution.Produced?
  }

  /** Everything held has been compared with everything seen, as far as it matters from here on. */
  ghost predicate AgreesWith<T>(compare: Compare<T>, x: T, a: Arrival<T>) {
    a.execution.Produced? && if a.kind.Baseline? then compare(a.execution.data, x) else compare(x, a.execution.data)
  }

  /** With a primary candidate, the rest passes exactly when each execution agrees with it. */
  lemma {:induction false} WithPrimary<T>(compare: Compare<T>, held: Held<T>, arrivals: seq<Arrival<T>>)
    requires held.primary.Some?
    ensures ReceiveAll(compare, held, arrivals).Ok? <==>
            forall i | 0 <= i < |arrivals| :: AgreesWith(compare, held.primary.value, arrivals[i])
    decreases |arrivals|
  {
    if arrivals != [] && AgreesWith(compare, held.primary.value, arrivals[0]) {
      assert Receive(compare, held, arrivals[0]) == Ok(held);
      WithPrimary(compare, held, arrivals[1..]);
      assert forall i | 0 < i < |arrivals| :: arrivals[i] == arrivals[1..][i - 1];
    }
  }

  /** The first candidate to arrive, if any. */
  function FirstCandidate<T>(arrivals: seq<Arrival<T>>): (k: nat)
    ensures k <= |arrivals| && (k < |arrivals| ==> arrivals[k].kind.Candidate?)
    ensures forall i | 0 <= i < k :: arrivals[i].kind.Baseline?
  {
    if arrivals == [] || arrivals[0].kind.Candidate? then 0 else 1 + FirstCandidate(arrivals[1..])
  }

  /** Every execution but the `k`-th agrees with the `k`-th. */
  ghost predicate IsCenter<T>(compare: Compare<T>, arrivals: seq<Arrival<T>>, k: nat) {
    && k < |arrivals| && arrivals[k].kind.Candidate? && arrivals[k].execution.Produced?
    && forall i | 0 <= i < |arrivals| && i != k :: AgreesWith(compare, arrivals[k].execution.data, arrivals[i])
  }

  /** For any comparison, the verdict compares every other execution with the first candidate. */
  lemma {:induction false} VerdictIs<T>(compare: Compare<T>, arrivals: seq<Arrival<T>>)
    requires OneBaseline(arrivals)
    ensures Verdict(compare, arrivals) == None <==>
            if FirstCandidate(arrivals) == |arrivals| then AllProduced(arrivals)
            else IsCenter(compare, arrivals, FirstCandidate(arrivals))
  {
    var b: nat :| b < |arrivals| && IsBaselineAt(arrivals, b);
    var k := FirstCandidate(arrivals);
    if k == 0 {
      CandidateFirst(compare, arrivals);
    } else {
      assert arrivals[0].kind.Baseline?;
      assert b == 0 && (|arrivals| > 1 ==> arrivals[1..][0].kind.Candidate?);
      BaselineFirst(compare, arrivals);
    }
  }

  lemma {:induction false} CandidateFirst<T>(compare: Compare<T>, arrivals: seq<Arrival<T>>)
    requires arrivals != [] && arrivals[0].kind.Candidate?
    ensures ReceiveAll(compare, Held(None, None), arrivals).Ok? <==> IsCenter(compare, arrivals, 0)
  {
    if arrivals[0].execution.Produced? {
      var held := Held(None, Some(arrivals[0].execution.data));
      WithPrimary(compare, held, arrivals[1..]);
      assert forall i | 0 < i < |arrivals| :: arrivals[i] == arrivals[1..][i - 1];
      assert forall i | 0 <= i < |arrivals[1..]| :: arrivals[1..][i] == arrivals[i + 1];
    }
  }

  lemma {:induction false} BaselineFirst<T>(compare: Compare<T>, arrivals: seq<Arrival<T>>)
    requires IsBaselineAt(arrivals, 0)
    ensures ReceiveAll(compare, Held(None, None), arrivals).Ok? <==>
            if |arrivals| == 1 then AllProduced(arrivals) else IsCenter(compare, arrivals, 1)
  {
    if |arrivals| > 1 && arrivals[0].execution.Produced? && arrivals[1].execution.Produced? {
      var first := Held(Some(arrivals[0].execution.data), None);
      var rest := arrivals[1..];
      assert Receive(compare, Held(None, None), arrivals[0]) == Ok(first) && rest[0] == arrivals[1];
      if compare(arrivals[0].execution.data, arrivals[1].execution.data) {
        var held := Held(None, Some(arrivals[1].execution.data));
        assert Receive(compare, first, rest[0]) == Ok(held);
        WithPrimary(compare, held, rest[1..]);
        assert forall i | 1 < i < |arrivals| :: arrivals[i] == rest[1..][i - 2];
        assert forall i | 0 <= i < |rest[1..]| :: rest[1..][i] == arrivals[i + 2];
      } else {
        assert !AgreesWith(compare, arrivals[1].execution.data, arrivals[0]);
      }
    }
  }

  // ----- Equivalences -----

  ghost predicate Symmetric<T(!new)>(compare: Compare<T>) {
    forall a, b :: compare(a, b) ==> compare(b, a)
  }

  ghost predicate Transitive<T(!new)>(compare: Compare<T>) {
    forall a, b, c :: compare(a, b) && compare(b, c) ==> compare(a, c)
  }

  ghost predicate AllAgree<T>(compare: Compare<T>, arrivals: seq<Arrival<T>>) {
    && AllProduced(arrivals)
    && forall i, j | 0 <= i < |arrivals| && 0 <= j < |arrivals| && i != j ::
         compare(arrivals[i].execution.data, arrivals[j].execution.data)
  }

  /**
    Order-independent verdict.  If result comparison is symmetric and transitive,
    then for every arrival order the candidate is accepted if and only if all
    executions succeed and all their results are equivalent.
   */
  lemma {:induction false} AcceptedIffAllAgree<T(!new)>(compare: Compare<T>, arrivals: seq<Arrival<T>>)
    requires OneBaseline(arrivals) && Symmetric(compare) && Transitive(compare)
    ensures Verdict(compare, arrivals) == None <==> AllAgree(compare, arrivals)
  {
    VerdictIs(compare, arrivals);
    var k := FirstCandidate(arrivals);
    if k < |arrivals| && IsCenter(compare, arrivals, k) {
      forall i, j | 0 <= i < |arrivals| && 0 <= j < |arrivals| && i != j
        ensures compare(arrivals[i].execution.data, arrivals[j].execution.data)
      {
        assert i != k ==> AgreesWith(compare, arrivals[k].execution.data, arrivals[i]);
        assert j != k ==> AgreesWith(compare, arrivals[k].execution.data, arrivals[j]);
      }
    }
  }

  // ----- Exactly when the order does not matter -----

  /** The condition: a chain of two comparisons also holds the other way round. */
  ghost predicate Exchanges<T(!new)>(compare: Compare<T>) {
    forall a, b, c :: compare(a, b) && compare(b, c) ==> compare(a, c) && compare(c, b)
  }

  ghost predicate OrderIndependent<T(!new)>(compare: Compare<T>) {
    forall p, q | OneBaseline(p) && OneBaseline(q) && multiset(p) == multiset(q) ::
      Verdict(compare, p) == None <==> Verdict(compare, q) == None
  }

  /** Under the exchange condition any candidate can take the role of the primary one. */
  lemma {:induction false} CenterMoves<T(!new)>(compare: Compare<T>, arrivals: seq<Arrival<T>>, k: nat, l: nat)
    requires Exchanges(compare) && OneBaseline(arrivals) && IsCenter(compare, arrivals, k)
    requires l < |arrivals| && arrivals[l].kind.Candidate?
    ensures IsCenter(compare, arrivals, l)
  {
    var b: nat :| b < |arrivals| && IsBaselineAt(arrivals, b);
    if l != k {
      var base, x, y := arrivals[b].execution, arrivals[k].execution.data, arrivals[l].execution;
      assert AgreesWith(compare, x, arrivals[b]) && AgreesWith(compare, x, arrivals[l]);
      assert compare(base.data, y.data) && compare(y.data, x);
      forall i | 0 <= i < |arrivals| && i != l ensures AgreesWith(compare, y.data, arrivals[i]) {
        if i != k {
          assert AgreesWith(compare, x, arrivals[i]);
        }
      }
    }
  }

  /** A rearrangement keeps a center, at another place. */
  lemma {:induction false} CenterRearranged<T>(compare: Compare<T>, p: seq<Arrival<T>>, q: seq<Arrival<T>>, k: nat) returns (l: nat)
    requires multiset(p) == multiset(q) && IsCenter(compare, p, k)
    ensures IsCenter(compare, q, l)
  {
    var x := p[k];
    assert x in multiset(q);
    l :| 0 <= l < |q| && q[l] == x;
    Without(p, k);
    Without(q, l);
    var p', q' := p[..k] + p[k + 1..], q[..l] + q[l + 1..];
    forall i | 0 <= i < |q| && i != l ensures AgreesWith(compare, x.execution.data, q[i]) {
      assert q[i] == q'[if i < l then i else i - 1];
      assert q[i] in multiset(q');
      assert q[i] in p';
      var j :| 0 <= j < |p'| && p'[j] == q[i];
      assert p'[j] == p[if j < k then j else j + 1];
    }
  }

  lemma {:induction false} Without<T>(p: seq<Arrival<T>>, k: nat)
    requires k < |p|
    ensures multiset(p[..k] + p[k + 1..]) == multiset(p) - multiset{p[k]}
  {
    assert p == p[..k] + [p[k]] + p[k + 1..];
  }

  lemma {:induction false} ProducedRearranged<T>(p: seq<Arrival<T>>, q: seq<Arrival<T>>)
    requires multiset(p) == multiset(q) && AllProduced(p)
    ensures AllProduced(q)
  {
    forall i | 0 <= i < |q| ensures q[i].execution.Produced? {
      assert q[i] in multiset(p);
      assert q[i] in p;
    }
  }

  lemma {:induction false} AcceptedRearranged<T(!new)>(compare: Compare<T>, p: seq<Arrival<T>>, q: seq<Arrival<T>>)
    requires Exchanges(compare) && OneBaseline(p) && OneBaseline(q) && multiset(p) == multiset(q)
    requires Verdict(compare, p) == None
    ensures Verdict(compare, q) == None
  {
    VerdictIs(compare, p);
    VerdictIs(compare, q);
    assert |p| == |multiset(p)| == |q|;
    var k, l := FirstCandidate(p), FirstCandidate(q);
    if k < |p| {
      var m := CenterRearranged(compare, p, q, k);
      if l < |q| {
        CenterMoves(compare, q, m, l);
      }
    } else {
      ProducedRearranged(p, q);
      NoCandidates(p, q);
    }
  }

  lemma {:induction false} NoCandidates<T>(p: seq<Arrival<T>>, q: seq<Arrival<T>>)
    requires multiset(p) == multiset(q) && FirstCandidate(p) == |p|
    ensures FirstCandidate(q) == |q|
  {
    forall i | 0 <= i < |q| ensures q[i].kind.Baseline? {
      assert q[i] in multiset(p);
      assert q[i] in p;
    }
  }

  /**
    For any comparison: whether the candidate is accepted does not depend on the
    arrival order, for all inputs, if and only if the comparison exchanges.
   */
  lemma {:induction false} OrderIndependentIff<T(!new)>(compare: Compare<T>)
    ensures OrderIndependent(compare) <==> Exchanges(compare)
  {
    if Exchanges(compare) {
      forall p, q | OneBaseline(p) && OneBaseline(q) && multiset(p) == multiset(q)
        ensures Verdict(compare, p) == None <==> Verdict(compare, q) == None
      {
        if Verdict(compare, p) == None { AcceptedRearranged(compare, p, q); }
        if Verdict(compare, q) == None { AcceptedRearranged(compare, q, p); }
      }
    }
    if OrderIndependent(compare) {
      forall a, b, c | compare(a, b) && compare(b, c) ensures compare(a, c) && compare(c, b) {
        SwappedCandidates(compare, a, b, c);
      }
    }
  }

  function Three<T>(base: T, x: T, y: T): seq<Arrival<T>> {
    [Arrival(Baseline, Produced(base)), Arrival(Candidate, Produced(x)), Arrival(Candidate, Produced(y))]
  }

  lemma {:induction false} ThreeVerdict<T>(compare: Compare<T>, base: T, x: T, y: T)
    ensures OneBaseline(Three(base, x, y))
    ensures Verdict(compare, Three(base, x, y)) == None <==> compare(base, x) && compare(x, y)
  {
    var arrivals := Three(base, x, y);
    assert IsBaselineAt(arrivals, 0);
    VerdictIs(compare, arrivals);
    assert FirstCandidate(arrivals) == 1;
    assert AgreesWith(compare, x, arrivals[0]) <==> compare(base, x);
    assert AgreesWith(compare, x, arrivals[2]) <==> compare(x, y);
    assert arrivals[1].execution.data == x;
  }

  lemma {:induction false} SwappedCandidates<T(!new)>(compare: Compare<T>, a: T, b: T, c: T)
    requires OrderIndependent(compare) && compare(a, b) && compare(b, c)
    ensures compare(a, c) && compare(c, b)
  {
    ThreeVerdict(compare, a, b, c);
    ThreeVerdict(compare, a, c, b);
    assert multiset(Three(a, b, c)) == multiset(Three(a, c, b));
  }
}
