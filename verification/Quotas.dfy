/** `_allocate_targets`: apportionment by largest remainders, in exact arithmetic. */
module Quotas {
  import opened Basics
  import opened StableSorting

  datatype AllocationError = TotalNotPositive | NegativeWeight | NoWeight

  function Sum(xs: seq<int>): int {
    if xs == [] then 0 else xs[0] + Sum(xs[1..])
  }

  function RealSum(ws: seq<real>): real {
    if ws == [] then 0.0 else ws[0] + RealSum(ws[1..])
  }

  /** The exact quotas. */
  function Raw(ws: seq<real>, total: int): (r: seq<real>)
    requires RealSum(ws) > 0.0
    ensures |r| == |ws| && forall i | 0 <= i < |r| :: r[i] == total as real * (ws[i] / RealSum(ws))
  {
    seq(|ws|, i requires 0 <= i < |ws| => total as real * (ws[i] / RealSum(ws)))
  }

  /** `int(x)`, which truncates towards zero. */
  function Truncate(x: real): int {
    if x >= 0.0 then x.Floor else -((-x).Floor)
  }

  function Floors(raw: seq<real>): (r: seq<int>)
    ensures |r| == |raw| && forall i | 0 <= i < |r| :: r[i] == Truncate(raw[i])
  {
    seq(|raw|, i requires 0 <= i < |raw| => Truncate(raw[i]))
  }

  /** The positions with their fractions, negated: sorting is by decreasing fraction. */
  function Fractions(raw: seq<real>): (r: seq<Ranked<nat>>)
    ensures |r| == |raw| && forall i | 0 <= i < |r| :: r[i] == Ranked(Finite(Truncate(raw[i]) as real - raw[i]), i)
  {
    seq(|raw|, i requires 0 <= i < |raw| => Ranked(Finite(Truncate(raw[i]) as real - raw[i]), i))
  }

  /** Positions by decreasing fraction, ties in their old order. */
  function ByFraction(raw: seq<real>): (r: seq<Ranked<nat>>)
    ensures |r| == |raw|
  {
    SortMembers(Fractions(raw));
    StableSort(Fractions(raw))
  }

  /** Positions in bounds. */
  predicate InBounds(order: seq<Ranked<nat>>, n: nat) {
    forall i | 0 <= i < |order| :: order[i].item < n
  }

  /** One more for each of the first `extra` positions, round and round. */
  function Bump(counts: seq<int>, order: seq<Ranked<nat>>, extra: nat): (r: seq<int>)
    requires InBounds(order, |counts|) && (extra > 0 ==> order != [])
    ensures |r| == |counts|
  {
    if extra == 0 then counts
    else
      var before := Bump(counts, order, extra - 1);
      var i := order[(extra - 1) % |order|].item;
      before[i := before[i] + 1]
  }

  predicate Allocatable(ws: seq<real>, total: int) {
    total > 0 && (forall i | 0 <= i < |ws| :: ws[i] >= 0.0) && RealSum(ws) > 0.0
  }

  // ----- The sum of the fractions -----

  /** An element of the order is the fraction of its position. */
  lemma {:induction false} FractionAt(raw: seq<real>, k: nat)
    requires k < |raw|
    ensures ByFraction(raw)[k].item < |raw|
    ensures ByFraction(raw)[k] == Fractions(raw)[ByFraction(raw)[k].item]
  {
    SortMembers(Fractions(raw));
    var x := ByFraction(raw)[k];
    var i :| 0 <= i < |raw| && Fractions(raw)[i] == x;
  }

  /** Every position is somewhere in the order. */
  lemma {:induction false} PositionInOrder(raw: seq<real>, i: nat) returns (k: nat)
    requires i < |raw|
    ensures k < |raw| && ByFraction(raw)[k] == Fractions(raw)[i]
  {
    SortMembers(Fractions(raw));
    assert Fractions(raw)[i] in ByFraction(raw);
    k :| 0 <= k < |raw| && ByFraction(raw)[k] == Fractions(raw)[i];
  }

  lemma {:induction false} SortedInBounds(raw: seq<real>)
    ensures InBounds(ByFraction(raw), |raw|)
  {
    forall i | 0 <= i < |raw| ensures ByFraction(raw)[i].item < |raw| {
      FractionAt(raw, i);
    }
  }

  lemma {:induction false} QuotasSum(ws: seq<real>, scale: real, raw: seq<real>)
    requires |raw| == |ws| && forall i | 0 <= i < |ws| :: raw[i] == scale * ws[i]
    ensures RealSum(raw) == scale * RealSum(ws)
  {
    if ws != [] {
      QuotasSum(ws[1..], scale, raw[1..]);
    }
  }

  /** The quotas sum to the total. */
  lemma {:induction false} RawSum(ws: seq<real>, total: int)
    requires RealSum(ws) > 0.0
    ensures RealSum(Raw(ws, total)) == total as real
  {
    var scale, raw := total as real / RealSum(ws), Raw(ws, total);
    forall i | 0 <= i < |ws| ensures raw[i] == scale * ws[i] {
      ScaleQuota(total as real, ws[i], RealSum(ws));
    }
    QuotasSum(ws, scale, raw);
  }

  lemma {:induction false} ScaleQuota(t: real, w: real, s: real)
    requires s > 0.0
    ensures t * (w / s) == (t / s) * w
  {}

  /** What the floors leave out is the sum of the fractions. */
  lemma {:induction false} FloorsSum(raw: seq<real>)
    ensures Sum(Floors(raw)) as real == RealSum(raw) + KeySum(Fractions(raw))
  {
    if raw != [] {
      FloorsSum(raw[1..]);
      assert Floors(raw)[1..] == Floors(raw[1..]);
      KeySumShift(raw);
    }
  }

  /** The sum of finite keys. */
  function KeySum(s: seq<Ranked<nat>>): real {
    if s == [] then 0.0 else (if s[0].key.Finite? then s[0].key.v else 0.0) + KeySum(s[1..])
  }

  lemma {:induction false} SameKeysSameSum(a: seq<Ranked<nat>>, b: seq<Ranked<nat>>)
    requires |a| == |b| && forall i | 0 <= i < |a| :: a[i].key == b[i].key
    ensures KeySum(a) == KeySum(b)
  {
    if a != [] {
      SameKeysSameSum(a[1..], b[1..]);
    }
  }

  lemma {:induction false} KeySumShift(raw: seq<real>)
    requires raw != []
    ensures KeySum(Fractions(raw)) == Truncate(raw[0]) as real - raw[0] + KeySum(Fractions(raw[1..]))
  {
    SameKeysSameSum(Fractions(raw)[1..], Fractions(raw[1..]));
  }

  lemma {:induction false} InsertKeySum(x: Ranked<nat>, s: seq<Ranked<nat>>)
    ensures KeySum(Insert(x, s)) == (if x.key.Finite? then x.key.v else 0.0) + KeySum(s)
  {
    if s == [] || Leq(x.key, s[0].key) {
      assert ([x] + s)[1..] == s;
    } else {
      InsertKeySum(x, s[1..]);
      assert ([s[0]] + Insert(x, s[1..]))[1..] == Insert(x, s[1..]);
    }
  }

  lemma {:induction false} SortKeySum(s: seq<Ranked<nat>>)
    ensures KeySum(StableSort(s)) == KeySum(s)
  {
    if s != [] {
      SortKeySum(s[1..]);
      InsertKeySum(s[0], StableSort(s[1..]));
    }
  }

  predicate IsFraction(x: Ranked<nat>) {
    x.key.Finite? && -1.0 < x.key.v <= 0.0
  }

  /** A fraction other than 0. */
  predicate IsProper(x: Ranked<nat>) {
    x.key.Finite? && x.key.v < 0.0
  }

  predicate AllAreFractions(s: seq<Ranked<nat>>) {
    forall i | 0 <= i < |s| :: IsFraction(s[i])
  }

  /** Fractions of which only the first `k` are proper sum to less than `k`. */
  lemma {:induction false} FewBeforeZero(s: seq<Ranked<nat>>, k: nat)
    requires AllAreFractions(s) && k <= |s|
    requires forall i | k <= i < |s| :: !IsProper(s[i])
    ensures KeySum(s) >= -(k as real) && (k > 0 ==> KeySum(s) > -(k as real)) && KeySum(s) <= 0.0
  {
    if s != [] {
      FewBeforeZero(s[1..], if k == 0 then 0 else k - 1);
      assert IsFraction(s[0]) && (k == 0 ==> !IsProper(s[0]));
    }
  }

  // ----- The allocation -----

  lemma {:induction false} RawNonNegative(ws: seq<real>, total: int)
    requires Allocatable(ws, total)
    ensures forall i | 0 <= i < |ws| :: Raw(ws, total)[i] >= 0.0 && (ws[i] == 0.0 ==> Raw(ws, total)[i] == 0.0)
  {
    forall i | 0 <= i < |ws| ensures Raw(ws, total)[i] >= 0.0 && (ws[i] == 0.0 ==> Raw(ws, total)[i] == 0.0) {
      QuotaNonNegative(total as real, ws[i], RealSum(ws));
    }
  }

  lemma {:induction false} QuotaNonNegative(t: real, w: real, s: real)
    requires t > 0.0 && w >= 0.0 && s > 0.0
    ensures t * (w / s) >= 0.0
  {
    assert w / s >= 0.0;
  }

  lemma {:induction false} AllFractions(raw: seq<real>)
    requires forall i | 0 <= i < |raw| :: raw[i] >= 0.0
    ensures AllAreFractions(ByFraction(raw))
  {
    forall i | 0 <= i < |raw| ensures IsFraction(ByFraction(raw)[i]) {
      FractionAt(raw, i);
    }
  }

  lemma {:induction false} ImproperFromHere(order: seq<Ranked<nat>>, k: nat)
    requires Ordered(order) && AllAreFractions(order) && k < |order| && !IsProper(order[k])
    ensures forall i | k <= i < |order| :: !IsProper(order[i])
  {
    forall i | k <= i < |order| ensures !IsProper(order[i]) {
      assert IsFraction(order[i]) && IsFraction(order[k]) && (k < i ==> Leq(order[k].key, order[i].key));
    }
  }

  function Remainder(ws: seq<real>, total: int): int
    requires RealSum(ws) > 0.0
  {
    total - Sum(Floors(Raw(ws, total)))
  }

  lemma {:induction false} RemainderIs(ws: seq<real>, total: int)
    requires Allocatable(ws, total)
    ensures Remainder(ws, total) as real == -KeySum(ByFraction(Raw(ws, total)))
    ensures AllAreFractions(ByFraction(Raw(ws, total))) && Ordered(ByFraction(Raw(ws, total)))
  {
    var raw := Raw(ws, total);
    RawNonNegative(ws, total);
    AllFractions(raw);
    RawSum(ws, total);
    FloorsSum(raw);
    SortKeySum(Fractions(raw));
    SortOrders(Fractions(raw));
  }

  /** The remainder is at least 0, and no larger than the number of proper fractions. */
  lemma {:induction false} RemainderBounds(ws: seq<real>, total: int)
    requires Allocatable(ws, total)
    ensures 0 <= Remainder(ws, total) < |ws|
    ensures forall k | 0 <= k < Remainder(ws, total) :: IsProper(ByFraction(Raw(ws, total))[k])
  {
    var order := ByFraction(Raw(ws, total));
    RemainderIs(ws, total);
    FewBeforeZero(order, |order|);
    assert ws != [];
    forall k | 0 <= k < Remainder(ws, total) ensures IsProper(order[k]) {
      if !IsProper(order[k]) {
        ImproperFromHere(order, k);
        FewBeforeZero(order, k);
      }
    }
  }

  /** The whole allocation. */
  function Allocate(ws: seq<real>, total: int): Result<seq<int>, AllocationError> {
    if total <= 0 then Err(TotalNotPositive)
    else if exists i | 0 <= i < |ws| :: ws[i] < 0.0 then Err(NegativeWeight)
    else if RealSum(ws) <= 0.0 then Err(NoWeight)
    else
      var raw := Raw(ws, total);
      SortedInBounds(raw);
      var remainder := Remainder(ws, total);
      if remainder <= 0 then Ok(Floors(raw))
      else
        assert ws != [];
        Ok(Bump(Floors(raw), ByFraction(raw), remainder))
  }

  /** `_allocate_targets`. */
  method AllocateTargets(ws: seq<real>, total: int) returns (r: Result<seq<int>, AllocationError>)
    ensures r == Allocate(ws, total)
  {
    if total <= 0 {
      return Err(TotalNotPositive);
    }
    if exists i | 0 <= i < |ws| :: ws[i] < 0.0 {
      return Err(NegativeWeight);
    }
    if RealSum(ws) <= 0.0 {
      return Err(NoWeight);
    }
    var raw := Raw(ws, total);
    var floors := Floors(raw);
    var remainder := total - Sum(floors);
    if remainder > 0 {
      SortedInBounds(raw);
      var frac := ByFraction(raw);
      ghost var before := floors;
      assert ws != [];
      var i := 0;
      while i < remainder
        invariant 0 <= i <= remainder && |floors| == |ws| && floors == Bump(before, frac, i)
      {
        var k := frac[i % |frac|].item;
        floors := floors[k := floors[k] + 1];
        i := i + 1;
      }
    }
    return Ok(floors);
  }

  // ----- What the allocation is -----

  lemma {:induction false} SumUpdate(xs: seq<int>, i: nat)
    requires i < |xs|
    ensures Sum(xs[i := xs[i] + 1]) == Sum(xs) + 1
  {
    if i == 0 {
      assert xs[0 := xs[0] + 1][1..] == xs[1..];
    } else {
      SumUpdate(xs[1..], i - 1);
      assert xs[i := xs[i] + 1][1..] == xs[1..][i - 1 := xs[1..][i - 1] + 1];
    }
  }

  lemma {:induction false} BumpSum(counts: seq<int>, order: seq<Ranked<nat>>, extra: nat)
    requires InBounds(order, |counts|) && (extra > 0 ==> order != [])
    ensures Sum(Bump(counts, order, extra)) == Sum(counts) + extra
  {
    if extra > 0 {
      BumpSum(counts, order, extra - 1);
      SumUpdate(Bump(counts, order, extra - 1), order[(extra - 1) % |order|].item);
    }
  }

  ghost predicate DistinctItems(order: seq<Ranked<nat>>) {
    forall i, j | 0 <= i < j < |order| :: order[i].item != order[j].item
  }

  /** Whether position `i` is among the first `n` of the order. */
  predicate IsAmong(order: seq<Ranked<nat>>, n: nat, i: nat)
    requires n <= |order|
  {
    exists k | 0 <= k < n :: order[k].item == i
  }

  lemma {:induction false} SmallMod(a: nat, n: nat)
    requires a < n
    ensures a % n == a
  {}

  lemma {:induction false} AmongNext(order: seq<Ranked<nat>>, n: nat, i: nat)
    requires 0 < n <= |order| && DistinctItems(order)
    ensures IsAmong(order, n, i) <==> IsAmong(order, n - 1, i) || order[n - 1].item == i
    ensures !(IsAmong(order, n - 1, i) && order[n - 1].item == i)
  {}

  lemma {:induction false} BumpIs(counts: seq<int>, order: seq<Ranked<nat>>, extra: nat, i: nat)
    requires InBounds(order, |counts|) && DistinctItems(order) && extra <= |order| && i < |counts|
    ensures Bump(counts, order, extra)[i] == counts[i] + if IsAmong(order, extra, i) then 1 else 0
  {
    if extra > 0 {
      BumpIs(counts, order, extra - 1, i);
      SmallMod(extra - 1, |order|);
      AmongNext(order, extra, i);
    }
  }

  lemma {:induction false} AmongAt(order: seq<Ranked<nat>>, n: nat, k: nat)
    requires DistinctItems(order) && n <= |order| && k < |order|
    ensures IsAmong(order, n, order[k].item) <==> k < n
  {}

  lemma {:induction false} InsertDistinct(x: Ranked<nat>, s: seq<Ranked<nat>>)
    requires DistinctItems(s) && forall i | 0 <= i < |s| :: s[i].item != x.item
    ensures DistinctItems(Insert(x, s))
  {
    if s != [] && !Leq(x.key, s[0].key) {
      InsertDistinct(x, s[1..]);
      InsertAdds(x, s[1..]);
      var rest := Insert(x, s[1..]);
      forall j | 0 <= j < |rest| ensures rest[j].item != s[0].item {
        assert rest[j] in multiset(rest);
        assert rest[j] == x || rest[j] in s[1..];
      }
    }
  }

  lemma {:induction false} SortDistinct(s: seq<Ranked<nat>>)
    requires DistinctItems(s)
    ensures DistinctItems(StableSort(s))
  {
    if s != [] {
      SortDistinct(s[1..]);
      SortOrders(s[1..]);
      var rest := StableSort(s[1..]);
      forall i | 0 <= i < |rest| ensures rest[i].item != s[0].item {
        assert rest[i] in multiset(rest);
        assert rest[i] in s[1..];
      }
      InsertDistinct(s[0], rest);
    }
  }

  /** A result that obeys the quota rule: each count is its quota rounded down or up. */
  predicate WithinQuota(raw: real, count: int) {
    count as real <= raw < count as real + 1.0 || count as real - 1.0 < raw <= count as real
  }

  /** The allocation of one position: its floor, plus one if its fraction is among the largest. */
  lemma {:induction false} AllocatedAt(ws: seq<real>, total: int, i: nat)
    requires Allocatable(ws, total) && i < |ws|
    ensures 0 <= Remainder(ws, total) < |ws|
    ensures Allocate(ws, total).Ok? && |Allocate(ws, total).value| == |ws|
    ensures Allocate(ws, total).value[i] ==
            Raw(ws, total)[i].Floor + if IsAmong(ByFraction(Raw(ws, total)), Remainder(ws, total), i) then 1 else 0
  {
    var raw := Raw(ws, total);
    RawNonNegative(ws, total);
    RemainderBounds(ws, total);
    SortedInBounds(raw);
    SortDistinct(Fractions(raw));
    BumpIs(Floors(raw), ByFraction(raw), Remainder(ws, total), i);
  }

  lemma {:induction false} WithinQuotaAt(ws: seq<real>, total: int, i: nat)
    requires Allocatable(ws, total) && i < |ws|
    ensures Allocate(ws, total).Ok? && |Allocate(ws, total).value| == |ws|
    ensures WithinQuota(Raw(ws, total)[i], Allocate(ws, total).value[i]) && Allocate(ws, total).value[i] >= Raw(ws, total)[i].Floor
    ensures ws[i] == 0.0 ==> Allocate(ws, total).value[i] == 0
  {
    var raw := Raw(ws, total);
    RawNonNegative(ws, total);
    RemainderBounds(ws, total);
    AllocatedAt(ws, total, i);
    var order := ByFraction(raw);
    if IsAmong(order, Remainder(ws, total), i) {
      var k :| 0 <= k < Remainder(ws, total) && order[k].item == i;
      FractionAt(raw, k);
      assert IsProper(order[k]);
    }
  }

  /**
    The apportionment theorem.  The counts sum to the total, each is its exact
    quota rounded down or up, and a key without weight gets nothing.
   */
  lemma {:induction false} AllocationIsFair(ws: seq<real>, total: int)
    requires Allocatable(ws, total)
    ensures Allocate(ws, total).Ok? && |Allocate(ws, total).value| == |ws|
    ensures Sum(Allocate(ws, total).value) == total
    ensures forall i | 0 <= i < |ws| ::
              && WithinQuota(Raw(ws, total)[i], Allocate(ws, total).value[i])
              && Allocate(ws, total).value[i] >= Raw(ws, total)[i].Floor >= 0
              && (ws[i] == 0.0 ==> Allocate(ws, total).value[i] == 0)
  {
    var raw := Raw(ws, total);
    RemainderBounds(ws, total);
    SortedInBounds(raw);
    BumpSum(Floors(raw), ByFraction(raw), Remainder(ws, total));
    RawNonNegative(ws, total);
    forall i | 0 <= i < |ws|
      ensures WithinQuota(raw[i], Allocate(ws, total).value[i])
      ensures Allocate(ws, total).value[i] >= raw[i].Floor >= 0
      ensures ws[i] == 0.0 ==> Allocate(ws, total).value[i] == 0
    {
      WithinQuotaAt(ws, total, i);
    }
  }

  /** Whoever is rounded up has at least the fraction of whoever is rounded down. */
  lemma {:induction false} LargestFractionsFirst(ws: seq<real>, total: int, i: nat, j: nat)
    requires Allocatable(ws, total) && i < |ws| && j < |ws|
    ensures Allocate(ws, total).Ok? && |Allocate(ws, total).value| == |ws|
    ensures Allocate(ws, total).value[i] > Raw(ws, total)[i].Floor && Allocate(ws, total).value[j] == Raw(ws, total)[j].Floor ==>
              Raw(ws, total)[i] - Raw(ws, total)[i].Floor as real >= Raw(ws, total)[j] - Raw(ws, total)[j].Floor as real
  {
    var raw := Raw(ws, total);
    RawNonNegative(ws, total);
    AllocatedAt(ws, total, i);
    AllocatedAt(ws, total, j);
    var order := ByFraction(raw);
    SortOrders(Fractions(raw));
    SortDistinct(Fractions(raw));
    var k := PositionInOrder(raw, i);
    var l := PositionInOrder(raw, j);
    AmongAt(order, Remainder(ws, total), k);
    AmongAt(order, Remainder(ws, total), l);
  }

  // ----- The allocation in terms of the weights -----

  lemma {:induction false} PositiveSum(ws: seq<real>)
    requires forall i | 0 <= i < |ws| :: ws[i] >= 0.0
    ensures RealSum(ws) >= 0.0
    ensures RealSum(ws) > 0.0 <==> exists i | 0 <= i < |ws| :: ws[i] > 0.0
  {
    if ws != [] {
      PositiveSum(ws[1..]);
      if exists i | 0 <= i < |ws| :: ws[i] > 0.0 {
        var i :| 0 <= i < |ws| && ws[i] > 0.0;
        assert i > 0 ==> ws[1..][i - 1] > 0.0;
      }
    }
  }

  /** When an allocation is refused, and with which error. */
  lemma {:induction false} AllocationFailsIff(ws: seq<real>, total: int)
    ensures Allocate(ws, total) == Err(TotalNotPositive) <==> total <= 0
    ensures Allocate(ws, total) == Err(NegativeWeight) <==> total > 0 && exists i | 0 <= i < |ws| :: ws[i] < 0.0
    ensures Allocate(ws, total) == Err(NoWeight) <==> total > 0 && forall i | 0 <= i < |ws| :: ws[i] == 0.0
    ensures Allocate(ws, total).Ok? <==> Allocatable(ws, total)
  {
    if forall i | 0 <= i < |ws| :: ws[i] >= 0.0 {
      PositiveSum(ws);
    }
  }

  lemma {:induction false} ShareIs(total: real, w: real, sum: real)
    requires sum > 0.0
    ensures total * (w / sum) == total * w / sum
  {}

  /** The share of a weight in the total. */
  function Share(ws: seq<real>, total: int, i: nat): real
    requires i < |ws| && RealSum(ws) > 0.0
  {
    total as real * ws[i] / RealSum(ws)
  }

  lemma {:induction false} RawIsShare(ws: seq<real>, total: int, i: nat)
    requires i < |ws| && RealSum(ws) > 0.0
    ensures Raw(ws, total)[i] == Share(ws, total, i)
  {
    ShareIs(total as real, ws[i], RealSum(ws));
  }

  /** Each count is the proportional share of its weight, rounded down or up. */
  lemma {:induction false} AllocationIsProportional(ws: seq<real>, total: int, i: nat)
    requires Allocatable(ws, total) && i < |ws|
    ensures Allocate(ws, total).Ok? && |Allocate(ws, total).value| == |ws|
    ensures WithinQuota(Share(ws, total, i), Allocate(ws, total).value[i])
  {
    WithinQuotaAt(ws, total, i);
    RawIsShare(ws, total, i);
  }

  // ----- Ties -----

  ghost predicate TiesInOrder(s: seq<Ranked<nat>>) {
    forall a, b | 0 <= a < b < |s| && s[a].key == s[b].key :: s[a].item < s[b].item
  }

  lemma {:induction false} InsertKeepsTies(x: Ranked<nat>, s: seq<Ranked<nat>>)
    requires TiesInOrder(s) && forall k | 0 <= k < |s| :: x.item < s[k].item
    ensures TiesInOrder(Insert(x, s))
  {
    if s != [] && !Leq(x.key, s[0].key) {
      InsertKeepsTies(x, s[1..]);
      InsertAdds(x, s[1..]);
      var rest := Insert(x, s[1..]);
      forall j | 0 <= j < |rest| && rest[j].key == s[0].key ensures s[0].item < rest[j].item {
        assert rest[j] in multiset(rest);
        assert rest[j] == x || rest[j] in s[1..];
      }
    }
  }

  lemma {:induction false} SortKeepsTies(s: seq<Ranked<nat>>)
    requires forall a, b | 0 <= a < b < |s| :: s[a].item < s[b].item
    ensures TiesInOrder(StableSort(s))
  {
    if s != [] {
      SortKeepsTies(s[1..]);
      SortMembers(s[1..]);
      var rest := StableSort(s[1..]);
      forall k | 0 <= k < |rest| ensures s[0].item < rest[k].item {
        assert rest[k] in s[1..];
      }
      InsertKeepsTies(s[0], rest);
    }
  }

  /** Of two equal fractions the earlier key is rounded up first. */
  lemma {:induction false} EarlierTieFirst(ws: seq<real>, total: int, i: nat, j: nat)
    requires Allocatable(ws, total) && i < |ws| && j < |ws|
    ensures Allocate(ws, total).Ok? && |Allocate(ws, total).value| == |ws|
    ensures Allocate(ws, total).value[i] > Raw(ws, total)[i].Floor && Allocate(ws, total).value[j] == Raw(ws, total)[j].Floor
              && Raw(ws, total)[i] - Raw(ws, total)[i].Floor as real == Raw(ws, total)[j] - Raw(ws, total)[j].Floor as real ==>
              i < j
  {
    var raw := Raw(ws, total);
    RawNonNegative(ws, total);
    AllocatedAt(ws, total, i);
    AllocatedAt(ws, total, j);
    var order := ByFraction(raw);
    SortKeepsTies(Fractions(raw));
    SortDistinct(Fractions(raw));
    var k := PositionInOrder(raw, i);
    var l := PositionInOrder(raw, j);
    AmongAt(order, Remainder(ws, total), k);
    AmongAt(order, Remainder(ws, total), l);
  }
}
