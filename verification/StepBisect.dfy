/**
 Step compression (stepcompress.c): minmax_point, compress_bisect_add and check_line.

 Step times are given relative to last_step_clock, in exact integers: the C code works in
 int32_t, so the model assumes that none of its products overflows.
 */
module StepBisect {
  import opened Basics

  const QUADRATIC_DEV: int := 11
  const INT32_MIN: int := -0x8000_0000
  const MAX_COUNT: int := 65535

  // interval, count and add of a queue_step command
  datatype StepMove = StepMove(interval: int, count: int, add: int)

  // Division of C: rounds toward zero.
  function CDiv(n: int, d: int): int
    requires d > 0
  {
    if n >= 0 then n / d else -((-n) / d)
  }

  // idiv_up rounds up, for either sign of n.
  function IdivUp(n: int, d: int): (r: int)
    requires d > 0
    ensures n <= r * d && (r - 1) * d < n
  {
    if n >= 0 then CDiv(n + d - 1, d) else CDiv(n, d)
  }

  // idiv_down rounds down, for either sign of n.
  function IdivDown(n: int, d: int): (r: int)
    requires d > 0
    ensures r * d <= n && n < (r + 1) * d
  {
    if n >= 0 then CDiv(n, d) else CDiv(n - d + 1, d)
  }

  // Requested step times in the queue: strictly increasing, after the last step, and within
  // the range of a queue_step interval.
  predicate Rising(pts: seq<int>) {
    && (forall k :: 0 <= k < |pts| ==> 0 < pts[k] < 0x8000_0000)
    && (forall j, k :: 0 <= j < k < |pts| ==> pts[j] < pts[k])
  }

  // minmax_point: a step may be early by half the distance to the previous request, at most
  // by maxError, and never late.
  function MaxP(pts: seq<int>, k: nat): int
    requires k < |pts|
  {
    pts[k]
  }

  function MinP(pts: seq<int>, maxError: nat, k: nat): int
    requires k < |pts|
  {
    var prev := if k > 0 then pts[k-1] else 0;
    pts[k] - IMin((pts[k] - prev) / 2, maxError)
  }

  // The windows of different steps are disjoint and in order.
  lemma Windows(pts: seq<int>, maxError: nat, k: nat)
    requires Rising(pts) && k < |pts|
    ensures MinP(pts, maxError, k) <= MaxP(pts, k)
    ensures (if k > 0 then MaxP(pts, k - 1) else 0) < MinP(pts, maxError, k)
    ensures MaxP(pts, k) - maxError <= MinP(pts, maxError, k)
  {
  }

  function Tri(k: nat): (t: nat)
    ensures k >= 2 ==> t >= 1
  {
    if k == 0 then 0 else Tri(k - 1) + (k - 1)
  }

  lemma {:induction false} TriIs(k: nat)
    ensures Tri(k) == k * (k - 1) / 2 && (k * (k - 1)) % 2 == 0
  {
    if k > 0 {
      TriIs(k - 1);
      assert k * (k - 1) == (k - 1) * (k - 2) + 2 * (k - 1);
    }
  }

  // When the mcu makes the k-th step (from 1) of a sequence.
  function At(interval: int, add: int, k: nat): int { interval * k + add * Tri(k) }

  lemma AtNext(interval: int, add: int, k: nat)
    ensures At(interval, add, k + 1) == At(interval, add, k) + interval + add * k
    ensures At(interval, add, 1) == interval && At(interval, add, 0) == 0
  {
    assert Tri(k + 1) == Tri(k) + k;
    assert add * (Tri(k) + k) == add * Tri(k) + add * k;
    assert Tri(1) == 0;
  }

  predicate InWindow(pts: seq<int>, maxError: nat, interval: int, add: int, k: nat) {
    1 <= k <= |pts| && MinP(pts, maxError, k - 1) <= At(interval, add, k) <= MaxP(pts, k - 1)
  }

  // The first n steps all fall into their windows.
  predicate Fits(pts: seq<int>, maxError: nat, interval: int, add: int, n: nat) {
    n <= |pts| && forall k :: 1 <= k <= n ==> InWindow(pts, maxError, interval, add, k)
  }

  // What check_line accepts.
  predicate LineOk(pts: seq<int>, maxError: nat, m: StepMove) {
    && 0 < m.count <= |pts| && !(m.interval == 0 && m.add == 0 && m.count > 1)
    && 0 <= m.interval < 0x8000_0000
    && Fits(pts, maxError, m.interval, m.add, m.count)
    && forall i :: 0 <= i < m.count ==> IntervalOk(m, i)
  }

  // The interval before step i + 1 does not overflow.
  predicate IntervalOk(m: StepMove, i: nat) { 0 <= RunInterval(m, i) < 0x8000_0000 }

  function RunInterval(m: StepMove, i: nat): int { m.interval + m.add * i }

  lemma RunNext(m: StepMove, i: nat)
    ensures RunInterval(m, 0) == m.interval && RunInterval(m, i + 1) == RunInterval(m, i) + m.add
    ensures At(m.interval, m.add, 0) == 0
    ensures At(m.interval, m.add, i + 1) == At(m.interval, m.add, i) + RunInterval(m, i)
  {
    AtNext(m.interval, m.add, i);
    assert m.add * (i + 1) == m.add * i + m.add;
    assert m.add * 0 == 0;
  }

  // Steps that fit are strictly increasing, so the running interval stays positive.
  lemma FitsRunning(pts: seq<int>, maxError: nat, interval: int, add: int, n: nat, i: nat)
    requires Rising(pts) && Fits(pts, maxError, interval, add, n) && i < n
    ensures 0 < interval + add * i < 0x8000_0000
    ensures At(interval, add, i) < At(interval, add, i + 1)
  {
    AtNext(interval, add, i);
    Windows(pts, maxError, i);
    assert InWindow(pts, maxError, interval, add, i + 1);
    if i > 0 {
      assert InWindow(pts, maxError, interval, add, i);
      Windows(pts, maxError, i - 1);
    }
  }

  lemma FitsIsOk(pts: seq<int>, maxError: nat, m: StepMove)
    requires Rising(pts) && m.count > 0 && Fits(pts, maxError, m.interval, m.add, m.count)
    ensures LineOk(pts, maxError, m) && m.interval > 0
  {
    forall i: nat | i < m.count ensures IntervalOk(m, i) {
      FitsRunning(pts, maxError, m.interval, m.add, m.count, i);
    }
    FitsRunning(pts, maxError, m.interval, m.add, m.count, 0);
    assert m.add * 0 == 0;
  }

  // check_line
  method CheckLine(pts: seq<int>, maxError: nat, m: StepMove) returns (ok: bool)
    requires m.count <= |pts| && 0 <= m.count && 0 <= m.interval
    ensures ok == LineOk(pts, maxError, m)
  {
    hide At, MinP, RunInterval, Tri;
    if m.count == 0 || (m.interval == 0 && m.add == 0 && m.count > 1) || m.interval >= 0x8000_0000 {
      return false;
    }
    var interval, p, i := m.interval, 0, 0;
    RunNext(m, i);
    while i < m.count
      invariant 0 <= i <= m.count
      invariant interval == RunInterval(m, i) && p == At(m.interval, m.add, i)
      invariant Fits(pts, maxError, m.interval, m.add, i)
      invariant forall j :: 0 <= j < i ==> IntervalOk(m, j)
    {
      RunNext(m, i);
      p := p + interval;
      if p < MinP(pts, maxError, i) || p > MaxP(pts, i) {
        assert !InWindow(pts, maxError, m.interval, m.add, i + 1);
        return false;
      }
      if interval < 0 || interval >= 0x8000_0000 {  // as uint32_t
        assert !IntervalOk(m, i);
        return false;
      }
      assert InWindow(pts, maxError, m.interval, m.add, i + 1);
      interval := interval + m.add;
      i := i + 1;
    }
    return true;
  }

  // The outer bounds of the search always allow the first step.
  predicate OuterOk(pts: seq<int>, maxError: nat, lo: int, hi: int) {
    |pts| > 0 && MinP(pts, maxError, 0) <= lo <= hi <= MaxP(pts, 0)
  }

  // Every interval in [lo, hi] makes the first n steps fit, and no other of [outerLo, outerHi].
  ghost predicate Exact(pts: seq<int>, maxError: nat, add: int, outerLo: int, outerHi: int, lo: int, hi: int, n: nat) {
    forall i :: outerLo <= i <= outerHi ==> (lo <= i <= hi <==> Fits(pts, maxError, i, add, n))
  }

  // One tightening of an interval bound, from the window of step n + 1.
  lemma Tighten(pts: seq<int>, maxError: nat, add: int, outerLo: int, outerHi: int, lo: int, hi: int, n: nat,
                lo': int, hi': int)
    requires n < |pts| && Exact(pts, maxError, add, outerLo, outerHi, lo, hi, n)
    requires var low := MinP(pts, maxError, n) - add * Tri(n + 1);
      lo' == if lo * (n + 1) < low then IdivUp(low, n + 1) else lo
    requires var high := MaxP(pts, n) - add * Tri(n + 1);
      hi' == if hi * (n + 1) > high then IdivDown(high, n + 1) else hi
    ensures lo <= lo' && hi' <= hi
    ensures Exact(pts, maxError, add, outerLo, outerHi, lo', hi', n + 1)
  {
    var low, high := MinP(pts, maxError, n) - add * Tri(n + 1), MaxP(pts, n) - add * Tri(n + 1);
    ScaleUp(lo, lo, low, n + 1);
    ScaleDown(hi, hi, high, n + 1);
    forall i {:trigger Fits(pts, maxError, i, add, n + 1)} | outerLo <= i <= outerHi
      ensures lo' <= i <= hi' <==> Fits(pts, maxError, i, add, n + 1)
    {
      ScaleUp(i, lo, low, n + 1);
      ScaleDown(i, hi, high, n + 1);
      assert At(i, add, n + 1) == i * (n + 1) + add * Tri(n + 1);
      assert Fits(pts, maxError, i, add, n + 1) <==>
        Fits(pts, maxError, i, add, n) && InWindow(pts, maxError, i, add, n + 1);
    }
  }

  lemma MulMono(a: int, b: int, d: int)
    requires d > 0
    ensures a <= b ==> a * d <= b * d
  {
  }

  lemma ScaleUp(i: int, lo: int, low: int, d: int)
    requires d > 0
    ensures lo * d < low ==> lo < IdivUp(low, d)
    ensures (if lo * d < low then IdivUp(low, d) else lo) <= i <==> lo <= i && low <= i * d
  {
    var r := IdivUp(low, d);
    MulMono(r, lo, d);
    MulMono(r, i, d);
    MulMono(i, r - 1, d);
    MulMono(lo, i, d);
  }

  lemma ScaleDown(i: int, hi: int, high: int, d: int)
    requires d > 0
    ensures hi * d > high ==> IdivDown(high, d) < hi
    ensures i <= (if hi * d > high then IdivDown(high, d) else hi) <==> i <= hi && i * d <= high
  {
    var r := IdivDown(high, d);
    hide IdivDown;
    MulMono(hi, r, d);
    MulMono(i, r, d);
    MulMono(r + 1, i, d);
    MulMono(i, hi, d);
  }

  // The bounds for step n + 1, from the exact bounds for the first n.
  predicate AreCrossed(pts: seq<int>, maxError: nat, add: int, n: nat, lo: int, hi: int, lo': int, hi': int) {
    && n < |pts| && lo' > hi'
    && (var low := MinP(pts, maxError, n) - add * Tri(n + 1);
        lo' == if lo * (n + 1) < low then IdivUp(low, n + 1) else lo)
    && var high := MaxP(pts, n) - add * Tri(n + 1);
      hi' == if hi * (n + 1) > high then IdivDown(high, n + 1) else hi
  }

  ghost predicate Crossed(pts: seq<int>, maxError: nat, add: int, outerLo: int, outerHi: int, n: nat, hi: int,
                          lo': int, hi': int) {
    exists lo :: outerLo <= lo <= hi && Exact(pts, maxError, add, outerLo, outerHi, lo, hi, n)
      && AreCrossed(pts, maxError, add, n, lo, hi, lo', hi')
  }

  // The inner loop of compress_bisect_add: the longest sequence with the given add whose
  // interval lies between the outer bounds.  When it stops early, lo and hi are the crossed
  // bounds for the step that could not be covered.
  method Longest(pts: seq<int>, maxError: nat, limit: nat, add: int, outerLo: int, outerHi: int)
    returns (full: bool, count: nat, interval: int, lo: int, hi: int)
    requires Rising(pts) && 0 < limit <= |pts| && OuterOk(pts, maxError, outerLo, outerHi)
    ensures 1 <= count <= limit && (full <==> count == limit)
    ensures outerLo <= interval <= outerHi && Fits(pts, maxError, interval, add, count)
    ensures forall i :: outerLo <= i <= outerHi && Fits(pts, maxError, i, add, count) ==> i <= interval
    ensures !full ==> outerLo <= lo && hi <= outerHi
    ensures !full ==> Crossed(pts, maxError, add, outerLo, outerHi, count, interval, lo, hi)
    ensures !full && At(interval, add, count + 1) < MinP(pts, maxError, count) ==> hi == interval
    ensures !full && At(interval, add, count + 1) >= MinP(pts, maxError, count) ==> lo <= interval
    ensures forall i: int, n: nat :: outerLo <= i <= outerHi && n <= limit && Fits(pts, maxError, i, add, n) ==>
      n <= count
  {
    hide MinP, MaxP, Tri, Fits;
    lo, hi, interval := outerLo, outerHi, outerHi;
    var nextCount := 1;
    FirstExact(pts, maxError, add, outerLo, outerHi);
    while true
      invariant 1 <= nextCount <= limit
      invariant outerLo <= lo <= hi <= outerHi && interval == hi
      invariant Exact(pts, maxError, add, outerLo, outerHi, lo, hi, nextCount)
      decreases limit - nextCount
    {
      nextCount := nextCount + 1;
      if nextCount - 1 >= limit {
        return true, nextCount - 1, interval, lo, hi;
      }
      ghost var n, lo0, hi0 := nextCount - 1, lo, hi;
      assert Fits(pts, maxError, interval, add, n);
      var c := add * Tri(nextCount);
      if lo * nextCount < MinP(pts, maxError, nextCount - 1) - c {
        lo := IdivUp(MinP(pts, maxError, nextCount - 1) - c, nextCount);
      }
      if hi * nextCount > MaxP(pts, nextCount - 1) - c {
        hi := IdivDown(MaxP(pts, nextCount - 1) - c, nextCount);
      }
      Tighten(pts, maxError, add, outerLo, outerHi, lo0, hi0, n, lo, hi);
      if lo > hi {
        Windows(pts, maxError, n);
        ScaleUp(interval, lo0, MinP(pts, maxError, n) - c, nextCount);
        assert AreCrossed(pts, maxError, add, n, lo0, interval, lo, hi);
        ShorterFits(pts, maxError, add, outerLo, outerHi, lo, hi, limit, n);
        return false, nextCount - 1, interval, lo, hi;
      }
      interval := hi;
    }
  }

  lemma FirstExact(pts: seq<int>, maxError: nat, add: int, lo: int, hi: int)
    requires OuterOk(pts, maxError, lo, hi)
    ensures Exact(pts, maxError, add, lo, hi, lo, hi, 1)
  {
    forall i | lo <= i <= hi ensures Fits(pts, maxError, i, add, 1) {
      AtNext(i, add, 0);
    }
  }

  lemma ShorterFits(pts: seq<int>, maxError: nat, add: int, outerLo: int, outerHi: int, lo: int, hi: int, limit: nat,
                    count: nat)
    requires Exact(pts, maxError, add, outerLo, outerHi, lo, hi, count + 1) && lo > hi
    ensures forall i: int, n: nat :: outerLo <= i <= outerHi && n <= limit && Fits(pts, maxError, i, add, n) ==>
      n <= count
  {
    forall i: int, n: nat | outerLo <= i <= outerHi && n <= limit && Fits(pts, maxError, i, add, n)
      ensures n <= count
    {
      assert n > count ==> Fits(pts, maxError, i, add, count + 1);
    }
  }

  // A usable result: the first m.count steps fit and at most limit steps are covered.
  predicate Covers(pts: seq<int>, maxError: nat, limit: nat, m: StepMove) {
    1 <= m.count <= limit && -0x8000 <= m.add <= 0x7fff && Fits(pts, maxError, m.interval, m.add, m.count)
  }

  // No sequence of constant speed (add = 0) covers more than `count` steps.
  ghost predicate BeatsConstant(pts: seq<int>, maxError: nat, limit: nat, count: nat) {
    forall i: int, n: nat :: n <= limit && Fits(pts, maxError, i, 0, n) ==> n <= count
  }

  // At constant speed the first step decides the interval, so the search bounds lose nothing.
  lemma ConstantStarts(pts: seq<int>, maxError: nat, limit: nat, count: nat)
    requires |pts| > 0 && limit <= |pts|
    requires forall i: int, n: nat ::
      (MinP(pts, maxError, 0) <= i <= MaxP(pts, 0) && n <= limit && Fits(pts, maxError, i, 0, n)) ==> n <= count
    ensures BeatsConstant(pts, maxError, limit, count)
  {
    forall i: int, n: nat | n <= limit && Fits(pts, maxError, i, 0, n) ensures n <= count {
      if n > 0 {
        AtNext(i, 0, 0);
        assert InWindow(pts, maxError, i, 0, 1);
      }
    }
  }

  /* ----- The search over add ----- */

  // One round of the search: the bounds it starts with, the sequence it finds and the crossed bounds
  // of the step that could not be covered.
  datatype Round = Round(
    outerMin: int, outerMax: int, minAdd: int, maxAdd: int, m: StepMove, nextMin: int, nextMax: int)

  function Reach(m: StepMove): int
    requires m.count >= 0
  {
    At(m.interval, m.add, m.count)
  }

  // The least add with which the next step is not too early, and the greatest with which it is not late.
  function LeastAdd(pts: seq<int>, maxError: nat, n: nat, minAdd: int, outerMax: int): (r: int)
    requires 2 <= n <= |pts|
    ensures minAdd <= r
  {
    var low := MinP(pts, maxError, n - 1) - outerMax * n;
    ScaleUp(minAdd, minAdd, low, Tri(n));
    if minAdd * Tri(n) < low then IdivUp(low, Tri(n)) else minAdd
  }

  function GreatestAdd(pts: seq<int>, n: nat, maxAdd: int, outerMin: int): (r: int)
    requires 2 <= n <= |pts|
    ensures r <= maxAdd
  {
    var high := MaxP(pts, n - 1) - outerMin * n;
    ScaleDown(maxAdd, maxAdd, high, Tri(n));
    if maxAdd * Tri(n) > high then IdivDown(high, Tri(n)) else maxAdd
  }

  // The maximum deviation between two quadratic sequences.
  function Deviation(maxError: nat, count: nat): nat
    requires count > 1
  {
    maxError * QUADRATIC_DEV / (count * count)
  }

  // What the search goes on with: the next step was too early, or late, so that only greater, or
  // smaller, adds remain; then less of them, as far as the two other tests tell.
  function Narrowed(pts: seq<int>, maxError: nat, r: Round): (int, int, int, int)
    requires 1 <= r.m.count < |pts|
  {
    var n, add := r.m.count, r.m.add;
    var early := At(r.m.interval, add, n + 1) < MinP(pts, maxError, n);
    var outerMin, outerMax := if early then r.outerMin else r.nextMin, if early then r.nextMax else r.outerMax;
    var lo, hi := if early then add + 1 else r.minAdd, if early then r.maxAdd else add - 1;
    var lo1 := if n > 1 then IMax(lo, add - Deviation(maxError, n)) else lo;
    var hi1 := if n > 1 then IMin(hi, add + Deviation(maxError, n)) else hi;
    (outerMin, outerMax, LeastAdd(pts, maxError, n + 1, lo1, outerMax), GreatestAdd(pts, n + 1, hi1, outerMin))
  }

  function Bisected(minAdd: int, maxAdd: int): int { maxAdd - (maxAdd - minAdd) / 4 }

  // The round finds the longest sequence for its add between its bounds.
  ghost predicate Found(pts: seq<int>, maxError: nat, limit: nat, r: Round) {
    && r.m.count <= |pts| && Covers(pts, maxError, limit, r.m) && r.outerMin <= r.m.interval <= r.outerMax
    && (forall i: int, n: nat ::
          r.outerMin <= i <= r.outerMax && n <= limit && Fits(pts, maxError, i, r.m.add, n) ==> n <= r.m.count)
    && (r.m.count < limit ==>
          Crossed(pts, maxError, r.m.add, r.outerMin, r.outerMax, r.m.count, r.m.interval, r.nextMin, r.nextMax))
  }

  predicate Begins(pts: seq<int>, maxError: nat, r: Round)
    requires |pts| > 0
  {
    && (r.outerMin, r.outerMax, r.minAdd, r.maxAdd) == (MinP(pts, maxError, 0), MaxP(pts, 0), -0x8000, 0x7fff)
    && r.m.add == 0
  }

  predicate Continues(pts: seq<int>, maxError: nat, r: Round, s: Round) {
    && 1 <= r.m.count < |pts| && (s.outerMin, s.outerMax, s.minAdd, s.maxAdd) == Narrowed(pts, maxError, r)
    && s.minAdd <= s.maxAdd && s.m.add == Bisected(s.minAdd, s.maxAdd)
  }

  // The search so far.
  ghost predicate Searched(pts: seq<int>, maxError: nat, limit: nat, rounds: seq<Round>)
    requires |pts| > 0
  {
    && (rounds != [] ==> Begins(pts, maxError, rounds[0]))
    && (forall i :: 0 <= i < |rounds| ==> Found(pts, maxError, limit, rounds[i]))
    && forall i :: 0 < i < |rounds| ==> Continues(pts, maxError, rounds[i-1], rounds[i])
  }

  // It ends when everything is covered, when a sequence is so long that no add will improve it, or when
  // no add is left to try.
  ghost predicate Ended(pts: seq<int>, maxError: nat, limit: nat, rounds: seq<Round>)
    requires |pts| > 0 && rounds != [] && Searched(pts, maxError, limit, rounds)
  {
    var r := rounds[|rounds| - 1];
    || r.m.count == limit || (r.m.count > 0x200 && Furthest(rounds, r.m))
    || (r.m.count < |pts| && Narrowed(pts, maxError, r).2 > Narrowed(pts, maxError, r).3)
  }

  // No round reaches further.
  ghost predicate Furthest(rounds: seq<Round>, m: StepMove) {
    m.count >= 0 && forall r :: r in rounds ==> r.m.count >= 0 && Reach(r.m) <= Reach(m)
  }

  // What the next round begins with.
  predicate Next(pts: seq<int>, maxError: nat, rounds: seq<Round>, outerMin: int, outerMax: int,
                 minAdd: int, maxAdd: int, add: int)
    requires |pts| > 0
  {
    if rounds == [] then
      (outerMin, outerMax, minAdd, maxAdd) == (MinP(pts, maxError, 0), MaxP(pts, 0), -0x8000, 0x7fff) && add == 0
    else
      var r := rounds[|rounds| - 1];
      && 1 <= r.m.count < |pts| && (outerMin, outerMax, minAdd, maxAdd) == Narrowed(pts, maxError, r)
      && minAdd <= maxAdd && add == Bisected(minAdd, maxAdd)
  }

  lemma RoundAdded(pts: seq<int>, maxError: nat, limit: nat, rounds: seq<Round>, r: Round)
    requires |pts| > 0 && Searched(pts, maxError, limit, rounds) && Found(pts, maxError, limit, r)
    requires Next(pts, maxError, rounds, r.outerMin, r.outerMax, r.minAdd, r.maxAdd, r.m.add)
    ensures Searched(pts, maxError, limit, rounds + [r])
  {
    hide Found, Narrowed;
  }

  lemma FurthestNext(rounds: seq<Round>, best: StepMove, r: Round)
    requires rounds != [] ==> Furthest(rounds, best)
    requires r.m.count >= 0 && best.count >= 0
    ensures rounds == [] || Reach(r.m) >= Reach(best) ==> Furthest(rounds + [r], r.m)
    ensures rounds != [] && Reach(r.m) <= Reach(best) ==> Furthest(rounds + [r], best)
  {
    hide Reach;
  }

  // What reaches further covers more steps, because the windows of the steps are in order.
  lemma FurtherCoversMore(pts: seq<int>, maxError: nat, limit: nat, a: StepMove, b: StepMove)
    requires Rising(pts) && Covers(pts, maxError, limit, a) && Covers(pts, maxError, limit, b)
    requires a.count >= 1 && b.count >= 1 && Reach(a) <= Reach(b)
    ensures a.count <= b.count
  {
    hide MinP;
    assert InWindow(pts, maxError, a.interval, a.add, a.count) && InWindow(pts, maxError, b.interval, b.add, b.count);
    Windows(pts, maxError, a.count - 1);
  }

  // No round found a sequence that is longer by more than a sixteenth.
  ghost predicate NearlyBest(rounds: seq<Round>, count: int) {
    forall r :: r in rounds ==> 16 * r.m.count <= 17 * count
  }

  lemma FurthestIsLongest(pts: seq<int>, maxError: nat, limit: nat, rounds: seq<Round>, best: StepMove)
    requires Rising(pts) && |pts| > 0 && Searched(pts, maxError, limit, rounds) && Furthest(rounds, best)
    requires Covers(pts, maxError, limit, best)
    ensures forall r :: r in rounds ==> r.m.count <= best.count
  {
    hide Fits, Begins, Continues, Reach;
    forall r | r in rounds ensures r.m.count <= best.count {
      var i :| 0 <= i < |rounds| && rounds[i] == r;
      assert Found(pts, maxError, limit, rounds[i]);
      FurtherCoversMore(pts, maxError, limit, r.m, best);
    }
  }

  // compress_bisect_add: whatever it returns passes check_line, covers at least as many steps as any
  // sequence without acceleration, and nearly as many as the longest that the search found.
  method CompressBisectAdd(pts: seq<int>, maxError: nat) returns (m: StepMove, ghost rounds: seq<Round>)
    requires Rising(pts) && |pts| > 0
    ensures LineOk(pts, maxError, m) && m.interval > 0
    ensures m.count <= MAX_COUNT && -0x8000 <= m.add <= 0x7fff
    ensures var limit := IMin(|pts|, MAX_COUNT);
      && BeatsConstant(pts, maxError, limit, m.count)
      && rounds != [] && Searched(pts, maxError, limit, rounds) && Ended(pts, maxError, limit, rounds)
      && NearlyBest(rounds, m.count)
  {
    hide At, MinP, Tri, LineOk, BeatsConstant, Fits, Found, Begins, Continues, Narrowed, Searched, Furthest, NearlyBest;
    hide Crossed, LeastAdd, GreatestAdd, Next, Deviation, Ended, Reach;
    FirstRound(pts, maxError);
    var limit := IMin(|pts|, MAX_COUNT);
    Windows(pts, maxError, 0);
    var outerMin, outerMax := MinP(pts, maxError, 0), MaxP(pts, 0);
    var add, minAdd, maxAdd := 0, -0x8000, 0x7fff;
    var best := StepMove(0, 1, 1);
    var bestReach := INT32_MIN;
    var zeroInterval, zeroCount := 0, 0;
    rounds := [];
    NothingSearched(pts, maxError, limit);
    while true
      invariant OuterOk(pts, maxError, outerMin, outerMax) && best.count >= 1
      invariant zeroCount == 0 ==> outerMin == MinP(pts, maxError, 0) && outerMax == MaxP(pts, 0)
      invariant -0x8000 <= minAdd <= add <= maxAdd <= 0x7fff
      invariant zeroCount == 0 ==> add == 0 && bestReach == INT32_MIN
      invariant zeroCount != 0 ==>
        && Covers(pts, maxError, limit, best) && bestReach == Reach(best) && Furthest(rounds, best)
        && Covers(pts, maxError, limit, StepMove(zeroInterval, zeroCount, 0))
        && BeatsConstant(pts, maxError, limit, zeroCount)
        && !(minAdd <= 0 <= maxAdd)
      invariant Searched(pts, maxError, limit, rounds) && (rounds == [] <==> zeroCount == 0)
      invariant Next(pts, maxError, rounds, outerMin, outerMax, minAdd, maxAdd, add)
      decreases maxAdd - minAdd
    {
      var full, count, interval, nextMin, nextMax := Longest(pts, maxError, limit, add, outerMin, outerMax);
      if zeroCount == 0 {
        ConstantStarts(pts, maxError, limit, count);
      }
      m := StepMove(interval, count, add);
      ghost var r := Round(outerMin, outerMax, minAdd, maxAdd, m, nextMin, nextMax);
      RoundFound(pts, maxError, limit, r, full);
      RoundAdded(pts, maxError, limit, rounds, r);
      FurthestNext(rounds, best, r);
      rounds := rounds + [r];
      EndsHere(pts, maxError, limit, rounds, r);
      ReachIs(m);
      if full {
        FullBeats(pts, maxError, limit);
        FitsIsOk(pts, maxError, m);
        FullIsLongest(pts, maxError, limit, rounds);
        return;
      }
      var reach := At(interval, add, count);
      ReachPositive(pts, maxError, m);
      if reach > bestReach || (reach == bestReach && interval > best.interval) {
        best, bestReach := m, reach;
        if add == 0 {
          zeroInterval, zeroCount := interval, count;
        }
        if count > 0x200 {
          break;
        }
      }
      var nextCount := count + 1;
      if At(interval, add, nextCount) < MinP(pts, maxError, nextCount - 1) {
        minAdd := add + 1;
        outerMax := nextMax;
      } else {
        maxAdd := add - 1;
        outerMin := nextMin;
      }
      if count > 1 {
        var errDelta := Deviation(maxError, count);
        minAdd := IMax(minAdd, add - errDelta);
        maxAdd := IMin(maxAdd, add + errDelta);
      }
      minAdd := LeastAdd(pts, maxError, nextCount, minAdd, outerMax);
      maxAdd := GreatestAdd(pts, nextCount, maxAdd, outerMin);
      NarrowedIs(pts, maxError, rounds, r, outerMin, outerMax, minAdd, maxAdd);
      if minAdd > maxAdd {
        break;
      }
      add := maxAdd - (maxAdd - minAdd) / 4;
    }
    FurthestIsLongest(pts, maxError, limit, rounds, best);
    if zeroCount + zeroCount / 16 >= best.count {
      m := StepMove(zeroInterval, zeroCount, 0);
    } else {
      m := best;
      StillBeats(pts, maxError, limit, zeroCount, best.count);
    }
    IsNearlyBest(rounds, best.count, m.count);
    FitsIsOk(pts, maxError, m);
  }

  lemma FirstRound(pts: seq<int>, maxError: nat)
    requires |pts| > 0
    ensures Next(pts, maxError, [], MinP(pts, maxError, 0), MaxP(pts, 0), -0x8000, 0x7fff, 0)
  {
  }

  lemma ReachIs(m: StepMove)
    requires m.count >= 0
    ensures Reach(m) == At(m.interval, m.add, m.count)
  {
  }

  lemma EndsHere(pts: seq<int>, maxError: nat, limit: nat, rounds: seq<Round>, r: Round)
    requires |pts| > 0 && rounds != [] && rounds[|rounds| - 1] == r && Searched(pts, maxError, limit, rounds)
    ensures r.m.count == limit ==> Ended(pts, maxError, limit, rounds)
    ensures r.m.count > 0x200 && Furthest(rounds, r.m) ==> Ended(pts, maxError, limit, rounds)
    ensures 1 <= r.m.count < |pts| && Narrowed(pts, maxError, r).2 > Narrowed(pts, maxError, r).3 ==>
      Ended(pts, maxError, limit, rounds)
  {
    hide Narrowed, Furthest, Found, Begins, Continues;
    assert Found(pts, maxError, limit, r);
  }

  lemma NothingSearched(pts: seq<int>, maxError: nat, limit: nat)
    requires |pts| > 0
    ensures Searched(pts, maxError, limit, [])
  {
  }

  lemma RoundFound(pts: seq<int>, maxError: nat, limit: nat, r: Round, full: bool)
    requires |pts| > 0 && limit <= |pts| && Covers(pts, maxError, limit, r.m) && (full <==> r.m.count == limit)
    requires r.outerMin <= r.m.interval <= r.outerMax
    requires forall i: int, n: nat ::
      (r.outerMin <= i <= r.outerMax && n <= limit && Fits(pts, maxError, i, r.m.add, n)) ==> n <= r.m.count
    requires !full ==>
      Crossed(pts, maxError, r.m.add, r.outerMin, r.outerMax, r.m.count, r.m.interval, r.nextMin, r.nextMax)
    ensures Found(pts, maxError, limit, r)
  {
    hide Fits, Crossed;
  }

  lemma NarrowedIs(pts: seq<int>, maxError: nat, rounds: seq<Round>, r: Round, outerMin: int, outerMax: int,
                   minAdd: int, maxAdd: int)
    requires rounds != [] && rounds[|rounds| - 1] == r && 1 <= r.m.count < |pts|
    requires var n, add := r.m.count, r.m.add;
      var early := At(r.m.interval, add, n + 1) < MinP(pts, maxError, n);
      var lo, hi := if early then add + 1 else r.minAdd, if early then r.maxAdd else add - 1;
      && outerMin == (if early then r.outerMin else r.nextMin) && outerMax == (if early then r.nextMax else r.outerMax)
      && (var lo1 := if n > 1 then IMax(lo, add - Deviation(maxError, n)) else lo;
          minAdd == LeastAdd(pts, maxError, n + 1, lo1, outerMax))
      && var hi1 := if n > 1 then IMin(hi, add + Deviation(maxError, n)) else hi;
        maxAdd == GreatestAdd(pts, n + 1, hi1, outerMin)
    ensures Narrowed(pts, maxError, r) == (outerMin, outerMax, minAdd, maxAdd)
    ensures minAdd <= maxAdd ==>
      Next(pts, maxError, rounds, outerMin, outerMax, minAdd, maxAdd, Bisected(minAdd, maxAdd))
  {
    hide LeastAdd, GreatestAdd, At, MinP, Deviation;
  }

  lemma FullIsLongest(pts: seq<int>, maxError: nat, limit: nat, rounds: seq<Round>)
    requires |pts| > 0 && Searched(pts, maxError, limit, rounds)
    ensures NearlyBest(rounds, limit)
  {
    hide Begins, Continues, Fits, Crossed;
    forall r | r in rounds ensures 16 * r.m.count <= 17 * limit {
      var i :| 0 <= i < |rounds| && rounds[i] == r;
      assert Found(pts, maxError, limit, rounds[i]);
    }
  }

  lemma IsNearlyBest(rounds: seq<Round>, best: int, count: int)
    requires (forall r :: r in rounds ==> r.m.count <= best) && 0 <= count && count + count / 16 >= best
    ensures NearlyBest(rounds, count)
  {
  }

  lemma FullBeats(pts: seq<int>, maxError: nat, limit: nat)
    ensures BeatsConstant(pts, maxError, limit, limit)
  {
  }

  lemma StillBeats(pts: seq<int>, maxError: nat, limit: nat, count: nat, more: nat)
    requires BeatsConstant(pts, maxError, limit, count) && count <= more
    ensures BeatsConstant(pts, maxError, limit, more)
  {
  }

  lemma ReachPositive(pts: seq<int>, maxError: nat, m: StepMove)
    requires Rising(pts) && m.count > 0 && Fits(pts, maxError, m.interval, m.add, m.count)
    ensures At(m.interval, m.add, m.count) > 0
  {
    Windows(pts, maxError, m.count - 1);
    assert InWindow(pts, maxError, m.interval, m.add, m.count);
  }
}
