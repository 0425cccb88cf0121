/**
 What the search over `add` in compress_bisect_add (stepcompress.c) can miss: where it goes on after a
 round that failed, in terms of the sequences that cover the step that could not be covered.
 */
module BisectSearch {
  import opened Basics
  import opened StepBisect

  // A step may be early by maxError and by half the distance to the step before, and never late.
  lemma WindowIs(pts: seq<int>, maxError: nat, k: nat, t: int)
    requires Rising(pts) && k < |pts|
    ensures var prev := if k > 0 then pts[k-1] else 0;
      MinP(pts, maxError, k) <= t <= MaxP(pts, k) <==>
        t <= pts[k] && pts[k] - t <= maxError && 2 * (pts[k] - t) <= pts[k] - prev
  {
  }

  /* ----- Two sequences ----- */

  lemma AtMinus(i: int, a: int, i': int, a': int, k: nat)
    ensures At(i, a, k) - At(i', a', k) == (i - i') * k - (a' - a) * Tri(k)
  {
    assert (i - i') * k == i * k - i' * k;
    assert (a' - a) * Tri(k) == a' * Tri(k) - a * Tri(k);
  }

  // A larger interval with a smaller add that falls behind by step k is at least one interval behind later.
  lemma FallsBehind(x: int, d: int, k: nat, n: nat)
    requires 0 <= x && 1 <= k <= n && x * k < d * Tri(k)
    ensures d >= 1 && (x + 1) * (n + 1) <= d * Tri(n + 1)
  {
    Positive(x, d, k);
    Halved(x, d, k);
    MulMono(k - 1, n - 1, d);
    BehindLater(x, d, n);
  }

  lemma BehindLater(x: int, d: int, n: nat)
    requires d >= 1 && 1 <= n && 2 * x + 1 <= (n - 1) * d
    ensures (x + 1) * (n + 1) <= d * Tri(n + 1)
  {
    TwiceTri(n + 1);
    assert n * d == (n - 1) * d + d;
    MulMono(2 * (x + 1), n * d, n + 1);
    Twice(x + 1, n + 1);
    Thrice(n, d, n + 1, Tri(n + 1));
  }

  lemma Twice(a: int, b: int)
    ensures 2 * a * b == 2 * (a * b)
  {
  }

  lemma Thrice(n: int, d: int, m: int, t: int)
    requires 2 * t == m * n
    ensures n * d * m == 2 * (d * t)
  {
    assert n * d * m == d * (m * n);
    assert d * (2 * t) == 2 * (d * t);
  }

  lemma TwiceTri(k: nat)
    ensures 2 * Tri(k) == k * (k - 1)
  {
    TriIs(k);
  }

  lemma NonNegative(a: int, b: int)
    requires a >= 0 && b >= 0
    ensures a * b >= 0
  {
  }

  lemma Positive(x: int, d: int, k: nat)
    requires 0 <= x && x * k < d * Tri(k)
    ensures d >= 1
  {
    NonNegative(x, k);
    if d <= 0 {
      NonNegative(-d, Tri(k));
    }
  }

  lemma Halved(x: int, d: int, k: nat)
    requires 1 <= k && x * k < d * Tri(k)
    ensures 2 * x + 1 <= (k - 1) * d
  {
    TwiceTri(k);
    Thrice(k - 1, d, k, Tri(k));
    Twice(x, k);
    MulMono((k - 1) * d, 2 * x, k);
  }

  lemma AtMono(i: int, a: int, i': int, a': int, k: nat)
    requires i <= i' && a <= a'
    ensures At(i, a, k) <= At(i', a', k)
  {
    AtMinus(i, a, i', a', k);
    NonNegative(i' - i, k);
    NonNegative(a' - a, Tri(k));
    assert (i - i') * k == -((i' - i) * k);
  }

  lemma AtNextInterval(i: int, a: int, k: nat)
    ensures At(i + 1, a, k) == At(i, a, k) + k
  {
  }

  lemma MissesAt(pts: seq<int>, maxError: nat, i: int, a: int, n: nat) returns (k: nat)
    requires n <= |pts| && !Fits(pts, maxError, i, a, n)
    ensures 1 <= k <= n && !InWindow(pts, maxError, i, a, k)
  {
    k :| 1 <= k <= n && !InWindow(pts, maxError, i, a, k);
  }

  lemma FitsAt(pts: seq<int>, maxError: nat, i: int, a: int, n: nat, k: nat)
    requires Fits(pts, maxError, i, a, n) && 1 <= k <= n
    ensures n <= |pts| && MinP(pts, maxError, k - 1) <= At(i, a, k) <= MaxP(pts, k - 1)
  {
    assert InWindow(pts, maxError, i, a, k);
  }

  // The interval above the greatest that fits is late at some step.
  lemma TooLate(pts: seq<int>, maxError: nat, add: int, outerLo: int, outerHi: int, lo: int, hi: int, n: nat)
    returns (k: nat)
    requires Exact(pts, maxError, add, outerLo, outerHi, lo, hi, n) && n <= |pts| && Fits(pts, maxError, hi, add, n)
    requires outerLo <= hi < outerHi
    ensures 1 <= k <= n && At(hi + 1, add, k) > MaxP(pts, k - 1)
  {
    hide At, MinP, MaxP, Fits;
    k := MissesAt(pts, maxError, hi + 1, add, n);
    FitsAt(pts, maxError, hi, add, n, k);
    AtNextInterval(hi, add, k);
  }

  // The interval below the least that fits is early at some step.
  lemma TooEarly(pts: seq<int>, maxError: nat, add: int, outerLo: int, outerHi: int, lo: int, hi: int, n: nat)
    returns (k: nat)
    requires Exact(pts, maxError, add, outerLo, outerHi, lo, hi, n) && n <= |pts| && Fits(pts, maxError, lo, add, n)
    requires outerLo < lo <= hi && lo - 1 <= outerHi
    ensures 1 <= k <= n && At(lo - 1, add, k) < MinP(pts, maxError, k - 1)
  {
    hide At, MinP, MaxP, Fits;
    k := MissesAt(pts, maxError, lo - 1, add, n);
    FitsAt(pts, maxError, lo, add, n, k);
    AtNextInterval(lo - 1, add, k);
  }

  /* ----- How far two sequences can deviate ----- */

  // Two sequences that cover the same steps are never further apart than a window is wide.
  lemma Apart(pts: seq<int>, maxError: nat, i: int, a: int, i': int, a': int, n: nat, k: nat)
    requires Rising(pts) && Fits(pts, maxError, i, a, n) && Fits(pts, maxError, i', a', n) && 1 <= k <= n
    ensures 0 - maxError <= (i - i') * k + (a - a') * Tri(k) <= maxError
  {
    hide At, MinP, MaxP, Fits, Tri;
    FitsAt(pts, maxError, i, a, n, k);
    FitsAt(pts, maxError, i', a', n, k);
    Windows(pts, maxError, k - 1);
    AtMinus(i, a, i', a', k);
    assert (a' - a) * Tri(k) == -((a - a') * Tri(k));
  }

  // Taking the interval out of what two steps say about them.
  lemma WithoutInterval(d: int, e: int, tn: int, tm: int, n: nat, m: nat, x: int, y: int)
    requires 2 * tn == n * (n - 1) && 2 * tm == m * (m - 1)
    requires x == d * n + e * tn && y == d * m + e * tm
    ensures 2 * (m * x) - 2 * (n * y) == e * (n * m * (n - m))
  {
    TimesSum(m, d * n, e, tn, n * (n - 1));
    TimesSum(n, d * m, e, tm, m * (m - 1));
    assert m * (d * n) == n * (d * m);
    assert m * (n * (n - 1)) - n * (m * (m - 1)) == n * m * (n - m);
    Minus(e, m * (n * (n - 1)), n * (m * (m - 1)));
  }

  lemma TimesSum(m: int, x: int, e: int, t: int, twice: int)
    requires 2 * t == twice
    ensures 2 * (m * (x + e * t)) == 2 * (m * x) + e * (m * twice)
  {
    assert m * (x + e * t) == m * x + m * (e * t);
    assert 2 * (m * (e * t)) == e * (m * (2 * t));
  }

  lemma Minus(e: int, x: int, y: int)
    ensures e * x - e * y == e * (x - y)
  {
  }

  lemma BoundBoth(n: nat, m: nat, x: int, y: int, error: nat)
    requires x <= error && -y <= error
    ensures 2 * (m * x) - 2 * (n * y) <= 2 * error * (n + m)
  {
    NonNegative(m, error - x);
    NonNegative(n, error + y);
    assert m * (error - x) == m * error - m * x && n * (error + y) == n * error + n * y;
    assert 2 * error * (n + m) == 2 * (m * error) + 2 * (n * error);
  }

  // Half way is where the next step tells most.
  lemma HalfWay(e: int, n: nat, m: nat, error: nat)
    requires n >= 2 && m == n / 2 && e * (n * m * (n - m)) <= 2 * error * (n + m)
    ensures e * (n * n) <= 12 * error
  {
    if n == 2 * m {
      EvenHalf(e, m, error);
    } else {
      OddHalf(e, m, error);
    }
  }

  lemma EvenHalf(e: int, m: nat, error: nat)
    requires m >= 1 && e * (2 * m * m * (2 * m - m)) <= 2 * error * (2 * m + m)
    ensures e * (2 * m * (2 * m)) <= 12 * error
  {
    var q := m * m;
    assert e * (2 * m * m * (2 * m - m)) == 2 * (e * q) * m;
    assert 2 * error * (2 * m + m) == 6 * error * m;
    Cancel(2 * (e * q), 6 * error, m);
    assert e * (2 * m * (2 * m)) == 4 * (e * q);
  }

  lemma OddHalf(e: int, m: nat, error: nat)
    requires m >= 1
    requires e * ((2 * m + 1) * m * (2 * m + 1 - m)) <= 2 * error * (2 * m + 1 + m)
    ensures e * ((2 * m + 1) * (2 * m + 1)) <= 12 * error
  {
    var n, q := 2 * m + 1, m * (m + 1);
    assert n * m * (n - m) == n * q;
    OddBound(e, n, q, 2 * error * (3 * m + 1));
    OddFactor(m, error);
    Cancel(e * (n * n), 12 * error, q);
  }

  lemma OddBound(e: int, n: nat, q: nat, bound: int)
    requires n > 0 && e * (n * q) <= bound
    ensures e * (n * n) * q <= bound * n
  {
    MulMono(e * (n * q), bound, n);
    assert e * (n * q) * n == e * (n * n) * q;
  }

  lemma OddFactor(m: nat, error: nat)
    requires m >= 1
    ensures 2 * error * (3 * m + 1) * (2 * m + 1) <= 12 * error * (m * (m + 1))
  {
    var x, y := (3 * m + 1) * (2 * m + 1), 6 * (m * (m + 1));
    assert y - x == m - 1;
    NonNegative(2 * error, y - x);
    assert 2 * error * (3 * m + 1) * (2 * m + 1) == 2 * error * x;
    assert 2 * error * y == 12 * error * (m * (m + 1));
    assert 2 * error * (y - x) == 2 * error * y - 2 * error * x;
  }

  lemma Cancel(x: int, y: int, d: nat)
    requires d > 0 && x * d <= y * d
    ensures x <= y
  {
    MulMono(y + 1, x, d);
  }

  // Main theorem on deviations: sequences that cover the same n steps have adds no further apart than 12
  // times the error by n * n; the 6 + 4 * sqrt(2) that the code goes by is for steps at any time.
  lemma DeviationBound(pts: seq<int>, maxError: nat, i: int, a: int, i': int, a': int, n: nat)
    requires Rising(pts) && n >= 2 && Fits(pts, maxError, i, a, n) && Fits(pts, maxError, i', a', n)
    ensures Distance(a, a') <= maxError * 12 / (n * n)
  {
    OneSided(pts, maxError, i, a, i', a', n);
    OneSided(pts, maxError, i', a', i, a, n);
    Quotient(Distance(a, a'), maxError * 12, n * n);
  }

  lemma OneSided(pts: seq<int>, maxError: nat, i: int, a: int, i': int, a': int, n: nat)
    requires Rising(pts) && n >= 2 && Fits(pts, maxError, i, a, n) && Fits(pts, maxError, i', a', n)
    ensures (a - a') * (n * n) <= 12 * maxError
  {
    hide Fits;
    var m := n / 2;
    Apart(pts, maxError, i, a, i', a', n, n);
    Apart(pts, maxError, i, a, i', a', n, m);
    TwiceTri(n);
    TwiceTri(m);
    hide Tri;
    var d, e := i - i', a - a';
    WithoutInterval(d, e, Tri(n), Tri(m), n, m, d * n + e * Tri(n), d * m + e * Tri(m));
    BoundBoth(n, m, d * n + e * Tri(n), d * m + e * Tri(m), maxError);
    HalfWay(a - a', n, m, maxError);
  }

  lemma Quotient(x: nat, y: nat, d: nat)
    requires d > 0 && x * d <= y
    ensures x <= y / d
  {
    MulMono(y / d + 1, x, d);
  }

  /* ----- One round ----- */

  // When the greatest interval that fits comes too early at the next step, only greater adds remain.
  lemma EarlyKeeps(pts: seq<int>, maxError: nat, add: int, outerLo: int, outerHi: int, lo: int, hi: int, n: nat,
                   i: int, a: int)
    requires Exact(pts, maxError, add, outerLo, outerHi, lo, hi, n) && n < |pts|
    requires Fits(pts, maxError, hi, add, n) && outerLo <= hi
    requires outerLo <= i <= outerHi && Fits(pts, maxError, i, a, n + 1)
    requires At(hi, add, n + 1) < MinP(pts, maxError, n)
    ensures a > add && i <= hi
  {
    hide At, MinP, MaxP, Fits, Exact, Tri;
    FitsAt(pts, maxError, i, a, n + 1, n + 1);
    if i > hi {
      var k := TooLate(pts, maxError, add, outerLo, outerHi, lo, hi, n);
      FitsAt(pts, maxError, i, a, n + 1, k);
      AtMinus(i, a, hi + 1, add, k);
      FallsBehind(i - hi - 1, add - a, k, n);
      AtMinus(i, a, hi, add, n + 1);
    } else if a <= add {
      AtMono(i, a, hi, add, n + 1);
    }
  }

  // What the crossed bounds say when the greatest interval is not too early.
  lemma LateBounds(pts: seq<int>, maxError: nat, add: int, n: nat, lo: int, hi: int, lo': int, hi': int)
    requires AreCrossed(pts, maxError, add, n, lo, hi, lo', hi') && lo <= hi
    requires At(hi, add, n + 1) >= MinP(pts, maxError, n)
    ensures lo <= lo' <= hi && At(lo', add, n + 1) > MaxP(pts, n)
    ensures lo' > lo ==> At(lo' - 1, add, n + 1) < MinP(pts, maxError, n)
  {
    var c := add * Tri(n + 1);
    var low, high := MinP(pts, maxError, n) - c, MaxP(pts, n) - c;
    assert At(hi, add, n + 1) == hi * (n + 1) + c && At(lo', add, n + 1) == lo' * (n + 1) + c;
    assert At(lo' - 1, add, n + 1) == (lo' - 1) * (n + 1) + c;
    hide At, MinP, MaxP, Tri, IdivUp, IdivDown;
    ScaleUp(hi, lo, low, n + 1);
    ScaleUp(lo' - 1, lo, low, n + 1);
    ScaleDown(lo', hi, high, n + 1);
  }

  // When it is not too early, only smaller adds remain, unless the bounds crossed because no interval at
  // all hits the window with this add.
  lemma LateKeeps(pts: seq<int>, maxError: nat, add: int, outerLo: int, outerHi: int, lo: int, hi: int, n: nat,
                  lo': int, hi': int, i: int, a: int)
    requires Exact(pts, maxError, add, outerLo, outerHi, lo, hi, n)
    requires AreCrossed(pts, maxError, add, n, lo, hi, lo', hi')
    requires Fits(pts, maxError, lo, add, n) && outerLo <= lo <= hi <= outerHi
    requires outerLo <= i <= outerHi && Fits(pts, maxError, i, a, n + 1)
    requires At(hi, add, n + 1) >= MinP(pts, maxError, n)
    ensures a < add ==> i >= lo'
    ensures a >= add ==> a > add && i < lo' && lo' > lo
  {
    LateBounds(pts, maxError, add, n, lo, hi, lo', hi');
    hide At, MinP, MaxP, Fits, Exact, Tri, AreCrossed;
    FitsAt(pts, maxError, i, a, n + 1, n + 1);
    if a <= add && i < lo' {
      if lo' > lo {
        AtMono(i, a, lo' - 1, add, n + 1);
      } else {
        var k := TooEarly(pts, maxError, add, outerLo, outerHi, lo, hi, n);
        FitsAt(pts, maxError, i, a, n + 1, k);
        AtMono(i, a, lo - 1, add, k);
      }
    } else if a >= add && i >= lo' {
      AtMono(lo', add, i, a, n + 1);
    } else if a > add && lo' == lo {
      var k := TooEarly(pts, maxError, add, outerLo, outerHi, lo, hi, n);
      FitsAt(pts, maxError, i, a, n + 1, k);
      AtMinus(lo - 1, add, i, a, k);
      FallsBehind(lo - 1 - i, a - add, k, n);
      AtMinus(lo, add, i, a, n + 1);
    }
  }

  // The bounds can only cross so when the window is narrower than the number of steps.
  lemma NarrowWindow(pts: seq<int>, maxError: nat, add: int, n: nat, lo: int, hi: int, lo': int, hi': int)
    requires AreCrossed(pts, maxError, add, n, lo, hi, lo', hi') && lo <= hi && lo' > lo
    requires At(hi, add, n + 1) >= MinP(pts, maxError, n)
    ensures MaxP(pts, n) - MinP(pts, maxError, n) < n
  {
    LateBounds(pts, maxError, add, n, lo, hi, lo', hi');
    hide AreCrossed, At, MinP, MaxP;
    AtNextInterval(lo' - 1, add, n + 1);
  }

  predicate InBounds(outerMin: int, outerMax: int, minAdd: int, maxAdd: int, i: int, a: int) {
    outerMin <= i <= outerMax && minAdd <= a <= maxAdd
  }

  // The next round still has the sequence within its bounds.
  predicate Kept(pts: seq<int>, maxError: nat, r: Round, i: int, a: int)
    requires 1 <= r.m.count < |pts|
  {
    var (outerMin, outerMax, minAdd, maxAdd) := Narrowed(pts, maxError, r);
    InBounds(outerMin, outerMax, minAdd, maxAdd, i, a)
  }

  // The heuristic that limits how far the add may move.
  predicate WithinDeviation(maxError: nat, m: StepMove, a: int) {
    m.count > 1 ==> m.add - Deviation(maxError, m.count) <= a <= m.add + Deviation(maxError, m.count)
  }

  // An add that the heuristic excludes although it is no further from the one tried than sequences that
  // cover the same steps can be.
  predicate InGap(maxError: nat, m: StepMove, a: int) {
    m.count > 1 && Deviation(maxError, m.count) < Distance(m.add, a) <= maxError * 12 / (m.count * m.count)
  }

  function Distance(a: int, b: int): nat { if a < b then b - a else a - b }

  predicate ComesEarly(pts: seq<int>, maxError: nat, m: StepMove)
    requires 1 <= m.count < |pts|
  {
    At(m.interval, m.add, m.count + 1) < MinP(pts, maxError, m.count)
  }

  // The limits on add by the window of the next step exclude exactly the adds for which even the longest
  // interval comes early, or the shortest late.
  lemma AddLimitsAre(pts: seq<int>, maxError: nat, n: nat, outerMin: int, outerMax: int, minAdd: int, maxAdd: int,
                     a: int)
    requires 2 <= n <= |pts|
    ensures LeastAdd(pts, maxError, n, minAdd, outerMax) <= a <==>
      minAdd <= a && At(outerMax, a, n) >= MinP(pts, maxError, n - 1)
    ensures a <= GreatestAdd(pts, n, maxAdd, outerMin) <==> a <= maxAdd && At(outerMin, a, n) <= MaxP(pts, n - 1)
  {
    assert At(outerMax, a, n) == outerMax * n + a * Tri(n) && At(outerMin, a, n) == outerMin * n + a * Tri(n);
    hide At, MinP, MaxP, Tri, IdivUp, IdivDown;
    ScaleUp(a, minAdd, MinP(pts, maxError, n - 1) - outerMax * n, Tri(n));
    ScaleDown(a, maxAdd, MaxP(pts, n - 1) - outerMin * n, Tri(n));
  }

  // The limits on add by the window of the next step exclude only what misses it.
  lemma AddLimitsLoseNothing(pts: seq<int>, maxError: nat, n: nat, outerMin: int, outerMax: int,
                             minAdd: int, maxAdd: int, i: int, a: int)
    requires 2 <= n <= |pts| && InBounds(outerMin, outerMax, minAdd, maxAdd, i, a)
    requires InWindow(pts, maxError, i, a, n)
    ensures LeastAdd(pts, maxError, n, minAdd, outerMax) <= a <= GreatestAdd(pts, n, maxAdd, outerMin)
  {
    MulMono(i, outerMax, n);
    MulMono(outerMin, i, n);
    assert At(i, a, n) == i * n + a * Tri(n);
    assert At(outerMax, a, n) == outerMax * n + a * Tri(n) && At(outerMin, a, n) == outerMin * n + a * Tri(n);
    hide At, MinP, MaxP, Tri;
    AddLimitsAre(pts, maxError, n, outerMin, outerMax, minAdd, maxAdd, a);
  }

  // Main theorem on one round: a sequence within its bounds that covers one step more stays within the
  // bounds, if it is within the deviation, and except exactly when it has a greater add although the
  // round did not come early.  That needs a window narrower than the number of steps.
  lemma RoundKeeps(pts: seq<int>, maxError: nat, limit: nat, r: Round, i: int, a: int)
    requires Rising(pts) && limit <= |pts| && Found(pts, maxError, limit, r) && r.m.count < limit
    requires InBounds(r.outerMin, r.outerMax, r.minAdd, r.maxAdd, i, a) && WithinDeviation(maxError, r.m, a)
    requires Fits(pts, maxError, i, a, r.m.count + 1)
    ensures Kept(pts, maxError, r, i, a) <==> ComesEarly(pts, maxError, r.m) || a < r.m.add
    ensures !Kept(pts, maxError, r, i, a) ==> MaxP(pts, r.m.count) - MinP(pts, maxError, r.m.count) < r.m.count
  {
    var n, add, hi := r.m.count, r.m.add, r.m.interval;
    var lo := CrossedFrom(pts, maxError, limit, r);
    hide Exact, AreCrossed, Fits, At, MinP, MaxP, Found, Kept, InBounds, WithinDeviation;
    Crossing(pts, maxError, add, n, lo, hi, r.nextMin, r.nextMax);
    if ComesEarly(pts, maxError, r.m) {
      EarlyKeeps(pts, maxError, add, r.outerMin, r.outerMax, lo, hi, n, i, a);
      StillIn(pts, maxError, r, i, a);
    } else {
      LateKeeps(pts, maxError, add, r.outerMin, r.outerMax, lo, hi, n, r.nextMin, r.nextMax, i, a);
      if a < add {
        StillIn(pts, maxError, r, i, a);
      } else {
        NarrowWindow(pts, maxError, add, n, lo, hi, r.nextMin, r.nextMax);
        NotIn(pts, maxError, r, i, a);
      }
    }
  }

  // The least interval of the round that covers as many steps.
  lemma CrossedFrom(pts: seq<int>, maxError: nat, limit: nat, r: Round) returns (lo: int)
    requires Found(pts, maxError, limit, r) && r.m.count < limit <= |pts|
    ensures r.outerMin <= lo <= r.m.interval <= r.outerMax && 1 <= r.m.count
    ensures Fits(pts, maxError, lo, r.m.add, r.m.count) && Fits(pts, maxError, r.m.interval, r.m.add, r.m.count)
    ensures Exact(pts, maxError, r.m.add, r.outerMin, r.outerMax, lo, r.m.interval, r.m.count)
    ensures AreCrossed(pts, maxError, r.m.add, r.m.count, lo, r.m.interval, r.nextMin, r.nextMax)
  {
    hide AreCrossed, Fits;
    lo :| r.outerMin <= lo <= r.m.interval
      && Exact(pts, maxError, r.m.add, r.outerMin, r.outerMax, lo, r.m.interval, r.m.count)
      && AreCrossed(pts, maxError, r.m.add, r.m.count, lo, r.m.interval, r.nextMin, r.nextMax);
  }

  // When the round comes early, the upper bound is the interval it found.
  lemma Crossing(pts: seq<int>, maxError: nat, add: int, n: nat, lo: int, hi: int, lo': int, hi': int)
    requires Rising(pts) && AreCrossed(pts, maxError, add, n, lo, hi, lo', hi')
    ensures At(hi, add, n + 1) < MinP(pts, maxError, n) ==> hi' == hi
  {
    Windows(pts, maxError, n);
    assert At(hi, add, n + 1) == hi * (n + 1) + add * Tri(n + 1);
  }

  // The next round goes on with greater adds and no longer intervals when this one came early, else with
  // smaller adds and no shorter intervals; within the deviation; and as far as the window of the next step
  // allows.
  lemma KeptIs(pts: seq<int>, maxError: nat, r: Round, i: int, a: int)
    requires 1 <= r.m.count < |pts|
    ensures var (n, early) := (r.m.count, ComesEarly(pts, maxError, r.m));
      Kept(pts, maxError, r, i, a) <==>
        && (if early then r.outerMin <= i <= r.nextMax && r.m.add < a <= r.maxAdd
            else r.nextMin <= i <= r.outerMax && r.minAdd <= a < r.m.add)
        && WithinDeviation(maxError, r.m, a)
        && At(if early then r.nextMax else r.outerMax, a, n + 1) >= MinP(pts, maxError, n)
        && At(if early then r.outerMin else r.nextMin, a, n + 1) <= MaxP(pts, n)
  {
    var n, early := r.m.count, ComesEarly(pts, maxError, r.m);
    var outerMin, outerMax := if early then r.outerMin else r.nextMin, if early then r.nextMax else r.outerMax;
    var lo, hi := if early then r.m.add + 1 else r.minAdd, if early then r.maxAdd else r.m.add - 1;
    var lo1 := if n > 1 then IMax(lo, r.m.add - Deviation(maxError, n)) else lo;
    var hi1 := if n > 1 then IMin(hi, r.m.add + Deviation(maxError, n)) else hi;
    assert Narrowed(pts, maxError, r)
      == (outerMin, outerMax, LeastAdd(pts, maxError, n + 1, lo1, outerMax), GreatestAdd(pts, n + 1, hi1, outerMin));
    hide At, MinP, MaxP, LeastAdd, GreatestAdd, Deviation, Narrowed, ComesEarly;
    AddLimitsAre(pts, maxError, n + 1, outerMin, outerMax, lo1, hi1, a);
  }

  lemma StillIn(pts: seq<int>, maxError: nat, r: Round, i: int, a: int)
    requires 1 <= r.m.count < |pts|
    requires InBounds(r.outerMin, r.outerMax, r.minAdd, r.maxAdd, i, a) && WithinDeviation(maxError, r.m, a)
    requires Fits(pts, maxError, i, a, r.m.count + 1)
    requires if ComesEarly(pts, maxError, r.m) then a > r.m.add && i <= r.nextMax else a < r.m.add && i >= r.nextMin
    ensures Kept(pts, maxError, r, i, a)
  {
    hide At, MinP, MaxP, Fits, Kept, ComesEarly, WithinDeviation;
    KeptIs(pts, maxError, r, i, a);
    FitsAt(pts, maxError, i, a, r.m.count + 1, r.m.count + 1);
    var early := ComesEarly(pts, maxError, r.m);
    AtMono(i, a, if early then r.nextMax else r.outerMax, a, r.m.count + 1);
    AtMono(if early then r.outerMin else r.nextMin, a, i, a, r.m.count + 1);
  }

  lemma NotIn(pts: seq<int>, maxError: nat, r: Round, i: int, a: int)
    requires 1 <= r.m.count < |pts| && !ComesEarly(pts, maxError, r.m) && a >= r.m.add
    ensures !Kept(pts, maxError, r, i, a)
  {
    hide At, MinP, MaxP, Kept, ComesEarly, WithinDeviation;
    KeptIs(pts, maxError, r, i, a);
  }

  /* ----- The whole search ----- */

  // The add tried next is one quarter of the range below its upper end, so that the range shrinks by at
  // least a quarter in every round.
  lemma BisectedIs(minAdd: int, maxAdd: int)
    requires minAdd <= maxAdd
    ensures var add := Bisected(minAdd, maxAdd);
      && minAdd <= add <= maxAdd && 0 <= (maxAdd - minAdd) - 4 * (maxAdd - add) < 4
      && 4 * (add - 1 - minAdd) <= 3 * (maxAdd - minAdd) && 4 * (maxAdd - (add + 1)) <= 3 * (maxAdd - minAdd)
  {
  }

  // Why the bounds of the next round do not hold a sequence that would cover more.
  predicate LostAt(pts: seq<int>, maxError: nat, r: Round, a: int)
    requires 1 <= r.m.count < |pts|
  {
    || InGap(maxError, r.m, a)
    || (!ComesEarly(pts, maxError, r.m) && a > r.m.add
        && MaxP(pts, r.m.count) - MinP(pts, maxError, r.m.count) < r.m.count)
  }

  lemma FitsLess(pts: seq<int>, maxError: nat, i: int, a: int, n: nat, fewer: nat)
    requires Fits(pts, maxError, i, a, n) && fewer <= n
    ensures Fits(pts, maxError, i, a, fewer)
  {
  }

  // Main theorem on the search: it misses a sequence that covers more steps than any it finds only by the
  // limit on the deviation, by a window that is narrower than the number of steps, or because it stops
  // at a sequence of more than 0x200 steps.
  lemma SearchMisses(pts: seq<int>, maxError: nat, rounds: seq<Round>, i: int, a: int, n: nat) returns (k: nat)
    requires Rising(pts) && |pts| > 0 && rounds != [] && -0x8000 <= a <= 0x7fff && 0 < n
    requires var limit := IMin(|pts|, MAX_COUNT);
      n <= limit && Searched(pts, maxError, limit, rounds) && Ended(pts, maxError, limit, rounds)
    requires Fits(pts, maxError, i, a, n) && forall r :: r in rounds ==> r.m.count < n
    ensures k < |rounds| && 1 <= rounds[k].m.count < |pts|
    ensures LostAt(pts, maxError, rounds[k], a) || (k == |rounds| - 1 && rounds[k].m.count > 0x200)
  {
    var limit := IMin(|pts|, MAX_COUNT);
    StartsWithin(pts, maxError, rounds[0], i, a, n);
    hide Begins, Fits, Narrowed, InBounds, WithinDeviation, ComesEarly, Ended, Furthest;
    k := 0;
    while true
      invariant k < |rounds|
      invariant InBounds(rounds[k].outerMin, rounds[k].outerMax, rounds[k].minAdd, rounds[k].maxAdd, i, a)
      decreases |rounds| - k
    {
      var r := rounds[k];
      assert r in rounds && Found(pts, maxError, limit, r);
      FitsLess(pts, maxError, i, a, n, r.m.count + 1);
      if !WithinDeviation(maxError, r.m, a) {
        Gap(pts, maxError, limit, r, i, a);
        return;
      }
      RoundKeeps(pts, maxError, limit, r, i, a);
      if !Kept(pts, maxError, r, i, a) {
        NotKept(pts, maxError, r, i, a);
        return;
      }
      if k == |rounds| - 1 {
        LastKept(pts, maxError, limit, rounds, i, a);
        return;
      }
      assert Continues(pts, maxError, r, rounds[k + 1]);
      NextBounds(pts, maxError, r, rounds[k + 1], i, a);
      k := k + 1;
    }
  }

  lemma Gap(pts: seq<int>, maxError: nat, limit: nat, r: Round, i: int, a: int)
    requires Rising(pts) && Found(pts, maxError, limit, r) && r.m.count < limit <= |pts|
    requires Fits(pts, maxError, i, a, r.m.count + 1) && !WithinDeviation(maxError, r.m, a)
    ensures InGap(maxError, r.m, a)
  {
    hide Fits, Found, Deviation;
    var _ := CrossedFrom(pts, maxError, limit, r);
    FitsLess(pts, maxError, i, a, r.m.count + 1, r.m.count);
    DeviationBound(pts, maxError, r.m.interval, r.m.add, i, a, r.m.count);
  }

  lemma StartsWithin(pts: seq<int>, maxError: nat, r: Round, i: int, a: int, n: nat)
    requires |pts| > 0 && Begins(pts, maxError, r) && Fits(pts, maxError, i, a, n) && 0 < n && -0x8000 <= a <= 0x7fff
    ensures InBounds(r.outerMin, r.outerMax, r.minAdd, r.maxAdd, i, a)
  {
    FitsAt(pts, maxError, i, a, n, 1);
    AtNext(i, a, 0);
  }

  lemma NotKept(pts: seq<int>, maxError: nat, r: Round, i: int, a: int)
    requires 1 <= r.m.count < |pts| && Fits(pts, maxError, i, a, r.m.count + 1) && !ComesEarly(pts, maxError, r.m)
    requires a >= r.m.add && MaxP(pts, r.m.count) - MinP(pts, maxError, r.m.count) < r.m.count
    ensures a > r.m.add ==> LostAt(pts, maxError, r, a)
  {
  }

  lemma NextBounds(pts: seq<int>, maxError: nat, r: Round, s: Round, i: int, a: int)
    requires 1 <= r.m.count < |pts| && Continues(pts, maxError, r, s) && Kept(pts, maxError, r, i, a)
    ensures InBounds(s.outerMin, s.outerMax, s.minAdd, s.maxAdd, i, a)
  {
    hide Narrowed;
  }

  // A search that ends although its last round keeps a sequence within its bounds has found a long one.
  lemma LastKept(pts: seq<int>, maxError: nat, limit: nat, rounds: seq<Round>, i: int, a: int)
    requires |pts| > 0 && rounds != [] && Searched(pts, maxError, limit, rounds) && Ended(pts, maxError, limit, rounds)
    requires var r := rounds[|rounds| - 1]; r.m.count != limit && 1 <= r.m.count < |pts| && Kept(pts, maxError, r, i, a)
    ensures rounds[|rounds| - 1].m.count > 0x200
  {
    hide Narrowed, Searched;
  }

  const CLOSE := [10, 11]
  const CLOSE_ROUND := Round(5, 10, -0x8000, 0x7fff, StepMove(10, 1, 0), 6, 5)

  lemma CloseWindows()
    ensures Rising(CLOSE) && MinP(CLOSE, 10, 0) == 5 && MaxP(CLOSE, 0) == 10
    ensures MinP(CLOSE, 10, 1) == 11 && MaxP(CLOSE, 1) == 11
    ensures Tri(1) == 0 && Tri(2) == 1
  {
    assert Tri(0) == 0;
  }

  lemma CloseFits(i: int, a: int)
    ensures Fits(CLOSE, 10, i, a, 1) <==> 5 <= i <= 10
    ensures Fits(CLOSE, 10, i, a, 2) <==> 5 <= i <= 10 && 2 * i + a == 11
  {
    CloseWindows();
    hide MinP, MaxP, Tri;
    AtNext(i, a, 0);
    AtNext(i, a, 1);
    hide At;
    assert InWindow(CLOSE, 10, i, a, 1) <==> 5 <= i <= 10;
    assert InWindow(CLOSE, 10, i, a, 2) <==> 2 * i + a == 11;
  }

  lemma CloseCrosses()
    ensures Crossed(CLOSE, 10, 0, 5, 10, 1, 10, 6, 5)
  {
    CloseWindows();
    assert IdivUp(11, 2) == 6 && IdivDown(11, 2) == 5;
    hide MinP, MaxP, Tri, IdivUp, IdivDown;
    assert AreCrossed(CLOSE, 10, 0, 1, 5, 10, 6, 5);
    hide AreCrossed, Fits;
    forall i | 5 <= i <= 10 ensures Fits(CLOSE, 10, i, 0, 1) {
      CloseFits(i, 0);
    }
    assert Exact(CLOSE, 10, 0, 5, 10, 5, 10, 1);
  }

  // A narrow window does lose a sequence: steps asked for at 10 and 11 with a large error can be made at 5
  // and 11, but the first round finds that 10 and 20 is too late, and leaves only smaller adds.
  lemma NarrowWindowLoses()
    ensures Rising(CLOSE) && Begins(CLOSE, 10, CLOSE_ROUND) && Found(CLOSE, 10, 2, CLOSE_ROUND)
    ensures Fits(CLOSE, 10, 5, 1, 2) && WithinDeviation(10, CLOSE_ROUND.m, 1) && !Kept(CLOSE, 10, CLOSE_ROUND, 5, 1)
  {
    CloseWindows();
    CloseFound();
    CloseFits(5, 1);
    CloseIsLate();
    hide MinP, MaxP, Found, Fits, Kept, ComesEarly;
    NotIn(CLOSE, 10, CLOSE_ROUND, 5, 1);
  }

  lemma CloseIsLate()
    ensures !ComesEarly(CLOSE, 10, CLOSE_ROUND.m)
  {
    CloseWindows();
    hide MinP, Tri;
    assert At(10, 0, 2) == 20;
  }

  lemma CloseFound()
    ensures Found(CLOSE, 10, 2, CLOSE_ROUND)
  {
    CloseCrosses();
    CloseFits(10, 0);
    hide Crossed, Fits;
    forall i: int, n: nat | 5 <= i <= 10 && n <= 2 && Fits(CLOSE, 10, i, 0, n) ensures n <= 1 {
      CloseFits(i, 0);
    }
  }

  const FAR := [1000, 2004, 3028]
  const FAR_ROUND := Round(996, 1000, -0x8000, 0x7fff, StepMove(1000, 2, 0), 1008, 1000)

  lemma FarWindows()
    ensures Rising(FAR) && MinP(FAR, 4, 0) == 996 && MaxP(FAR, 0) == 1000
    ensures MinP(FAR, 4, 1) == 2000 && MaxP(FAR, 1) == 2004
    ensures MinP(FAR, 4, 2) == 3024 && MaxP(FAR, 2) == 3028
    ensures Tri(1) == 0 && Tri(2) == 1 && Tri(3) == 3
  {
    assert Tri(0) == 0;
  }

  lemma FarFits(i: int, a: int)
    ensures Fits(FAR, 4, i, a, 1) <==> 996 <= i <= 1000
    ensures Fits(FAR, 4, i, a, 2) <==> 996 <= i <= 1000 && 2000 <= 2 * i + a <= 2004
    ensures Fits(FAR, 4, i, a, 3) <==>
      996 <= i <= 1000 && 2000 <= 2 * i + a <= 2004 && 3024 <= 3 * i + 3 * a <= 3028
  {
    FarWindows();
    hide MinP, MaxP, Tri;
    AtNext(i, a, 0);
    AtNext(i, a, 1);
    AtNext(i, a, 2);
    hide At;
    assert InWindow(FAR, 4, i, a, 1) <==> 996 <= i <= 1000;
    assert InWindow(FAR, 4, i, a, 2) <==> 2000 <= 2 * i + a <= 2004;
    assert InWindow(FAR, 4, i, a, 3) <==> 3024 <= 3 * i + 3 * a <= 3028;
  }

  lemma FarFound()
    ensures Found(FAR, 4, 3, FAR_ROUND)
  {
    FarWindows();
    FarFits(1000, 0);
    assert IdivUp(3024, 3) == 1008;
    hide MinP, MaxP, Tri, IdivUp, IdivDown;
    assert AreCrossed(FAR, 4, 0, 2, 1000, 1000, 1008, 1000);
    hide AreCrossed, Fits;
    forall i | 996 <= i <= 1000 ensures Fits(FAR, 4, i, 0, 2) <==> 1000 <= i <= 1000 {
      FarFits(i, 0);
    }
    assert Exact(FAR, 4, 0, 996, 1000, 1000, 1000, 2);
    forall i: int, n: nat | 996 <= i <= 1000 && n <= 3 && Fits(FAR, 4, i, 0, n) ensures n <= 2 {
      FarFits(i, 0);
    }
  }

  // The factor of 11 in the code does lose a sequence, and 12 is attained: the only sequence that covers all
  // of these three steps is 12 away from the first add, and the next round excludes it.
  lemma DeviationLoses(i: int, a: int)
    ensures Rising(FAR) && Begins(FAR, 4, FAR_ROUND) && Found(FAR, 4, 3, FAR_ROUND)
    ensures Fits(FAR, 4, i, a, 3) <==> i == 996 && a == 12
    ensures InGap(4, FAR_ROUND.m, 12) && !Kept(FAR, 4, FAR_ROUND, 996, 12)
  {
    FarWindows();
    FarFound();
    FarFits(i, a);
    hide MinP, MaxP, Found, Fits, At;
    assert Deviation(4, 2) == 11;
    hide LeastAdd;
  }
}
