/**
 The command history of a stepper (stepcompress.c): free_history and
 stepcompress_find_past_position.

 The answer is specified by undoing: the current position, less every step whose clock is later
 than the one asked for.  The square root of the C code is an exact real function.
 */
module StepHistory {
  import opened Basics
  import opened StepBisect

  // struct history_steps; stepCount is negative for steps downwards.
  datatype History = History(firstClock: int, lastClock: int, startPosition: int, stepCount: int,
                             interval: int, add: int)

  function Count(h: History): nat { if h.stepCount < 0 then -h.stepCount else h.stepCount }

  // Clock of the j-th step of a record, from 1.
  function ClockOf(h: History, j: nat): int { h.firstClock + (At(h.interval, h.add, j) - h.interval) }

  predicate RecordOk(h: History) {
    && h.stepCount != 0 && h.lastClock == ClockOf(h, Count(h))
    && (forall j: nat :: 1 <= j < Count(h) ==> ClockOf(h, j) < ClockOf(h, j + 1))
    && (Count(h) > 1 ==> h.interval > 0)
  }

  // The list is newest first; positions join up and records do not overlap.
  predicate Contiguous(hist: seq<History>, lastPosition: int) {
    hist != [] ==>
      && RecordOk(hist[0])
      && lastPosition == hist[0].startPosition + hist[0].stepCount
      && (|hist| > 1 ==> hist[1].lastClock < hist[0].firstClock)
      && Contiguous(hist[1..], hist[0].startPosition)
  }

  /* ----- The specification ----- */

  // How many of the first n steps of a record are later than `clock`.
  function StepsAfter(h: History, clock: int, n: nat): (k: nat)
    ensures k <= n
  {
    if n == 0 then 0 else StepsAfter(h, clock, n - 1) + if ClockOf(h, n) > clock then 1 else 0
  }

  function After(h: History, clock: int): int {
    var k: int := StepsAfter(h, clock, Count(h));
    if h.stepCount < 0 then -k else k
  }

  function HistAfter(hist: seq<History>, clock: int): int {
    if hist == [] then 0 else After(hist[0], clock) + HistAfter(hist[1..], clock)
  }

  function PositionAt(hist: seq<History>, lastPosition: int, clock: int): int {
    lastPosition - HistAfter(hist, clock)
  }

  /* ----- Counting steps of one record ----- */

  lemma {:induction false} ClockIncreases(h: History, j: nat, k: nat)
    requires RecordOk(h) && 1 <= j <= k <= Count(h)
    ensures ClockOf(h, j) <= ClockOf(h, k) && (j < k ==> ClockOf(h, j) < ClockOf(h, k))
    decreases k - j
  {
    if j < k {
      ClockIncreases(h, j + 1, k);
    }
  }

  // Step k is the last one not after `clock`: then exactly the n - k later ones are after it.
  lemma {:induction false} StepsAfterIs(h: History, clock: int, k: nat, n: nat)
    requires RecordOk(h) && k <= n <= Count(h)
    requires k > 0 ==> ClockOf(h, k) <= clock
    requires k < n ==> clock < ClockOf(h, k + 1)
    ensures StepsAfter(h, clock, n) == n - k
  {
    hide ClockOf;
    if n > 0 {
      if n == k {
        if k > 1 { ClockIncreases(h, k - 1, k); }
        StepsAfterIs(h, clock, k - 1, n - 1);
      } else {
        ClockIncreases(h, k + 1, n);
        StepsAfterIs(h, clock, k, n - 1);
      }
    }
  }

  lemma BeforeRecord(h: History, clock: int)
    requires RecordOk(h) && clock < h.firstClock
    ensures After(h, clock) == h.stepCount
  {
    AtNext(h.interval, h.add, 0);
    StepsAfterIs(h, clock, 0, Count(h));
  }

  lemma AfterRecord(h: History, clock: int)
    requires RecordOk(h) && h.lastClock <= clock
    ensures After(h, clock) == 0
  {
    StepsAfterIs(h, clock, Count(h), Count(h));
  }

  lemma FirstBeforeLast(h: History)
    requires RecordOk(h)
    ensures h.firstClock <= h.lastClock
  {
    AtNext(h.interval, h.add, 0);
    ClockIncreases(h, 1, Count(h));
  }

  lemma {:induction false} AllBefore(hist: seq<History>, lastPosition: int, clock: int)
    requires Contiguous(hist, lastPosition) && (hist != [] ==> hist[0].lastClock <= clock)
    ensures HistAfter(hist, clock) == 0
  {
    if hist != [] {
      AfterRecord(hist[0], clock);
      FirstBeforeLast(hist[0]);
      AllBefore(hist[1..], hist[0].startPosition, clock);
    }
  }

  /* ----- Inside a record: inverting the quadratic ----- */

  ghost predicate IsSqrt(sqrt: real -> real) {
    forall x: real :: x >= 0.0 ==> sqrt(x) >= 0.0 && sqrt(x) * sqrt(x) == x
  }

  // The quadratic that the C code inverts passes through the step times.
  function Quad(a: real, b: real, y: real): real { (a * y + b) * y }

  lemma {:induction false} CastMul(x: int, k: nat)
    ensures (x * k) as real == x as real * k as real
  {
    if k > 0 {
      CastMul(x, k - 1);
      assert x * k == x * (k - 1) + x;
    }
  }

  lemma QuadIsAt(interval: int, add: int, k: nat)
    ensures Quad(0.5 * add as real, interval as real - 0.5 * add as real, k as real) == At(interval, add, k) as real
  {
    TriIs(k);
    var t, y := Tri(k), k as real;
    assert 2 * t == k * (k - 1);
    CastMul(k - 1, k);
    CastMul(interval, k);
    CastMul(add, t);
    assert 2.0 * t as real == y * (y - 1.0);
    var d, i := add as real, interval as real;
    assert (0.5 * d * y + (i - 0.5 * d)) * y == i * y + d * (0.5 * (y * (y - 1.0)));
  }

  // Factored difference of two values of the quadratic.
  lemma QuadDiff(a: real, b: real, y: real, z: real)
    ensures Quad(a, b, y) - Quad(a, b, z) == (y - z) * (a * (y + z) + b)
  {
  }

  lemma MulPos(x: real, y: real)
    ensures x > 0.0 && y > 0.0 ==> x * y > 0.0
    ensures x >= 0.0 && y >= 0.0 ==> x * y >= 0.0
  {
  }

  // If the chord slopes next to x are positive, x lies between the two steps around the clock.
  lemma Between(a: real, b: real, x: real, k: real)
    requires Quad(a, b, k) <= Quad(a, b, x) < Quad(a, b, k + 1.0)
    requires k > x ==> a * (k + x) + b > 0.0
    requires x >= k + 1.0 ==> a * (x + (k + 1.0)) + b >= 0.0
    ensures k <= x < k + 1.0
  {
    hide Quad;
    QuadDiff(a, b, k, x);
    QuadDiff(a, b, x, k + 1.0);
    Grows(Quad(a, b, k), Quad(a, b, x), k - x, a * (k + x) + b);
    Grows(Quad(a, b, x), Quad(a, b, k + 1.0), x - (k + 1.0), a * (x + (k + 1.0)) + b);
  }

  lemma Grows(u: real, v: real, d: real, slope: real)
    requires u - v == d * slope
    ensures d > 0.0 && slope > 0.0 ==> u > v
    ensures d >= 0.0 && slope >= 0.0 ==> u >= v
  {
    MulPos(d, slope);
  }

  // The root x taken by the C code lies between the last step k not after the clock and the
  // next one: accelerating away from zero ...
  lemma RootGrowing(a: real, b: real, x: real, k: real)
    requires a > 0.0 && k >= 1.0 && x > 0.0 && a + b > 0.0
    requires Quad(a, b, k) <= Quad(a, b, x) < Quad(a, b, k + 1.0)
    ensures k <= x < k + 1.0
  {
    MulPos(a, k - 1.0);
    MulPos(a, k);
    MulPos(a, x);
    assert a * (k + x) + b == a * (k - 1.0) + a * x + (a + b);
    assert a * (x + (k + 1.0)) + b == a * k + a * x + (a + b);
    Between(a, b, x, k);
  }

  // ... and towards it.
  lemma RootShrinking(a: real, b: real, x: real, k: real)
    requires a < 0.0 && 2.0 * a * x + b >= 0.0 && a * (2.0 * k + 1.0) + b > 0.0
    requires Quad(a, b, k) <= Quad(a, b, x) < Quad(a, b, k + 1.0)
    ensures k <= x < k + 1.0
  {
    MulPos(-a, k - x);
    MulPos(-a, x - (k + 1.0));
    assert a * (k + x) + b == (a * (2.0 * k + 1.0) + b) + (-a) * (k - x) + (-a);
    assert a * (x + (k + 1.0)) + b == (2.0 * a * x + b) + (-a) * (x - (k + 1.0));
    Between(a, b, x, k);
  }

  // Where the discriminant of the C code comes from.
  lemma Discriminant(a: real, b: real, y: real)
    ensures b * b + 4.0 * a * Quad(a, b, y) == (2.0 * a * y + b) * (2.0 * a * y + b)
  {
  }

  // The last step of a record that is not after the clock.
  lemma {:induction false} LastNotAfter(h: History, clock: int, n: nat) returns (k: nat)
    requires RecordOk(h) && 1 <= n <= Count(h) && h.firstClock <= clock < ClockOf(h, n)
    ensures 1 <= k < n && ClockOf(h, k) <= clock < ClockOf(h, k + 1)
  {
    AtNext(h.interval, h.add, 0);
    if ClockOf(h, n - 1) <= clock {
      k := n - 1;
    } else {
      k := LastNotAfter(h, clock, n - 1);
    }
  }

  // Conversion of a double to int in C drops the fraction.
  function CTrunc(x: real): int { if x >= 0.0 then x.Floor else -((-x).Floor) }

  // The number of steps of a record up to the clock, as the C code computes it.
  function PastOffset(h: History, clock: int, sqrt: real -> real): int
    requires h.interval > 0 || h.add != 0
  {
    var ticks := (clock - h.firstClock) + h.interval;
    if h.add == 0 then CDiv(ticks, h.interval)
    else Solve(0.5 * h.add as real, h.interval as real - 0.5 * h.add as real, -(ticks as real), sqrt)
  }

  // The quadratic formula.
  function Solve(a: real, b: real, c: real, sqrt: real -> real): int
    requires a != 0.0
  {
    CTrunc((sqrt(b * b - 4.0 * a * c) - b) / (2.0 * a))
  }

  lemma DivIs(t: int, d: int, k: int)
    requires d > 0 && d * k <= t < d * (k + 1)
    ensures t / d == k
  {
    var q := t / d;
    MulMono(q + 1, k, d);
    MulMono(k + 1, q, d);
  }

  // The root of the quadratic at height t, for a square root r of the discriminant.
  lemma RootIs(a: real, b: real, t: real, r: real)
    requires a != 0.0 && r * r == b * b + 4.0 * a * t
    ensures Quad(a, b, (r - b) / (2.0 * a)) == t
    ensures 2.0 * a * ((r - b) / (2.0 * a)) + b == r
  {
    var x := (r - b) / (2.0 * a);
    assert 2.0 * a * x == r - b;
    assert 4.0 * a * Quad(a, b, x) == (2.0 * a * x) * (2.0 * a * x) + 2.0 * b * (2.0 * a * x);
    assert 4.0 * a * Quad(a, b, x) == 4.0 * a * t;
  }

  // Between two steps the discriminant is not negative.
  lemma DiscNonNeg(a: real, b: real, t: real, k: real)
    requires a != 0.0 && t > 0.0 && t < Quad(a, b, k + 1.0)
    ensures b * b + 4.0 * a * t >= 0.0
  {
    var top := Quad(a, b, k + 1.0);
    Discriminant(a, b, k + 1.0);
    hide Quad;
    Square(b);
    Square(2.0 * a * (k + 1.0) + b);
    MulPos(a, t);
    MulPos(-a, top - t);
    assert a < 0.0 ==> b * b + 4.0 * a * t == (b * b + 4.0 * a * top) + 4.0 * ((-a) * (top - t));
  }

  lemma RootStep(a: real, b: real, t: real, k: real, r: real)
    requires a != 0.0 && k >= 1.0 && t > 0.0 && r >= 0.0 && r * r == b * b + 4.0 * a * t
    requires a + b > 0.0 && a * (2.0 * k + 1.0) + b > 0.0
    requires Quad(a, b, k) <= t < Quad(a, b, k + 1.0)
    ensures k <= (r - b) / (2.0 * a) < k + 1.0
  {
    hide Quad;
    RootIs(a, b, t, r);
    var x := (r - b) / (2.0 * a);
    if a > 0.0 {
      MulPos(a, t);
      RootAboveB(r, b, 4.0 * a * t);
      MulPos(1.0 / (2.0 * a), r - b);
      RootGrowing(a, b, x, k);
    } else {
      RootShrinking(a, b, x, k);
    }
  }

  lemma Square(x: real)
    ensures x * x >= 0.0
  {
  }

  lemma RootAboveB(r: real, b: real, d: real)
    requires r >= 0.0 && d > 0.0 && r * r == b * b + d
    ensures r > b
  {
    assert (r - b) * (r + b) == d;
    MulPos(b - r, r + b);
  }

  lemma FloorIs(x: real, k: nat)
    requires k as real <= x < k as real + 1.0
    ensures CTrunc(x) == k
  {
  }

  lemma SolveReal(a: real, b: real, t: real, k: nat, sqrt: real -> real)
    requires IsSqrt(sqrt) && a != 0.0 && k >= 1 && t > 0.0
    requires a + b > 0.0 && a * (2.0 * k as real + 1.0) + b > 0.0
    requires Quad(a, b, k as real) <= t < Quad(a, b, (k + 1) as real)
    ensures Solve(a, b, -t, sqrt) == k
  {
    hide Quad;
    assert (k + 1) as real == k as real + 1.0;
    DiscNonNeg(a, b, t, k as real);
    var disc := b * b - 4.0 * a * (-t);
    assert disc == b * b + 4.0 * a * t;
    RootStep(a, b, t, k as real, sqrt(disc));
    FloorIs((sqrt(disc) - b) / (2.0 * a), k);
  }

  lemma ChordIs(interval: int, add: int, k: nat)
    ensures var a, b := 0.5 * add as real, interval as real - 0.5 * add as real;
      a + b == interval as real && a * (2.0 * k as real + 1.0) + b == (interval + add * k) as real
  {
    CastMul(add, k);
    var d, y := add as real, k as real;
    assert 0.5 * d * (2.0 * y + 1.0) == d * y + 0.5 * d;
  }

  // The C code's arithmetic on a sequence of steps at interval, add.
  lemma SolveIs(interval: int, add: int, ticks: int, k: nat, sqrt: real -> real)
    requires IsSqrt(sqrt) && add != 0 && interval > 0 && k >= 1
    requires At(interval, add, k) <= ticks < At(interval, add, k + 1) && 0 < ticks
    ensures Solve(0.5 * add as real, interval as real - 0.5 * add as real, -(ticks as real), sqrt) == k
  {
    hide Quad, Solve, At;
    AtNext(interval, add, k);
    QuadIsAt(interval, add, k);
    QuadIsAt(interval, add, k + 1);
    ChordIs(interval, add, k);
    SolveReal(0.5 * add as real, interval as real - 0.5 * add as real, ticks as real, k, sqrt);
  }

  lemma DivideIs(interval: int, ticks: int, k: nat)
    requires interval > 0 && At(interval, 0, k) <= ticks < At(interval, 0, k + 1) && 0 < ticks
    ensures CDiv(ticks, interval) == k
  {
    assert 0 * Tri(k) == 0 && 0 * Tri(k + 1) == 0;
    DivIs(ticks, interval, k);
  }

  // Inside a record the C code counts exactly the steps that are not after the clock.
  lemma OffsetIs(h: History, clock: int, sqrt: real -> real)
    requires RecordOk(h) && h.firstClock <= clock < h.lastClock && IsSqrt(sqrt)
    ensures h.interval > 0
    ensures PastOffset(h, clock, sqrt) == Count(h) - StepsAfter(h, clock, Count(h))
  {
    hide At, StepsAfter, Solve, CDiv;
    var k := LastNotAfter(h, clock, Count(h));
    StepsAfterIs(h, clock, k, Count(h));
    var ticks := (clock - h.firstClock) + h.interval;
    assert At(h.interval, h.add, k) <= ticks < At(h.interval, h.add, k + 1);
    if h.add == 0 {
      DivideIs(h.interval, ticks, k);
    } else {
      SolveIs(h.interval, h.add, ticks, k, sqrt);
    }
  }

  /* ----- The search ----- */

  // stepcompress_find_past_position
  method FindPastPosition(hist: seq<History>, lastPosition: int, clock: int, sqrt: real -> real) returns (position: int)
    requires Contiguous(hist, lastPosition) && IsSqrt(sqrt)
    ensures position == PositionAt(hist, lastPosition, clock)
  {
    position := lastPosition;
    var i := 0;
    while i < |hist|
      invariant 0 <= i <= |hist|
      invariant Contiguous(hist[i..], position)
      invariant PositionAt(hist, lastPosition, clock) == PositionAt(hist[i..], position, clock)
    {
      var hs := hist[i];
      assert hist[i..][0] == hs && hist[i..][1..] == hist[i + 1..];
      if clock < hs.firstClock {
        BeforeRecord(hs, clock);
        position := hs.startPosition;
        i := i + 1;
        continue;
      }
      if clock >= hs.lastClock {
        AllBefore(hist[i..], position, clock);
        return hs.startPosition + hs.stepCount;
      }
      OffsetIs(hs, clock, sqrt);
      FirstBeforeLast(hs);
      AllBefore(hist[i + 1..], hs.startPosition, clock);
      var offset := PastOffset(hs, clock, sqrt);
      if hs.stepCount < 0 {
        return hs.startPosition - offset;
      }
      return hs.startPosition + offset;
    }
  }

  /* ----- Expiry ----- */

  lemma {:induction false} DropOldest(hist: seq<History>, lastPosition: int, clock: int)
    requires Contiguous(hist, lastPosition) && hist != [] && hist[|hist| - 1].lastClock <= clock
    ensures Contiguous(hist[..|hist| - 1], lastPosition)
    ensures PositionAt(hist[..|hist| - 1], lastPosition, clock) == PositionAt(hist, lastPosition, clock)
  {
    var n := |hist| - 1;
    if n == 0 {
      AfterRecord(hist[0], clock);
    } else {
      DropOldest(hist[1..], hist[0].startPosition, clock);
      assert hist[..n][1..] == hist[1..][..n - 1];
    }
  }

  // free_history: no answer for a clock from endClock on changes.
  method FreeHistory(hist: seq<History>, ghost lastPosition: int, endClock: int) returns (kept: seq<History>)
    requires Contiguous(hist, lastPosition)
    ensures kept <= hist && Contiguous(kept, lastPosition)
    ensures forall c :: c >= endClock ==> PositionAt(kept, lastPosition, c) == PositionAt(hist, lastPosition, c)
    ensures kept != [] ==> kept[|kept| - 1].lastClock > endClock
    ensures forall i :: |kept| <= i < |hist| ==> hist[i].lastClock <= endClock
  {
    kept := hist;
    while |kept| > 0
      invariant kept <= hist && Contiguous(kept, lastPosition)
      invariant forall i :: |kept| <= i < |hist| ==> hist[i].lastClock <= endClock
      invariant forall c :: c >= endClock ==> PositionAt(kept, lastPosition, c) == PositionAt(hist, lastPosition, c)
    {
      if kept[|kept| - 1].lastClock > endClock {
        break;
      }
      forall c | c >= endClock
        ensures PositionAt(kept[..|kept| - 1], lastPosition, c) == PositionAt(kept, lastPosition, c)
      {
        DropOldest(kept, lastPosition, c);
      }
      DropOldest(kept, lastPosition, endClock);
      kept := kept[..|kept| - 1];
    }
  }
}
