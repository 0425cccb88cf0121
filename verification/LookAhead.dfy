/**
 The look-ahead planner of toolhead.py: Move.calc_junction, Move.limit_speed,
 LookAheadQueue.flush and LookAheadQueue.add_move.

 All speeds are kept squared (suffix V2), exactly as the planner keeps them.  The backward
 pass of flush is written down as a function on suffixes of the queue (PassOf); what a move
 is told to do is PlanAt.  The class at the end is the imperative planner, proved to compute
 exactly these functions; the theorems are about the functions and about whole runs.
 */
module LookAhead {
  import opened Basics

  const LOOKAHEAD_FLUSH_TIME: real := 0.250

  // The numbers of one Move.  deltaV2 is the largest change of squared speed within the move.
  datatype Limits = Limits(
    kinematic: bool, moveD: real, accel: real, junctionDeviation: real, minMoveT: real,
    maxStartV2: real, maxCruiseV2: real, deltaV2: real,
    maxSmoothedV2: real, smoothDeltaV2: real)

  // What set_junction is told.
  datatype Plan = Plan(startV2: real, cruiseV2: real, endV2: real)

  /* ----- Building a move ----- */

  // The accel of an extrude-only move.
  const EXTRUDE_ACCEL := 99999999.9

  // Move.__init__ for a positive distance; speed and the velocity limit are positive.
  function NewMove(kinematic: bool, moveD: real, speed: real, maxVelocity: real, maxAccel: real,
                   junctionDeviation: real, maxAccelToDecel: real): Limits
    requires moveD > 0.0 && speed > 0.0 && maxVelocity > 0.0
  {
    var accel := if kinematic then maxAccel else EXTRUDE_ACCEL;
    var velocity := if kinematic then RMin(speed, maxVelocity) else speed;
    Limits(kinematic, moveD, accel, junctionDeviation, moveD / velocity,
           0.0, velocity * velocity, 2.0 * moveD * accel, 0.0, 2.0 * moveD * maxAccelToDecel)
  }

  // Move.limit_speed
  function LimitSpeed(m: Limits, speed: real, accel: real): Limits
    requires speed > 0.0
  {
    var m1 := if speed * speed < m.maxCruiseV2
              then m.(maxCruiseV2 := speed * speed, minMoveT := m.moveD / speed) else m;
    var a := RMin(m1.accel, accel);
    var d := 2.0 * m1.moveD * a;
    m1.(accel := a, deltaV2 := d, smoothDeltaV2 := RMin(m1.smoothDeltaV2, d))
  }

  // A move as it is handed to add_move: nothing is known about its junction yet.
  predicate Fresh(m: Limits) {
    Sane(m) && m.maxStartV2 == 0.0 && m.maxSmoothedV2 == 0.0
  }

  predicate Sane(m: Limits) {
    && m.moveD > 0.0 && m.accel > 0.0 && m.junctionDeviation >= 0.0
    && m.deltaV2 == 2.0 * m.moveD * m.accel && m.deltaV2 > 0.0
    && m.smoothDeltaV2 > 0.0 && m.maxCruiseV2 > 0.0
    && 0.0 <= m.maxSmoothedV2 <= m.maxStartV2 <= m.maxCruiseV2
    && (m.smoothDeltaV2 <= m.deltaV2 || m.maxStartV2 == 0.0)
    && (!m.kinematic ==> m.maxStartV2 == 0.0)
    && (m.kinematic ==> m.smoothDeltaV2 <= m.deltaV2)
  }

  lemma NewMoveIsFresh(kinematic: bool, moveD: real, speed: real, maxVelocity: real, maxAccel: real,
                       junctionDeviation: real, maxAccelToDecel: real)
    requires moveD > 0.0 && speed > 0.0 && maxVelocity > 0.0
    requires junctionDeviation >= 0.0 && 0.0 < maxAccelToDecel <= maxAccel
    ensures var m := NewMove(kinematic, moveD, speed, maxVelocity, maxAccel, junctionDeviation, maxAccelToDecel);
      Fresh(m) && (m.smoothDeltaV2 <= m.deltaV2 <==> kinematic || maxAccelToDecel <= EXTRUDE_ACCEL)
  {
    var velocity := if kinematic then RMin(speed, maxVelocity) else speed;
    Product(velocity, velocity);
    var m := NewMove(kinematic, moveD, speed, maxVelocity, maxAccel, junctionDeviation, maxAccelToDecel);
    ScaledOrder(m.moveD, maxAccelToDecel, m.accel);
    assert m.deltaV2 == 2.0 * m.moveD * m.accel && m.smoothDeltaV2 == 2.0 * m.moveD * maxAccelToDecel;
  }

  lemma Product(a: real, b: real)
    requires a > 0.0 && b > 0.0
    ensures a * b > 0.0
  {
  }

  lemma ScaledOrder(d: real, a: real, b: real)
    requires d > 0.0 && a > 0.0 && b > 0.0
    ensures 2.0 * d * a > 0.0 && 2.0 * d * b > 0.0
    ensures 2.0 * d * a <= 2.0 * d * b <==> a <= b
  {
    Product(2.0 * d, a);
    Product(2.0 * d, b);
    if a > b {
      assert 2.0 * d * a - 2.0 * d * b == 2.0 * d * (a - b);
    } else {
      assert 2.0 * d * b - 2.0 * d * a == 2.0 * d * (b - a);
    }
  }

  lemma LimitSpeedKeepsFresh(m: Limits, speed: real, accel: real)
    requires Fresh(m) && speed > 0.0 && accel > 0.0
    ensures Fresh(LimitSpeed(m, speed, accel))
    ensures LimitSpeed(m, speed, accel).smoothDeltaV2 <= RMin(m.smoothDeltaV2, LimitSpeed(m, speed, accel).deltaV2)
    ensures LimitSpeed(m, speed, accel).maxCruiseV2 == RMin(m.maxCruiseV2, speed * speed)
    ensures LimitSpeed(m, speed, accel).accel == RMin(m.accel, accel)
  {
    assert speed * speed > 0.0;
    assert m.moveD * RMin(m.accel, accel) > 0.0;
  }

  // minMoveT is the time that the move takes at its cruise limit.
  predicate TimedAtCruise(m: Limits) {
    m.minMoveT > 0.0 && (m.minMoveT * m.minMoveT) * m.maxCruiseV2 == m.moveD * m.moveD
  }

  lemma QuotientSquare(d: real, v: real)
    requires d > 0.0 && v > 0.0
    ensures d / v > 0.0 && ((d / v) * (d / v)) * (v * v) == d * d
  {
    var t := d / v;
    assert t * v == d;
    assert t <= 0.0 ==> t * v <= 0.0;
    assert (t * t) * (v * v) == (t * v) * (t * v);
  }

  // A move cruises at most at the speed asked for and, unless it only extrudes, at the velocity limit,
  // and no slower than the lower of them.
  lemma NewMoveSpeed(kinematic: bool, moveD: real, speed: real, maxVelocity: real, maxAccel: real,
                     junctionDeviation: real, maxAccelToDecel: real)
    requires moveD > 0.0 && speed > 0.0 && maxVelocity > 0.0
    ensures var m := NewMove(kinematic, moveD, speed, maxVelocity, maxAccel, junctionDeviation, maxAccelToDecel);
      && TimedAtCruise(m)
      && (m.maxCruiseV2 == speed * speed || (kinematic && m.maxCruiseV2 == maxVelocity * maxVelocity))
      && m.maxCruiseV2 <= speed * speed && (kinematic ==> m.maxCruiseV2 <= maxVelocity * maxVelocity)
      && m.deltaV2 == 2.0 * moveD * (if kinematic then maxAccel else EXTRUDE_ACCEL)
      && m.smoothDeltaV2 == 2.0 * moveD * maxAccelToDecel
  {
    var velocity := if kinematic then RMin(speed, maxVelocity) else speed;
    QuotientSquare(moveD, velocity);
    SquareOrder(velocity, speed);
    SquareOrder(velocity, maxVelocity);
  }

  lemma SquareOrder(v: real, w: real)
    requires v > 0.0 && w > 0.0
    ensures v <= w ==> v * v <= w * w
  {
    if v <= w {
      assert w * w - v * v == (w - v) * (w + v);
      assert (w - v) * (w + v) >= 0.0;
    }
  }

  lemma LimitSpeedIsTimed(m: Limits, speed: real, accel: real)
    requires TimedAtCruise(m) && m.moveD > 0.0 && speed > 0.0
    ensures TimedAtCruise(LimitSpeed(m, speed, accel))
  {
    QuotientSquare(m.moveD, speed);
  }

  // Direction data of a junction: the (negated) cosine, the extruder's own limit, and the two
  // half-angle square roots.
  datatype Junction = Junction(cosTheta: real, extruderV2: real, sinHalf: real, cosHalf: real)

  predicate JunctionOk(j: Junction) {
    var c := RMax(j.cosTheta, -0.999999);
    && j.extruderV2 >= 0.0 && j.sinHalf >= 0.0 && j.cosHalf >= 0.0
    && j.sinHalf * j.sinHalf == 0.5 * (1.0 - c) && (c <= 1.0 ==> j.cosHalf * j.cosHalf == 0.5 * (1.0 + c))
  }

  lemma HalfAngles(j: Junction)
    requires JunctionOk(j) && j.cosTheta <= 0.999999
    ensures 0.0 <= j.sinHalf < 1.0 && 0.0 < j.cosHalf
  {
    assert j.sinHalf >= 1.0 ==> j.sinHalf * j.sinHalf >= j.sinHalf;
  }

  function Min4(a: real, b: real, c: real, d: real): real { RMin(RMin(a, b), RMin(c, d)) }

  // Move.calc_junction
  function CalcJunction(prev: Limits, m: Limits, j: Junction): Limits
    requires JunctionOk(j)
  {
    if !m.kinematic || !prev.kinematic || j.cosTheta > 0.999999 then m
    else
      HalfAngles(j);
      var rJd := j.sinHalf / (1.0 - j.sinHalf);
      var tanHalf := j.sinHalf / j.cosHalf;
      var start := RMin(
        Min4(rJd * m.junctionDeviation * m.accel, rJd * prev.junctionDeviation * prev.accel,
             0.5 * m.moveD * tanHalf * m.accel, 0.5 * prev.moveD * tanHalf * prev.accel),
        Min4(j.extruderV2, m.maxCruiseV2, prev.maxCruiseV2, prev.maxStartV2 + prev.deltaV2));
      m.(maxStartV2 := start,
         maxSmoothedV2 := RMin(start, prev.maxSmoothedV2 + prev.smoothDeltaV2))
  }

  // What calc_junction promises about neighbours in the queue.
  predicate Linked(prev: Limits, m: Limits) {
    && m.maxStartV2 <= prev.maxCruiseV2
    && m.maxStartV2 <= prev.maxStartV2 + prev.deltaV2
    && m.maxSmoothedV2 == RMin(m.maxStartV2, prev.maxSmoothedV2 + prev.smoothDeltaV2)
  }

  lemma MulNonNeg(a: real, b: real)
    requires a >= 0.0 && b >= 0.0
    ensures a * b >= 0.0
  {
  }

  lemma CalcJunctionLinks(prev: Limits, m: Limits, j: Junction)
    requires Sane(prev) && Fresh(m) && JunctionOk(j)
    ensures Sane(CalcJunction(prev, m, j)) && Linked(prev, CalcJunction(prev, m, j))
  {
    if m.kinematic && prev.kinematic && j.cosTheta <= 0.999999 {
      HalfAngles(j);
      var rJd := j.sinHalf / (1.0 - j.sinHalf);
      var tanHalf := j.sinHalf / j.cosHalf;
      MulNonNeg(rJd, m.junctionDeviation);
      MulNonNeg(rJd * m.junctionDeviation, m.accel);
      MulNonNeg(rJd, prev.junctionDeviation);
      MulNonNeg(rJd * prev.junctionDeviation, prev.accel);
      MulNonNeg(0.5 * m.moveD, tanHalf);
      MulNonNeg(0.5 * m.moveD * tanHalf, m.accel);
      MulNonNeg(0.5 * prev.moveD, tanHalf);
      MulNonNeg(0.5 * prev.moveD * tanHalf, prev.accel);
    }
  }

  // The corner is taken on a circle that keeps within the junction deviation of it, and touches the move
  // no further away than its middle, at no more than the accel of the move.
  predicate CornerOk(m: Limits, j: Junction, v2: real) {
    && v2 * (1.0 - j.sinHalf) <= j.sinHalf * (m.junctionDeviation * m.accel)
    && v2 * j.cosHalf <= j.sinHalf * (0.5 * m.moveD * m.accel)
  }

  // A squared speed that both moves, the corner between them and the extruder allow.
  predicate JunctionAllows(prev: Limits, m: Limits, j: Junction, v2: real) {
    && CornerOk(prev, j, v2) && CornerOk(m, j, v2) && v2 <= j.extruderV2
    && v2 <= m.maxCruiseV2 && v2 <= prev.maxCruiseV2 && v2 <= prev.maxStartV2 + prev.deltaV2
  }

  predicate HasCorner(prev: Limits, m: Limits, j: Junction) { m.kinematic && prev.kinematic && j.cosTheta <= 0.999999 }

  lemma TimesQuotient(v: real, n: real, d: real, x: real, product: real)
    requires d > 0.0 && product == n / d * x
    ensures v <= product <==> v * d <= n * x
  {
    var y := n / d;
    assert y * d == n;
    assert (y * x) * d == n * x;
    assert (product - v) * d == n * x - v * d;
    assert product - v >= 0.0 ==> (product - v) * d >= 0.0;
    assert product - v < 0.0 ==> (product - v) * d < 0.0;
  }

  // Main theorem on corners: the start limit is the greatest speed that is allowed; after a reversal, and
  // for moves that only extrude, it stays 0.
  lemma CornerIs(prev: Limits, m: Limits, j: Junction)
    requires Sane(prev) && Fresh(m) && JunctionOk(j)
    ensures var v2 := CalcJunction(prev, m, j).maxStartV2;
      if HasCorner(prev, m, j) then
        JunctionAllows(prev, m, j, v2) && forall x :: JunctionAllows(prev, m, j, x) ==> x <= v2
      else CalcJunction(prev, m, j) == m && v2 == 0.0
  {
    if HasCorner(prev, m, j) {
      HalfAngles(j);
      var v2 := CalcJunction(prev, m, j).maxStartV2;
      CornerTerms(prev, m, j, v2);
      hide CornerOk, CalcJunction;
      forall x | JunctionAllows(prev, m, j, x) ensures x <= v2 {
        CornerTerms(prev, m, j, x);
      }
    }
  }

  // The bounds in the form in which the code computes them.
  function JunctionTerm(m: Limits, j: Junction): real
    requires j.sinHalf < 1.0
  {
    j.sinHalf / (1.0 - j.sinHalf) * (m.junctionDeviation * m.accel)
  }

  function CentripetalTerm(m: Limits, j: Junction): real
    requires j.cosHalf > 0.0
  {
    j.sinHalf / j.cosHalf * (0.5 * m.moveD * m.accel)
  }

  lemma CornerTerm(m: Limits, j: Junction, x: real)
    requires 0.0 <= j.sinHalf < 1.0 && j.cosHalf > 0.0
    ensures CornerOk(m, j, x) <==> x <= JunctionTerm(m, j) && x <= CentripetalTerm(m, j)
  {
    TimesQuotient(x, j.sinHalf, 1.0 - j.sinHalf, m.junctionDeviation * m.accel, JunctionTerm(m, j));
    TimesQuotient(x, j.sinHalf, j.cosHalf, 0.5 * m.moveD * m.accel, CentripetalTerm(m, j));
  }

  lemma CornerTerms(prev: Limits, m: Limits, j: Junction, x: real)
    requires HasCorner(prev, m, j) && JunctionOk(j) && 0.0 <= j.sinHalf < 1.0 && j.cosHalf > 0.0
    ensures JunctionAllows(prev, m, j, x) <==> x <= CalcJunction(prev, m, j).maxStartV2
  {
    CornerTerm(m, j, x);
    CornerTerm(prev, j, x);
    StartTerms(prev, m, j);
    hide CornerOk, CalcJunction, JunctionTerm, CentripetalTerm, JunctionOk;
  }

  lemma StartTerms(prev: Limits, m: Limits, j: Junction)
    requires HasCorner(prev, m, j) && JunctionOk(j) && 0.0 <= j.sinHalf < 1.0 && j.cosHalf > 0.0
    ensures CalcJunction(prev, m, j).maxStartV2 == RMin(
      Min4(JunctionTerm(m, j), JunctionTerm(prev, j), CentripetalTerm(m, j), CentripetalTerm(prev, j)),
      Min4(j.extruderV2, m.maxCruiseV2, prev.maxCruiseV2, prev.maxStartV2 + prev.deltaV2))
  {
    var rJd, tanHalf := j.sinHalf / (1.0 - j.sinHalf), j.sinHalf / j.cosHalf;
    assert rJd * m.junctionDeviation * m.accel == rJd * (m.junctionDeviation * m.accel);
    assert rJd * prev.junctionDeviation * prev.accel == rJd * (prev.junctionDeviation * prev.accel);
    assert 0.5 * m.moveD * tanHalf * m.accel == tanHalf * (0.5 * m.moveD * m.accel);
    assert 0.5 * prev.moveD * tanHalf * prev.accel == tanHalf * (0.5 * prev.moveD * prev.accel);
  }

  predicate WellFormed(q: seq<Limits>) {
    && (forall i :: 0 <= i < |q| ==> Sane(q[i]))
    && (forall i :: 0 < i < |q| ==> Linked(q[i-1], q[i]))
  }

  /* ----- The backward pass ----- */

  // The loop variables of flush after the suffix has been visited; `delayed` is the length of
  // the list of delayed moves.
  datatype Pass = Pass(endV2: real, smoothedV2: real, peakV2: real, delayed: nat)

  function ReachableSmoothed(m: Limits, p: Pass): real { p.smoothedV2 + m.smoothDeltaV2 }

  function Smoothed(m: Limits, p: Pass): real { RMin(m.maxSmoothedV2, ReachableSmoothed(m, p)) }

  predicate IsDelayed(m: Limits, p: Pass) { Smoothed(m, p) >= ReachableSmoothed(m, p) }

  // The branch of flush that fixes a new peak_cruise_v2.
  predicate IsPeak(m: Limits, p: Pass) {
    !IsDelayed(m, p) && (Smoothed(m, p) + m.smoothDeltaV2 > p.smoothedV2 || p.delayed > 0)
  }

  function PeakV2(m: Limits, p: Pass): real {
    RMin(m.maxCruiseV2, (Smoothed(m, p) + ReachableSmoothed(m, p)) * 0.5)
  }

  function Visit(m: Limits, p: Pass): Pass {
    var start := RMin(m.maxStartV2, p.endV2 + m.deltaV2);
    if IsDelayed(m, p) then Pass(start, Smoothed(m, p), p.peakV2, p.delayed + 1)
    else Pass(start, Smoothed(m, p), if IsPeak(m, p) then PeakV2(m, p) else p.peakV2, 0)
  }

  function PassOf(s: seq<Limits>): Pass {
    if |s| == 0 then Pass(0.0, 0.0, 0.0, 0) else Visit(s[0], PassOf(s[1..]))
  }

  function PassAt(q: seq<Limits>, i: nat): Pass
    requires i <= |q|
  {
    PassOf(q[i..])
  }

  lemma PassAtVisit(q: seq<Limits>, i: nat)
    requires i < |q|
    ensures PassAt(q, i) == Visit(q[i], PassAt(q, i + 1))
  {
    assert q[i..][1..] == q[i + 1..];
  }

  lemma PassAtEnd(q: seq<Limits>)
    ensures PassAt(q, |q|) == Pass(0.0, 0.0, 0.0, 0)
  {
  }

  predicate DelayedAt(q: seq<Limits>, i: nat)
    requires i < |q|
  {
    IsDelayed(q[i], PassAt(q, i + 1))
  }

  // The cruise bound that a run of delayed moves inherits from the peak in front of it.
  function Chain(q: seq<Limits>, i: nat): real
    requires i < |q|
  {
    if !DelayedAt(q, i) || i == 0 then PassAt(q, i).peakV2
    else RMin(Chain(q, i - 1), PassAt(q, i).endV2)
  }

  function CruiseAt(q: seq<Limits>, i: nat): real
    requires i < |q|
  {
    if DelayedAt(q, i) then Chain(q, i)
    else
      var start, next := PassAt(q, i).endV2, PassAt(q, i + 1).endV2;
      RMin(RMin((start + (next + q[i].deltaV2)) * 0.5, q[i].maxCruiseV2), PassAt(q, i).peakV2)
  }

  // The numbers given to set_junction for move i of queue q.
  function PlanAt(q: seq<Limits>, i: nat): Plan
    requires i < |q|
  {
    var c := CruiseAt(q, i);
    Plan(RMin(PassAt(q, i).endV2, c), c, RMin(PassAt(q, i + 1).endV2, c))
  }

  // The first index (counting down from i) where a lazy flush may cut, or 0.
  function LazyCut(q: seq<Limits>, i: nat): (k: nat)
    requires i <= |q|
    ensures k <= i
  {
    if i == 0 then 0
    else if IsPeak(q[i - 1], PassAt(q, i)) && PassAt(q, i).peakV2 != 0.0 then i - 1
    else LazyCut(q, i - 1)
  }

  // How many moves flush hands over.
  function FlushCount(q: seq<Limits>, lazy: bool): (k: nat)
    ensures k <= |q|
  {
    if lazy then LazyCut(q, |q|) else |q|
  }

  /* ----- Bounds on the pass ----- */

  lemma WellFormedTail(q: seq<Limits>, k: nat)
    requires WellFormed(q) && k <= |q|
    ensures WellFormed(q[k..])
  {
    var s := q[k..];
    forall i | 0 < i < |s| ensures Linked(s[i-1], s[i]) {
      assert s[i-1] == q[k+i-1] && s[i] == q[k+i];
    }
  }

  // The smoothed profile never exceeds the real one; while no move is delayed it never exceeds
  // the current peak.
  lemma {:induction false} PassBounds(s: seq<Limits>)
    requires WellFormed(s)
    ensures var p := PassOf(s);
      && 0.0 <= p.smoothedV2 <= p.endV2 && 0.0 <= p.peakV2
      && (p.delayed == 0 ==> p.smoothedV2 <= p.peakV2)
      && (s != [] ==> p.endV2 <= s[0].maxStartV2 && p.smoothedV2 <= s[0].maxSmoothedV2)
  {
    if s != [] {
      WellFormedTail(s, 1);
      PassBounds(s[1..]);
      if |s| > 1 {
        assert Linked(s[0], s[1]);
      }
    }
  }

  lemma BoundsAt(q: seq<Limits>, i: nat)
    requires WellFormed(q) && i < |q|
    ensures PassAt(q, i) == Visit(q[i], PassAt(q, i + 1))
    ensures var p := PassAt(q, i);
      && 0.0 <= p.smoothedV2 <= p.endV2 <= q[i].maxStartV2 && p.smoothedV2 <= q[i].maxSmoothedV2
      && 0.0 <= p.peakV2 && (p.delayed == 0 ==> p.smoothedV2 <= p.peakV2)
    ensures var n := PassAt(q, i + 1);
      && 0.0 <= n.smoothedV2 <= n.endV2 && 0.0 <= n.peakV2
      && (n.delayed == 0 ==> n.smoothedV2 <= n.peakV2)
      && n.endV2 <= q[i].maxCruiseV2
      && n.endV2 <= PassAt(q, i).endV2 + q[i].deltaV2
      && n.smoothedV2 <= q[i].maxSmoothedV2 + q[i].smoothDeltaV2
  {
    PassAtVisit(q, i);
    WellFormedTail(q, i);
    PassBounds(q[i..]);
    WellFormedTail(q, i + 1);
    PassBounds(q[i + 1..]);
    if i + 1 < |q| {
      assert Linked(q[i], q[i+1]);
    }
  }

  // Delayed moves still cruise at least as fast as the smoothed profile.
  lemma {:induction false} ChainBound(q: seq<Limits>, i: nat)
    requires WellFormed(q) && i < |q| && !DelayedAt(q, 0)
    ensures DelayedAt(q, i) ==> PassAt(q, i).smoothedV2 <= Chain(q, i) <= PassAt(q, i).endV2
    ensures PassAt(q, i + 1).delayed > 0 || DelayedAt(q, i) ==> PassAt(q, i + 1).smoothedV2 <= Chain(q, i)
  {
    BoundsAt(q, i);
    if DelayedAt(q, i) {
      ChainBound(q, i - 1);
    }
  }

  // A junction whose smoothed limit is not the binding one in front of it is a hard corner:
  // its smoothed speed is its own start limit.
  lemma HardCorner(q: seq<Limits>, i: nat)
    requires WellFormed(q) && i + 1 < |q| && !DelayedAt(q, i + 1)
    requires q[i].maxSmoothedV2 + q[i].smoothDeltaV2 > PassAt(q, i + 1).smoothedV2
    ensures PassAt(q, i + 1).smoothedV2 == PassAt(q, i + 1).endV2 == q[i + 1].maxStartV2
  {
    BoundsAt(q, i + 1);
    assert Linked(q[i], q[i+1]);
  }

  /* ----- The plan is continuous and feasible ----- */

  // Away from delayed moves only the peak can lower a start or end speed.
  lemma PlanEnds(q: seq<Limits>, i: nat)
    requires WellFormed(q) && i < |q| && !DelayedAt(q, i)
    ensures PlanAt(q, i).startV2 == RMin(PassAt(q, i).endV2, PassAt(q, i).peakV2)
    ensures PlanAt(q, i).endV2 == RMin(PassAt(q, i + 1).endV2, PassAt(q, i).peakV2)
  {
    BoundsAt(q, i);
  }

  // Speed is continuous inside one planned queue.
  lemma PlanContinuous(q: seq<Limits>, i: nat)
    requires WellFormed(q) && i + 1 < |q| && !DelayedAt(q, 0)
    ensures PlanAt(q, i).endV2 == PlanAt(q, i + 1).startV2
  {
    BoundsAt(q, i);
    BoundsAt(q, i + 1);
    ChainBound(q, i);
    ChainBound(q, i + 1);
    if !DelayedAt(q, i) { PlanEnds(q, i); }
    if !DelayedAt(q, i + 1) {
      PlanEnds(q, i + 1);
      if DelayedAt(q, i) || IsPeak(q[i], PassAt(q, i + 1)) {
        HardCorner(q, i);
      }
    }
  }

  // The plan ends at rest after the last queued move.
  lemma PlanStops(q: seq<Limits>)
    requires WellFormed(q) && |q| > 0 && !DelayedAt(q, 0)
    ensures PlanAt(q, |q| - 1).endV2 == 0.0
  {
    BoundsAt(q, |q| - 1);
    ChainBound(q, |q| - 1);
  }

  function AccelD(m: Limits, p: Plan): real
    requires m.accel > 0.0
  {
    (p.cruiseV2 - p.startV2) * (0.5 / m.accel)
  }

  function DecelD(m: Limits, p: Plan): real
    requires m.accel > 0.0
  {
    (p.cruiseV2 - p.endV2) * (0.5 / m.accel)
  }

  predicate Feasible(m: Limits, p: Plan) {
    && m.accel > 0.0
    && 0.0 <= p.startV2 <= p.cruiseV2 && 0.0 <= p.endV2 <= p.cruiseV2
    && 0.0 < p.cruiseV2 <= m.maxCruiseV2
    && p.startV2 <= m.maxStartV2
    && AccelD(m, p) >= 0.0 && DecelD(m, p) >= 0.0
    && AccelD(m, p) + DecelD(m, p) <= m.moveD
  }

  // The limits of a plan in squared speeds, and that its changes of speed fit into the move.
  predicate WithinReach(m: Limits, p: Plan) {
    && 0.0 <= p.startV2 <= p.cruiseV2 && 0.0 <= p.endV2 <= p.cruiseV2
    && 0.0 < p.cruiseV2 <= m.maxCruiseV2 && p.startV2 <= m.maxStartV2
    && 2.0 * p.cruiseV2 - p.startV2 - p.endV2 <= m.deltaV2
  }

  // Squared speeds within reach of each other need no more than the move's distance.
  lemma DistancesFit(m: Limits, p: Plan)
    requires Sane(m) && WithinReach(m, p)
    ensures Feasible(m, p)
  {
    var h := 0.5 / m.accel;
    var x, y := p.cruiseV2 - p.startV2, p.cruiseV2 - p.endV2;
    assert h > 0.0 && h * m.accel == 0.5;
    MulNonNeg(x, h);
    MulNonNeg(y, h);
    MulNonNeg(2.0 * m.moveD * m.accel - (x + y), h);
    assert 2.0 * m.moveD * m.accel * h == 2.0 * m.moveD * (m.accel * h);
  }

  lemma PlanBounds(q: seq<Limits>, i: nat)
    requires WellFormed(q) && i < |q| && !DelayedAt(q, 0)
    ensures WithinReach(q[i], PlanAt(q, i))
  {
    BoundsAt(q, i);
    ChainBound(q, i);
  }

  lemma PlanFeasible(q: seq<Limits>, i: nat)
    requires WellFormed(q) && i < |q| && !DelayedAt(q, 0)
    ensures Feasible(q[i], PlanAt(q, i))
  {
    var m, p := q[i], PlanAt(q, i);
    PlanBounds(q, i);
    DistancesFit(m, p);
  }

  /* ----- Lazy flushes: later moves cannot change what was already sent ----- */

  // More moves behind can only raise both profiles.
  lemma {:induction false} PassMonotone(s: seq<Limits>, ext: seq<Limits>)
    requires WellFormed(s + ext)
    ensures PassOf(s).endV2 <= PassOf(s + ext).endV2
    ensures PassOf(s).smoothedV2 <= PassOf(s + ext).smoothedV2
  {
    if s == [] {
      assert s + ext == ext;
      PassBounds(ext);
    } else {
      assert (s + ext)[1..] == s[1..] + ext;
      WellFormedTail(s + ext, 1);
      PassMonotone(s[1..], ext);
    }
  }

  // Behind a peak the smoothed profile is settled, whatever is queued later.
  lemma {:induction false} PassSettled(s: seq<Limits>, ext: seq<Limits>)
    requires WellFormed(s + ext) && PassOf(s).peakV2 != 0.0
    ensures PassOf(s + ext).smoothedV2 == PassOf(s).smoothedV2
    ensures PassOf(s + ext).delayed == PassOf(s).delayed
  {
    assert (s + ext)[1..] == s[1..] + ext;
    WellFormedTail(s + ext, 1);
    PassMonotone(s[1..], ext);
    if PassOf(s[1..]).peakV2 != 0.0 {
      PassSettled(s[1..], ext);
    }
  }

  // The speed at a settled peak is fixed by the move's own limit and the peak.
  lemma StartAtPeak(q: seq<Limits>, k: nat)
    requires WellFormed(q) && k < |q| && IsPeak(q[k], PassAt(q, k + 1))
    ensures PlanAt(q, k).startV2 == RMin(q[k].maxStartV2, PeakV2(q[k], PassAt(q, k + 1)))
  {
    BoundsAt(q, k);
    PlanEnds(q, k);
  }

  // In whatever way the queue q goes on, its first move is planned and starts at speed e.
  ghost predicate Committed(q: seq<Limits>, e: real) {
    if q == [] then e == 0.0
    else forall ext :: WellFormed(q + ext) ==> StartsAt(q + ext, e)
  }

  predicate StartsAt(q: seq<Limits>, e: real)
    requires q != []
  {
    !DelayedAt(q, 0) && PlanAt(q, 0).startV2 == e
  }

  // The heart of the lazy flush: once a cut is made at k, every continuation of the moves
  // left behind starts at exactly the speed at which the executed part ends.
  lemma CutCommits(q: seq<Limits>, k: nat)
    requires WellFormed(q) && 0 < k < |q| && !DelayedAt(q, 0)
    requires IsPeak(q[k], PassAt(q, k + 1)) && PassAt(q, k + 1).peakV2 != 0.0
    ensures Committed(q[k..], PlanAt(q, k - 1).endV2)
  {
    var e := PlanAt(q, k - 1).endV2;
    PlanContinuous(q, k - 1);
    StartAtPeak(q, k);
    forall ext | WellFormed(q[k..] + ext) ensures StartsAt(q[k..] + ext, e) {
      var r := q[k..] + ext;
      assert r[1..] == q[k + 1..] + ext;
      WellFormedTail(r, 1);
      PassSettled(q[k + 1..], ext);
      assert IsPeak(r[0], PassAt(r, 1));
      StartAtPeak(r, 0);
    }
  }

  lemma {:induction false} LazyCutIsPeak(q: seq<Limits>, i: nat)
    requires i <= |q|
    ensures var k := LazyCut(q, i);
      k > 0 ==> k < |q| && IsPeak(q[k], PassAt(q, k + 1)) && PassAt(q, k + 1).peakV2 != 0.0
  {
    if i > 0 {
      LazyCutIsPeak(q, i - 1);
    }
  }

  /* ----- Whole runs ----- */

  // A move that was handed to _process_moves, with its plan.
  datatype Sent = Sent(limits: Limits, plan: Plan)

  datatype State = State(queue: seq<Limits>, junctionFlush: real, sent: seq<Sent>)

  datatype Op = Add(move: Limits, junction: Junction) | Flush(lazy: bool)

  const InitState := State([], LOOKAHEAD_FLUSH_TIME, [])

  function Batch(q: seq<Limits>, k: nat): (b: seq<Sent>)
    requires k <= |q|
    ensures |b| == k
  {
    seq(k, i requires 0 <= i < k => Sent(q[i], PlanAt(q, i)))
  }

  function FlushStep(s: State, lazy: bool): State {
    var k := FlushCount(s.queue, lazy);
    State(s.queue[k..], LOOKAHEAD_FLUSH_TIME, s.sent + Batch(s.queue, k))
  }

  // add_move before it considers flushing.
  function Queued(s: State, m: Limits, j: Junction): State
    requires JunctionOk(j)
  {
    if s.queue == [] then s.(queue := [m])
    else
      var m1 := CalcJunction(s.queue[|s.queue| - 1], m, j);
      State(s.queue + [m1], s.junctionFlush - m1.minMoveT, s.sent)
  }

  function AddStep(s: State, m: Limits, j: Junction): State
    requires JunctionOk(j)
  {
    var s1 := Queued(s, m, j);
    if s.queue != [] && s1.junctionFlush <= 0.0 then FlushStep(s1, true) else s1
  }

  predicate OpOk(op: Op) {
    op.Add? ==> Fresh(op.move) && JunctionOk(op.junction)
  }

  function Step(s: State, op: Op): State
    requires OpOk(op)
  {
    match op
    case Add(m, j) => AddStep(s, m, j)
    case Flush(lazy) => FlushStep(s, lazy)
  }

  function Run(ops: seq<Op>): State
    requires forall op :: op in ops ==> OpOk(op)
  {
    if ops == [] then InitState else Step(Run(ops[..|ops| - 1]), ops[|ops| - 1])
  }

  function LastEnd(sent: seq<Sent>): real {
    if sent == [] then 0.0 else sent[|sent| - 1].plan.endV2
  }

  // What the printer may rely on about everything it was ever told to execute.
  predicate Safe(sent: seq<Sent>) {
    && Chained(sent)
    && (sent != [] ==> sent[0].plan.startV2 == 0.0)
  }

  predicate Chained(sent: seq<Sent>) {
    && (forall i :: 0 <= i < |sent| ==> Feasible(sent[i].limits, sent[i].plan))
    && (forall i :: 0 < i < |sent| ==> sent[i-1].plan.endV2 == sent[i].plan.startV2)
  }

  ghost predicate Inv(s: State) {
    WellFormed(s.queue) && Committed(s.queue, LastEnd(s.sent)) && Safe(s.sent)
  }

  lemma BatchChained(q: seq<Limits>, k: nat)
    requires WellFormed(q) && k <= |q| && q != [] && !DelayedAt(q, 0)
    ensures Chained(Batch(q, k))
  {
    var b := Batch(q, k);
    forall i | 0 <= i < k ensures Feasible(b[i].limits, b[i].plan) {
      PlanFeasible(q, i);
    }
    forall i | 0 < i < k ensures b[i-1].plan.endV2 == b[i].plan.startV2 {
      PlanContinuous(q, i - 1);
    }
  }

  lemma SafeAppend(sent: seq<Sent>, b: seq<Sent>)
    requires Safe(sent) && Chained(b) && b != [] && b[0].plan.startV2 == LastEnd(sent)
    ensures Safe(sent + b) && LastEnd(sent + b) == b[|b| - 1].plan.endV2
  {
  }

  lemma FlushStepKeepsInv(s: State, lazy: bool)
    requires Inv(s)
    ensures Inv(FlushStep(s, lazy))
    ensures !lazy ==> FlushStep(s, lazy).queue == [] && LastEnd(FlushStep(s, lazy).sent) == 0.0
  {
    var q, k := s.queue, FlushCount(s.queue, lazy);
    if k == 0 {
      assert q[0..] == q && s.sent + Batch(q, 0) == s.sent;
    } else {
      assert q + [] == q;
      assert StartsAt(q, LastEnd(s.sent));
      BatchChained(q, k);
      SafeAppend(s.sent, Batch(q, k));
      WellFormedTail(q, k);
      if k == |q| {
        PlanStops(q);
      } else {
        LazyCutIsPeak(q, |q|);
        CutCommits(q, k);
      }
    }
  }

  lemma CommittedExtends(q: seq<Limits>, m: Limits, e: real)
    requires q != [] && Committed(q, e)
    ensures Committed(q + [m], e)
  {
    forall ext | WellFormed(q + [m] + ext) ensures StartsAt(q + [m] + ext, e) {
      assert q + [m] + ext == q + ([m] + ext);
    }
  }

  // The first move after a stop starts at rest.
  lemma FreshCommits(m: Limits)
    requires Fresh(m)
    ensures Committed([m], 0.0)
  {
    forall ext | WellFormed([m] + ext) ensures StartsAt([m] + ext, 0.0) {
      BoundsAt([m] + ext, 0);
    }
  }

  lemma QueuedKeepsInv(s: State, m: Limits, j: Junction)
    requires Inv(s) && Fresh(m) && JunctionOk(j)
    ensures Inv(Queued(s, m, j))
  {
    if s.queue == [] {
      FreshCommits(m);
    } else {
      CalcJunctionLinks(s.queue[|s.queue| - 1], m, j);
      CommittedExtends(s.queue, CalcJunction(s.queue[|s.queue| - 1], m, j), LastEnd(s.sent));
    }
  }

  lemma AddStepKeepsInv(s: State, m: Limits, j: Junction)
    requires Inv(s) && Fresh(m) && JunctionOk(j)
    ensures Inv(AddStep(s, m, j))
  {
    QueuedKeepsInv(s, m, j);
    FlushStepKeepsInv(Queued(s, m, j), true);
  }

  // Main theorem: over any run of additions and lazy or full flushes, every executed move has
  // a feasible plan and speed never jumps between consecutive executed moves.
  lemma {:induction false} RunIsSafe(ops: seq<Op>)
    requires forall op :: op in ops ==> OpOk(op)
    ensures Inv(Run(ops)) && Safe(Run(ops).sent)
    ensures ops != [] && ops[|ops| - 1] == Flush(false) ==>
      Run(ops).queue == [] && LastEnd(Run(ops).sent) == 0.0
  {
    if ops != [] {
      var s := Run(ops[..|ops| - 1]);
      assert OpOk(ops[|ops| - 1]);
      RunIsSafe(ops[..|ops| - 1]);
      match ops[|ops| - 1]
      case Add(m, j) => AddStepKeepsInv(s, m, j);
      case Flush(lazy) => FlushStepKeepsInv(s, lazy);
    }
  }

  // The least time of the moves that joined others since a flush was last considered.
  function Waiting(ops: seq<Op>): real
    requires forall op :: op in ops ==> OpOk(op)
  {
    if ops == [] then 0.0
    else
      var n := |ops| - 1;
      match ops[n]
      case Flush(_) => 0.0
      case Add(m, _) =>
        if Run(ops[..n]).queue == [] then Waiting(ops[..n])
        else if Waiting(ops[..n]) + m.minMoveT >= LOOKAHEAD_FLUSH_TIME then 0.0
        else Waiting(ops[..n]) + m.minMoveT
  }

  // Over any run the planner considers a lazy flush exactly when moves of LOOKAHEAD_FLUSH_TIME have
  // joined others since it last did.
  lemma {:induction false} FlushesInTime(ops: seq<Op>)
    requires forall op :: op in ops ==> OpOk(op)
    ensures Run(ops).junctionFlush == LOOKAHEAD_FLUSH_TIME - Waiting(ops) > 0.0
  {
    hide FlushCount, Batch, PlanAt;
    if ops != [] {
      var n := |ops| - 1;
      assert OpOk(ops[n]);
      FlushesInTime(ops[..n]);
    }
  }

  // Every move ever added, in order: flushing neither loses, repeats nor reorders any.
  function Moves(s: State): seq<Limits> {
    seq(|s.sent|, i requires 0 <= i < |s.sent| => s.sent[i].limits) + s.queue
  }

  lemma FlushKeepsMoves(s: State, lazy: bool)
    ensures Moves(FlushStep(s, lazy)) == Moves(s)
    ensures s.sent <= FlushStep(s, lazy).sent
  {
    var k := FlushCount(s.queue, lazy);
    assert s.queue == s.queue[..k] + s.queue[k..];
  }

  lemma AddKeepsMoves(s: State, m: Limits, j: Junction)
    requires JunctionOk(j)
    ensures var ms := Moves(AddStep(s, m, j));
      && |ms| == |Moves(s)| + 1 && ms[..|ms| - 1] == Moves(s)
      && ms[|ms| - 1].moveD == m.moveD && ms[|ms| - 1].accel == m.accel
      && ms[|ms| - 1].maxCruiseV2 == m.maxCruiseV2
    ensures s.sent <= AddStep(s, m, j).sent
  {
    var s1 := Queued(s, m, j);
    assert Moves(s1) == Moves(s) + [s1.queue[|s1.queue| - 1]];
    FlushKeepsMoves(s1, true);
  }

  /* ----- The planner itself ----- */

  class Move {
    var limits: Limits
    var plan: Option<Plan>

    constructor (l: Limits)
      ensures limits == l && plan == None
    {
      limits, plan := l, None;
    }

    // Move.calc_junction: only the start limits of this move change.
    method LinkTo(prev: Move, j: Junction)
      requires JunctionOk(j)
      modifies this`limits
      ensures limits == CalcJunction(old(prev.limits), old(limits), j)
    {
      limits := CalcJunction(prev.limits, limits, j);
    }

    method SetJunction(startV2: real, cruiseV2: real, endV2: real)
      modifies this`plan
      ensures plan == Some(Plan(startV2, cruiseV2, endV2))
    {
      plan := Some(Plan(startV2, cruiseV2, endV2));
    }
  }

  ghost function LimitsOf(ms: seq<Move>): (r: seq<Limits>)
    reads ms
    ensures |r| == |ms|
  {
    seq(|ms|, i requires 0 <= i < |ms| reads ms => ms[i].limits)
  }

  ghost predicate AllPlanned(ms: seq<Move>)
    reads ms
  {
    forall i :: 0 <= i < |ms| ==> ms[i].plan.Some?
  }

  ghost function SentOf(ms: seq<Move>): (r: seq<Sent>)
    reads ms
    requires AllPlanned(ms)
    ensures |r| == |ms|
  {
    seq(|ms|, i requires 0 <= i < |ms| && ms[i].plan.Some? reads ms => Sent(ms[i].limits, ms[i].plan.value))
  }

  ghost predicate Distinct(ms: seq<Move>) {
    forall i, j :: 0 <= i < j < |ms| ==> ms[i] != ms[j]
  }

  lemma DistinctFrom(ms: seq<Move>, i: nat)
    requires Distinct(ms) && i < |ms|
    ensures forall j :: 0 <= j < |ms| && j != i ==> ms[j] != ms[i]
  {
  }

  ghost predicate Apart(sent: seq<Move>, queue: seq<Move>) {
    forall i, j :: 0 <= i < |sent| && 0 <= j < |queue| ==> sent[i] != queue[j]
  }

  // The numbers that flush computes for a move that is not delayed.
  lemma PlanAtMove(q: seq<Limits>, i: nat)
    requires i < |q| && !DelayedAt(q, i)
    ensures
      var startV2, nextEndV2 := PassAt(q, i).endV2, PassAt(q, i + 1).endV2;
      var cruiseV2 := RMin(RMin((startV2 + (nextEndV2 + q[i].deltaV2)) * 0.5, q[i].maxCruiseV2), PassAt(q, i).peakV2);
      PlanAt(q, i) == Plan(RMin(startV2, cruiseV2), cruiseV2, RMin(nextEndV2, cruiseV2))
  {
  }

  // An entry of the delayed list: a delayed move, its start speed and that of its successor.
  ghost predicate IsEntry(entry: (Move, real, real), ms: seq<Move>, q: seq<Limits>, j: int) {
    && 0 <= j < |q| == |ms| && DelayedAt(q, j)
    && entry.0 == ms[j] && entry.1 == PassAt(q, j).endV2 && entry.2 == PassAt(q, j + 1).endV2
  }

  // The delayed list holds the moves i .. i + |delayed| of ms, latest index first.
  ghost predicate DelayedIs(delayed: seq<(Move, real, real)>, ms: seq<Move>, q: seq<Limits>, i: nat) {
    forall d :: 0 <= d < |delayed| ==> IsEntry(delayed[d], ms, q, i + |delayed| - 1 - d)
  }

  lemma EntryAt(delayed: seq<(Move, real, real)>, ms: seq<Move>, q: seq<Limits>, i: nat, d: nat)
    requires d < |delayed| && DelayedIs(delayed, ms, q, i + 1)
    ensures var j := i + |delayed| - d;
      j < |q| == |ms| && DelayedAt(q, j) && delayed[d] == (ms[j], PassAt(q, j).endV2, PassAt(q, j + 1).endV2)
  {
    assert IsEntry(delayed[d], ms, q, i + |delayed| - d);
  }

  // The speed that is handed down the delayed moves, and the plan it gives.
  lemma ChainStart(q: seq<Limits>, i: nat)
    requires i < |q| && !DelayedAt(q, i)
    ensures Chain(q, i) == PassAt(q, i).peakV2
  {
  }

  lemma ChainNext(q: seq<Limits>, j: nat)
    requires 0 < j < |q| && DelayedAt(q, j)
    ensures var s, e := PassAt(q, j).endV2, PassAt(q, j + 1).endV2;
      Chain(q, j) == RMin(Chain(q, j - 1), s)
        && PlanAt(q, j) == Plan(RMin(s, Chain(q, j)), Chain(q, j), RMin(e, Chain(q, j)))
  {
  }

  lemma DelayedGrows(delayed: seq<(Move, real, real)>, ms: seq<Move>, q: seq<Limits>, i: nat)
    requires 0 < i <= |q| == |ms| && DelayedIs(delayed, ms, q, i) && DelayedAt(q, i - 1)
    ensures DelayedIs(delayed + [(ms[i-1], PassAt(q, i - 1).endV2, PassAt(q, i).endV2)], ms, q, i - 1)
  {
  }

  lemma FirstIsPlanned(s: State)
    requires Inv(s)
    ensures PassAt(s.queue, 0).delayed == 0
  {
    assert s.queue[0..] == s.queue;
    assert s.queue + [] == s.queue;
    assert s.queue != [] ==> StartsAt(s.queue, LastEnd(s.sent));
  }

  lemma LazyCutVisit(q: seq<Limits>, i: nat)
    requires i <= |q|
    ensures LazyCut(q, i) ==
      if i == 0 then 0
      else if IsPeak(q[i - 1], PassAt(q, i)) && PassAt(q, i).peakV2 != 0.0 then i - 1
      else LazyCut(q, i - 1)
  {
  }

  // The state of the search for a lazy cut when the moves from i on have been visited.
  ghost predicate CutIs(q: seq<Limits>, lazy: bool, searching: bool, flushCount: nat, i: nat, delayed: nat) {
    && i <= |q|
    && (searching ==> lazy && flushCount == |q| && LazyCut(q, |q|) == LazyCut(q, i))
    && (!searching ==> flushCount == FlushCount(q, lazy) && i + delayed <= flushCount)
  }

  class LookAheadQueue {
    var queue: seq<Move>
    var junctionFlush: real
    ghost var sent: seq<Move>  // everything handed to ToolHead._process_moves so far

    ghost predicate Valid()
      reads this, queue, sent
    {
      && Distinct(queue) && Apart(sent, queue) && AllPlanned(sent)
      && Inv(View())
    }

    ghost function View(): State
      reads this, queue, sent
      requires AllPlanned(sent)
    {
      State(LimitsOf(queue), junctionFlush, SentOf(sent))
    }

    constructor ()
      ensures Valid() && View() == InitState
    {
      queue, junctionFlush, sent := [], LOOKAHEAD_FLUSH_TIME, [];
    }

    // The loop of flush over reversed(delayed), for a peak found at index i of the moves ms.
    method PropagatePeak(delayed: seq<(Move, real, real)>, peakCruiseV2: real,
                         ghost ms: seq<Move>, ghost q: seq<Limits>, ghost i: nat)
      requires |ms| == |q| && Distinct(ms) && i + |delayed| < |q|
      requires i < |q| && !DelayedAt(q, i) && peakCruiseV2 == PassAt(q, i).peakV2
      requires DelayedIs(delayed, ms, q, i + 1)
      modifies ms`plan
      ensures forall j :: i < j <= i + |delayed| ==> ms[j].plan == Some(PlanAt(q, j))
      ensures forall j :: 0 <= j < |ms| && !(i < j <= i + |delayed|) ==> ms[j].plan == old(ms[j].plan)
    {
      hide Distinct, DelayedAt, PassAt, PlanAt, Chain, DelayedIs, IsEntry;
      ChainStart(q, i);
      var mcV2 := peakCruiseV2;
      var d := |delayed|;
      while d > 0
        invariant 0 <= d <= |delayed|
        invariant mcV2 == Chain(q, i + |delayed| - d)
        invariant forall j :: i < j <= i + |delayed| - d ==> ms[j].plan == Some(PlanAt(q, j))
        invariant forall j :: 0 <= j < |ms| && !(i < j <= i + |delayed|) ==> ms[j].plan == old(ms[j].plan)
      {
        d := d - 1;
        var (m, msV2, meV2) := delayed[d];
        ghost var j := i + |delayed| - d;
        EntryAt(delayed, ms, q, i, d);
        DistinctFrom(ms, j);
        ChainNext(q, j);
        mcV2 := RMin(mcV2, msV2);
        m.SetJunction(RMin(msV2, mcV2), mcV2, RMin(meV2, mcV2));
      }
    }

    // The backward traversal of flush: finds how many moves can be handed over and plans them.
    method PlanQueue(lazy: bool, ghost q: seq<Limits>) returns (flushCount: nat)
      requires Distinct(queue) && q == LimitsOf(queue)
      requires PassAt(q, 0).delayed == 0
      modifies queue`plan
      ensures flushCount == FlushCount(q, lazy)
      ensures forall j :: 0 <= j < flushCount ==> queue[j].plan == Some(PlanAt(q, j))
    {
      hide PlanAt, LazyCut, PassAt, PassOf, Distinct;
      PassAtEnd(q);
      var updateFlushCount := lazy;
      flushCount := |queue|;
      var delayed: seq<(Move, real, real)> := [];
      var nextEndV2, nextSmoothedV2, peakCruiseV2 := 0.0, 0.0, 0.0;
      var i := |queue|;
      while i > 0
        invariant 0 <= i <= |queue| && flushCount <= |queue|
        invariant Pass(nextEndV2, nextSmoothedV2, peakCruiseV2, |delayed|) == PassAt(q, i)
        invariant i + |delayed| <= |queue| && DelayedIs(delayed, queue, q, i)
        invariant CutIs(q, lazy, updateFlushCount, flushCount, i, |delayed|)
        invariant !updateFlushCount ==>
          forall j :: i + |delayed| <= j < flushCount ==> queue[j].plan == Some(PlanAt(q, j))
      {
        i := i - 1;
        PassAtVisit(q, i);
        LazyCutVisit(q, i + 1);
        var move := queue[i];
        assert move.limits == q[i];
        DistinctFrom(queue, i);
        var reachableStartV2 := nextEndV2 + move.limits.deltaV2;
        var startV2 := RMin(move.limits.maxStartV2, reachableStartV2);
        var reachableSmoothedV2 := nextSmoothedV2 + move.limits.smoothDeltaV2;
        var smoothedV2 := RMin(move.limits.maxSmoothedV2, reachableSmoothedV2);
        if smoothedV2 < reachableSmoothedV2 {
          var run := [];  // the delayed moves whose peak is found here
          if smoothedV2 + move.limits.smoothDeltaV2 > nextSmoothedV2 || |delayed| > 0 {
            if updateFlushCount && peakCruiseV2 != 0.0 {
              flushCount := i;
              updateFlushCount := false;
            }
            peakCruiseV2 := RMin(move.limits.maxCruiseV2, (smoothedV2 + reachableSmoothedV2) * 0.5);
            run, delayed := delayed, [];
          }
          if !updateFlushCount && i < flushCount {
            PropagatePeak(run, peakCruiseV2, queue, q, i);
            var cruiseV2 := RMin(RMin((startV2 + reachableStartV2) * 0.5, move.limits.maxCruiseV2), peakCruiseV2);
            PlanAtMove(q, i);
            move.SetJunction(RMin(startV2, cruiseV2), cruiseV2, RMin(nextEndV2, cruiseV2));
          }
        } else {
          DelayedGrows(delayed, queue, q, i + 1);
          delayed := delayed + [(move, startV2, nextEndV2)];
        }
        nextEndV2 := startV2;
        nextSmoothedV2 := smoothedV2;
      }
      LazyCutVisit(q, 0);
      if updateFlushCount {
        flushCount := 0;
      }
    }

    // LookAheadQueue.flush: plan, hand the planned moves over, drop them from the queue.
    method Flush(lazy: bool)
      requires Valid()
      modifies this, queue`plan
      ensures Valid() && View() == FlushStep(old(View()), lazy)
      ensures sent + queue == old(sent + queue)
    {
      hide Inv, FlushStep, FlushCount, PlanAt, PassAt, PassOf, LazyCut, Distinct, Batch, LastEnd;
      ghost var before := View();
      ghost var q := before.queue;
      FirstIsPlanned(before);
      FlushStepKeepsInv(before, lazy);
      junctionFlush := LOOKAHEAD_FLUSH_TIME;
      var flushCount := PlanQueue(lazy, q);
      assert forall m :: m in sent ==> m.plan == old(m.plan) && m.limits == old(m.limits);
      assert LimitsOf(queue) == q && SentOf(sent) == before.sent;
      HandOver(flushCount, lazy, before);
    }

    // add_move up to its flush test.
    method Enqueue(move: Move, j: Junction)
      requires Valid() && move !in queue && move !in sent
      requires Fresh(move.limits) && JunctionOk(j)
      modifies this`queue, this`junctionFlush, move`limits
      ensures Valid() && View() == Queued(old(View()), old(move.limits), j)
      ensures sent == old(sent) && queue == old(queue) + [move]
    {
      hide Inv, CalcJunction, JunctionOk, Sane, Fresh;
      ghost var before := View();
      QueuedKeepsInv(before, move.limits, j);
      if |queue| > 0 {
        move.LinkTo(queue[|queue| - 1], j);
        junctionFlush := junctionFlush - move.limits.minMoveT;
      }
      queue := queue + [move];
      assert LimitsOf(queue) == before.queue + [move.limits];
      assert SentOf(sent) == before.sent;
      assert View() == Queued(before, old(move.limits), j);
    }

    // LookAheadQueue.add_move
    method AddMove(move: Move, j: Junction)
      requires Valid() && move !in queue && move !in sent
      requires Fresh(move.limits) && JunctionOk(j)
      modifies this, queue`plan, move
      ensures Valid() && View() == AddStep(old(View()), old(move.limits), j)
      ensures sent + queue == old(sent + queue) + [move]
    {
      var wasEmpty := |queue| == 0;
      Enqueue(move, j);
      assert sent + queue == old(sent + queue) + [move];
      if !wasEmpty && junctionFlush <= 0.0 {
        Flush(true);
      }
    }

    // The end of flush: _process_moves receives the planned moves, the queue keeps the rest.
    method HandOver(flushCount: nat, ghost lazy: bool, ghost before: State)
      requires Distinct(queue) && Apart(sent, queue) && AllPlanned(sent)
      requires View() == before.(junctionFlush := LOOKAHEAD_FLUSH_TIME)
      requires flushCount == FlushCount(before.queue, lazy)
      requires forall j :: 0 <= j < flushCount ==> queue[j].plan == Some(PlanAt(before.queue, j))
      modifies this`sent, this`queue
      ensures Distinct(queue) && Apart(sent, queue) && AllPlanned(sent)
      ensures View() == FlushStep(before, lazy)
      ensures sent + queue == old(sent + queue)
    {
      hide PlanAt, FlushCount;
      ghost var handedOver, all := queue[..flushCount], sent + queue;
      assert SentOf(handedOver) == Batch(before.queue, flushCount);
      sent := sent + queue[..flushCount];
      queue := queue[flushCount..];
      assert sent + queue == all;
      assert LimitsOf(queue) == before.queue[flushCount..];
      assert SentOf(sent) == before.sent + Batch(before.queue, flushCount);
    }
  }
}
