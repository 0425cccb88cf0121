/**
 The trapezoid queue (trapq.c) and what set_junction of toolhead.py puts into it.

 Times, positions and speeds are exact reals.  The linked list of moves is a sequence with the
 two sentinels at its ends.
 */
module Trapq {
  import opened Basics
  import LookAhead

  const NEVER_TIME: real := 9999999999999999.9
  const MAX_NULL_MOVE: real := 1.0

  datatype Coord = Coord(x: real, y: real, z: real)

  // struct move
  datatype Move = Move(printTime: real, moveT: real, startV: real, halfAccel: real,
                       startPos: Coord, axesR: Coord)

  const ORIGIN := Coord(0.0, 0.0, 0.0)
  const HEAD := Move(0.0, 0.0, 0.0, 0.0, ORIGIN, ORIGIN)
  const TAIL := Move(NEVER_TIME, NEVER_TIME, 0.0, 0.0, ORIGIN, ORIGIN)

  // move_get_distance
  function Distance(m: Move, t: real): real { (m.startV + m.halfAccel * t) * t }

  function Along(p: Coord, r: Coord, d: real): Coord { Coord(p.x + r.x * d, p.y + r.y * d, p.z + r.z * d) }

  // move_get_coord
  function CoordAt(m: Move, t: real): Coord { Along(m.startPos, m.axesR, Distance(m, t)) }

  function SpeedAt(m: Move, t: real): real { m.startV + 2.0 * m.halfAccel * t }

  function EndTime(m: Move): real { m.printTime + m.moveT }

  function EndPos(m: Move): Coord { CoordAt(m, m.moveT) }

  function EndSpeed(m: Move): real { SpeedAt(m, m.moveT) }

  // Along the direction of a move, its length leads from its start to its end.
  lemma ReachesEnd(p: Coord, e: Coord, d: real)
    requires d != 0.0
    ensures Along(p, Coord((e.x - p.x) / d, (e.y - p.y) / d, (e.z - p.z) / d), d) == e
  {
    TimesInverse(e.x - p.x, d);
    TimesInverse(e.y - p.y, d);
    TimesInverse(e.z - p.z, d);
  }

  lemma TimesInverse(x: real, d: real)
    requires d != 0.0
    ensures x / d * d == x
  {
  }

  lemma AlongAdd(p: Coord, r: Coord, a: real, b: real)
    ensures Along(Along(p, r, a), r, b) == Along(p, r, a + b)
  {
  }

  /* ----- The numbers of set_junction ----- */

  datatype Trapezoid = Trapezoid(startV: real, cruiseV: real, endV: real,
                                 accelT: real, cruiseT: real, decelT: real)

  // v is the square root of v2.
  predicate IsRoot(v: real, v2: real) { v >= 0.0 && v * v == v2 }

  predicate RootsOf(p: LookAhead.Plan, startV: real, cruiseV: real, endV: real) {
    IsRoot(startV, p.startV2) && IsRoot(cruiseV, p.cruiseV2) && IsRoot(endV, p.endV2)
  }

  lemma RootPositive(v: real, v2: real)
    requires IsRoot(v, v2) && v2 > 0.0
    ensures v > 0.0
  {
  }

  // The time to cover d while the speed changes evenly between u and v.
  function TimeOver(d: real, u: real, v: real): real
    requires u + v > 0.0
  {
    d / ((u + v) * 0.5)
  }

  // Move.set_junction, with the square roots given.
  function SetJunction(m: LookAhead.Limits, p: LookAhead.Plan, startV: real, cruiseV: real, endV: real): Trapezoid
    requires LookAhead.Feasible(m, p) && RootsOf(p, startV, cruiseV, endV)
  {
    RootPositive(cruiseV, p.cruiseV2);
    var accelD, decelD := LookAhead.AccelD(m, p), LookAhead.DecelD(m, p);
    var cruiseD := m.moveD - accelD - decelD;
    Trapezoid(startV, cruiseV, endV,
              TimeOver(accelD, startV, cruiseV), cruiseD / cruiseV, TimeOver(decelD, endV, cruiseV))
  }

  // Changing speed from u to v at rate a: time and distance agree with the motion formula.
  lemma SpeedChange(u: real, v: real, a: real, d: real, t: real)
    requires u >= 0.0 && v >= 0.0 && u + v > 0.0 && a != 0.0
    requires 2.0 * a * d == v * v - u * u && t == d / ((u + v) * 0.5)
    ensures u + a * t == v && (u + 0.5 * a * t) * t == d
  {
    var w := (u + v) * 0.5;
    assert t * w == d;
    assert 2.0 * a * (t * w) == (v - u) * (2.0 * w);
    CancelFactor(a * t, v - u, 2.0 * w);
    assert (u + 0.5 * a * t) == w;
  }

  lemma CancelFactor(x: real, y: real, w: real)
    requires w != 0.0 && x * w == y * w
    ensures x == y
  {
    assert (x - y) * w == 0.0;
  }

  lemma QuotientNonNegative(n: real, d: real)
    requires n >= 0.0 && d > 0.0
    ensures n / d >= 0.0
  {
  }

  // The distances covered in the three phases.
  function AccelDistance(startV: real, accel: real, t: real): real { (startV + 0.5 * accel * t) * t }

  function DecelDistance(cruiseV: real, accel: real, t: real): real { (cruiseV - 0.5 * accel * t) * t }

  // The three phases of a planned move: durations are not negative, speeds meet, and the
  // distances add up to the distance of the move.
  lemma JunctionPhases(m: LookAhead.Limits, p: LookAhead.Plan, startV: real, cruiseV: real, endV: real)
    requires LookAhead.Feasible(m, p) && RootsOf(p, startV, cruiseV, endV)
    ensures var z := SetJunction(m, p, startV, cruiseV, endV);
      && z.accelT >= 0.0 && z.cruiseT >= 0.0 && z.decelT >= 0.0
      && startV + m.accel * z.accelT == cruiseV && cruiseV - m.accel * z.decelT == endV
      && AccelDistance(startV, m.accel, z.accelT) + cruiseV * z.cruiseT
         + DecelDistance(cruiseV, m.accel, z.decelT) == m.moveD
  {
    hide AccelDistance, DecelDistance, TimeOver;
    RootPositive(cruiseV, p.cruiseV2);
    TwiceRate(m.accel, p.cruiseV2 - p.startV2);
    TwiceRate(m.accel, p.cruiseV2 - p.endV2);
    PhaseTimes(m.moveD, m.accel, startV, cruiseV, endV, LookAhead.AccelD(m, p), LookAhead.DecelD(m, p));
  }

  lemma PhaseTimes(moveD: real, accel: real, startV: real, cruiseV: real, endV: real, accelD: real, decelD: real)
    requires startV >= 0.0 && cruiseV > 0.0 && endV >= 0.0 && accel > 0.0
    requires accelD >= 0.0 && decelD >= 0.0 && accelD + decelD <= moveD
    requires 2.0 * accel * accelD == cruiseV * cruiseV - startV * startV
    requires 2.0 * accel * decelD == cruiseV * cruiseV - endV * endV
    ensures var at, ct := TimeOver(accelD, startV, cruiseV), (moveD - accelD - decelD) / cruiseV;
      var dt := TimeOver(decelD, endV, cruiseV);
      && at >= 0.0 && ct >= 0.0 && dt >= 0.0
      && startV + accel * at == cruiseV && cruiseV - accel * dt == endV
      && AccelDistance(startV, accel, at) == accelD && cruiseV * ct == moveD - accelD - decelD
      && DecelDistance(cruiseV, accel, dt) == decelD
  {
    var at, ct := TimeOver(accelD, startV, cruiseV), (moveD - accelD - decelD) / cruiseV;
    var dt := TimeOver(decelD, endV, cruiseV);
    SpeedChange(startV, cruiseV, accel, accelD, at);
    SpeedChange(cruiseV, endV, -accel, decelD, dt);
    QuotientNonNegative(accelD, (startV + cruiseV) * 0.5);
    QuotientNonNegative(moveD - accelD - decelD, cruiseV);
    QuotientNonNegative(decelD, (endV + cruiseV) * 0.5);
  }

  lemma SomePhase(startV: real, cruiseV: real, accel: real, accelT: real, cruiseT: real, decelT: real)
    requires AccelDistance(startV, accel, accelT) + cruiseV * cruiseT + DecelDistance(cruiseV, accel, decelT) > 0.0
    ensures accelT != 0.0 || cruiseT != 0.0 || decelT != 0.0
  {
  }

  lemma TwiceRate(a: real, x: real)
    requires a > 0.0
    ensures 2.0 * a * (x * (0.5 / a)) == x
  {
  }

  /* ----- Segments of one move ----- */

  // One phase of trapq_append: no entry when it lasts no time, else one that ends where the next begins.
  function PhaseEntry(m: Move): seq<Move> { if m.moveT != 0.0 then [m] else [] }

  function AfterPhase(m: Move): (real, Coord) {
    if m.moveT != 0.0 then (EndTime(m), EndPos(m)) else (m.printTime, m.startPos)
  }

  // The list entries that trapq_append makes, before null moves.
  function Segments(printTime: real, accelT: real, cruiseT: real, decelT: real, startPos: Coord, axesR: Coord,
                    startV: real, cruiseV: real, accel: real): seq<Move>
  {
    var a := Move(printTime, accelT, startV, 0.5 * accel, startPos, axesR);
    var (t1, p1) := AfterPhase(a);
    var c := Move(t1, cruiseT, cruiseV, 0.0, p1, axesR);
    var (t2, p2) := AfterPhase(c);
    var d := Move(t2, decelT, cruiseV, -0.5 * accel, p2, axesR);
    PhaseEntry(a) + PhaseEntry(c) + PhaseEntry(d)
  }

  // Consecutive entries join in time and place; and in speed.
  predicate Joined(a: Move, b: Move) { EndTime(a) == b.printTime && EndPos(a) == b.startPos }

  predicate Smooth(ms: seq<Move>) {
    forall i :: 0 < i < |ms| ==> Joined(ms[i-1], ms[i]) && EndSpeed(ms[i-1]) == ms[i].startV
  }

  // One phase: where and how fast it ends.
  lemma Phase(printTime: real, t: real, v: real, rate: real, p: Coord, r: Coord, v1: real, d: real)
    requires v + rate * t == v1 && (v + 0.5 * rate * t) * t == d
    ensures var m := Move(printTime, t, v, 0.5 * rate, p, r);
      EndTime(m) == printTime + t && EndPos(m) == CoordAt(m, t) == Along(p, r, d) && EndSpeed(m) == v1
    ensures t == 0.0 ==> v == v1 && d == 0.0
  {
    var m := Move(printTime, t, v, 0.5 * rate, p, r);
    assert 2.0 * (0.5 * rate) * t == rate * t;
    assert Distance(m, t) == d;
    if t == 0.0 {
      assert rate * t == 0.0;
    }
  }

  // Dropping empty phases from a joined chain leaves a joined chain with the same ends.
  lemma DropEmpty(a: Move, c: Move, d: Move)
    requires Joined(a, c) && EndSpeed(a) == c.startV && Joined(c, d) && EndSpeed(c) == d.startV
    requires IsPhase(a) && IsPhase(c) && IsPhase(d) && (a.moveT != 0.0 || c.moveT != 0.0 || d.moveT != 0.0)
    ensures var ms := PhaseEntry(a) + PhaseEntry(c) + PhaseEntry(d);
      && ms != [] && Smooth(ms) && (forall i :: 0 <= i < |ms| ==> ms[i].moveT > 0.0)
      && ms[0].printTime == a.printTime && ms[0].startPos == a.startPos && ms[0].startV == a.startV
      && EndTime(ms[|ms| - 1]) == EndTime(d) && EndPos(ms[|ms| - 1]) == EndPos(d)
      && EndSpeed(ms[|ms| - 1]) == EndSpeed(d)
  {
    hide EndPos, EndSpeed;
  }

  // An entry of no duration changes nothing.
  predicate IsPhase(m: Move) {
    m.moveT >= 0.0 && (m.moveT == 0.0 ==> EndPos(m) == m.startPos && EndSpeed(m) == m.startV)
  }

  lemma SegmentsSmooth(printTime: real, accelT: real, cruiseT: real, decelT: real, startPos: Coord, axesR: Coord,
                       startV: real, cruiseV: real, endV: real, accel: real, dist: real)
    requires dist == AccelDistance(startV, accel, accelT) + cruiseV * cruiseT + DecelDistance(cruiseV, accel, decelT)
    requires accelT >= 0.0 && cruiseT >= 0.0 && decelT >= 0.0 && (accelT != 0.0 || cruiseT != 0.0 || decelT != 0.0)
    requires startV + accel * accelT == cruiseV && cruiseV - accel * decelT == endV
    ensures var ms := Segments(printTime, accelT, cruiseT, decelT, startPos, axesR, startV, cruiseV, accel);
      && ms != [] && Smooth(ms) && (forall i :: 0 <= i < |ms| ==> ms[i].moveT > 0.0)
      && ms[0].printTime == printTime && ms[0].startPos == startPos && ms[0].startV == startV
      && EndTime(ms[|ms| - 1]) == printTime + accelT + cruiseT + decelT
      && EndPos(ms[|ms| - 1]) == Along(startPos, axesR, dist) && EndSpeed(ms[|ms| - 1]) == endV
  {
    var d1, d2, d3 := AccelDistance(startV, accel, accelT), cruiseV * cruiseT, DecelDistance(cruiseV, accel, decelT);
    var p1, p2 := Along(startPos, axesR, d1), Along(startPos, axesR, d1 + d2);
    var t1, t2 := printTime + accelT, printTime + accelT + cruiseT;
    Phase(printTime, accelT, startV, accel, startPos, axesR, cruiseV, d1);
    Phase(t1, cruiseT, cruiseV, 0.0, p1, axesR, cruiseV, d2);
    Phase(t2, decelT, cruiseV, -accel, p2, axesR, endV, d3);
    AlongAdd(startPos, axesR, d1, d2);
    AlongAdd(startPos, axesR, d1 + d2, d3);
    AlongZero(startPos, axesR);
    AlongZero(p1, axesR);
    AlongZero(p2, axesR);
    assert 0.5 * 0.0 == 0.0 && 0.5 * -accel == -0.5 * accel;
    hide Along, CoordAt, SpeedAt, EndPos, EndSpeed, AccelDistance, DecelDistance, Smooth;
    var a := Move(printTime, accelT, startV, 0.5 * accel, startPos, axesR);
    var c := Move(t1, cruiseT, cruiseV, 0.0, p1, axesR);
    var d := Move(t2, decelT, cruiseV, -0.5 * accel, p2, axesR);
    DropEmpty(a, c, d);
  }

  // Main theorem on one move: whatever phases are missing, the entries follow each other without
  // a gap in time, place or speed, from the start of the move to exactly its end.
  lemma PlannedMoveIsSmooth(m: LookAhead.Limits, p: LookAhead.Plan, startV: real, cruiseV: real, endV: real,
                            printTime: real, startPos: Coord, axesR: Coord)
    requires LookAhead.Feasible(m, p) && RootsOf(p, startV, cruiseV, endV) && m.moveD > 0.0
    ensures var z := SetJunction(m, p, startV, cruiseV, endV);
      var ms := Segments(printTime, z.accelT, z.cruiseT, z.decelT, startPos, axesR, startV, cruiseV, m.accel);
      && ms != [] && Smooth(ms) && (forall i :: 0 <= i < |ms| ==> ms[i].moveT > 0.0)
      && ms[0].printTime == printTime && ms[0].startPos == startPos && ms[0].startV == startV
      && EndTime(ms[|ms| - 1]) == printTime + z.accelT + z.cruiseT + z.decelT
      && EndPos(ms[|ms| - 1]) == Along(startPos, axesR, m.moveD) && EndSpeed(ms[|ms| - 1]) == endV
  {
    hide *;
    JunctionPhases(m, p, startV, cruiseV, endV);
    var z := SetJunction(m, p, startV, cruiseV, endV);
    SomePhase(startV, cruiseV, m.accel, z.accelT, z.cruiseT, z.decelT);
    SegmentsSmooth(printTime, z.accelT, z.cruiseT, z.decelT, startPos, axesR, startV, cruiseV, endV, m.accel, m.moveD);
  }

  lemma AlongZero(p: Coord, r: Coord)
    ensures Along(p, r, 0.0) == p
  {
  }

  // A move as _process_moves of toolhead.py hands it to the queue.
  datatype Planned = Planned(m: LookAhead.Limits, p: LookAhead.Plan, startV: real, cruiseV: real, endV: real,
                             startPos: Coord, axesR: Coord)

  predicate IsPlanned(b: Planned) {
    LookAhead.Feasible(b.m, b.p) && RootsOf(b.p, b.startV, b.cruiseV, b.endV) && b.m.moveD > 0.0
  }

  function Duration(b: Planned): real
    requires IsPlanned(b)
  {
    var z := SetJunction(b.m, b.p, b.startV, b.cruiseV, b.endV);
    z.accelT + z.cruiseT + z.decelT
  }

  function EntriesOf(printTime: real, b: Planned): seq<Move>
    requires IsPlanned(b)
  {
    var z := SetJunction(b.m, b.p, b.startV, b.cruiseV, b.endV);
    Segments(printTime, z.accelT, z.cruiseT, z.decelT, b.startPos, b.axesR, b.startV, b.cruiseV, b.m.accel)
  }

  function BatchEntries(printTime: real, batch: seq<Planned>): seq<Move>
    requires forall i :: 0 <= i < |batch| ==> IsPlanned(batch[i])
    decreases |batch|
  {
    if batch == [] then []
    else EntriesOf(printTime, batch[0]) + BatchEntries(printTime + Duration(batch[0]), batch[1..])
  }

  // Each move starts where the one before ends, at the squared speed it ends with.
  predicate PlanFollows(a: Planned, b: Planned) {
    a.p.endV2 == b.p.startV2 && b.startPos == Along(a.startPos, a.axesR, a.m.moveD)
  }

  lemma SquareGrows(v: real, w: real)
    requires 0.0 <= v < w
    ensures v * v < w * w
  {
    LookAhead.Product(w - v, w + v);
    assert w * w - v * v == (w - v) * (w + v);
  }

  lemma SameRoot(v: real, w: real, x: real)
    requires IsRoot(v, x) && IsRoot(w, x)
    ensures v == w
  {
    if v < w {
      SquareGrows(v, w);
    } else if w < v {
      SquareGrows(w, v);
    }
  }

  lemma SmoothConcat(a: seq<Move>, b: seq<Move>)
    requires a != [] && Smooth(a) && Smooth(b)
    requires b != [] ==> Joined(a[|a| - 1], b[0]) && EndSpeed(a[|a| - 1]) == b[0].startV
    ensures Smooth(a + b)
  {
    hide Joined, EndSpeed;
  }

  // A whole batch of planned moves is one motion without a jump in time, place or speed.
  lemma {:induction false} BatchIsSmooth(printTime: real, batch: seq<Planned>)
    requires forall i :: 0 <= i < |batch| ==> IsPlanned(batch[i])
    requires forall i :: 0 < i < |batch| ==> PlanFollows(batch[i-1], batch[i])
    requires batch != []
    ensures var ms := BatchEntries(printTime, batch);
      && ms != [] && Smooth(ms) && (forall i :: 0 <= i < |ms| ==> ms[i].moveT > 0.0)
      && ms[0].printTime == printTime && ms[0].startPos == batch[0].startPos && ms[0].startV == batch[0].startV
      && EndSpeed(ms[|ms| - 1]) == batch[|batch| - 1].endV
    decreases |batch|
  {
    hide Smooth, SetJunction, Segments, EndSpeed, EndTime, EndPos, Along, LookAhead.Feasible;
    var b := batch[0];
    PlannedMoveIsSmooth(b.m, b.p, b.startV, b.cruiseV, b.endV, printTime, b.startPos, b.axesR);
    var ms, rest := EntriesOf(printTime, b), BatchEntries(printTime + Duration(b), batch[1..]);
    if |batch| == 1 {
      assert rest == [] && BatchEntries(printTime, batch) == ms;
    } else {
      assert PlanFollows(batch[0], batch[1]);
      forall i | 0 < i < |batch[1..]| ensures PlanFollows(batch[1..][i-1], batch[1..][i]) {
        assert PlanFollows(batch[i], batch[i+1]);
      }
      BatchIsSmooth(printTime + Duration(b), batch[1..]);
      SameRoot(b.endV, batch[1].startV, b.p.endV2);
      SmoothConcat(ms, rest);
      assert BatchEntries(printTime, batch) == ms + rest;
    }
  }

  // The planned move carries the numbers of a move that left the look-ahead queue.
  predicate Carries(b: Planned, s: LookAhead.Sent) {
    b.m == s.limits && b.p == s.plan && RootsOf(b.p, b.startV, b.cruiseV, b.endV) && b.m.moveD > 0.0
  }

  // Main theorem across planner and queue: over any run of additions and lazy or full flushes, any
  // stretch of the moves handed out becomes one motion without a jump in time, place or speed.
  lemma RunIsSmooth(ops: seq<LookAhead.Op>, lo: nat, batch: seq<Planned>, printTime: real)
    requires forall op :: op in ops ==> LookAhead.OpOk(op)
    requires batch != [] && lo + |batch| <= |LookAhead.Run(ops).sent|
    requires forall i :: 0 <= i < |batch| ==> Carries(batch[i], LookAhead.Run(ops).sent[lo + i])
    requires forall i :: 0 < i < |batch| ==>
      batch[i].startPos == Along(batch[i-1].startPos, batch[i-1].axesR, batch[i-1].m.moveD)
    ensures forall i :: 0 <= i < |batch| ==> IsPlanned(batch[i])
    ensures var ms := BatchEntries(printTime, batch);
      ms != [] && Smooth(ms) && ms[0].printTime == printTime && (lo == 0 ==> ms[0].startV == 0.0)
  {
    hide LookAhead.Run, LookAhead.Feasible, LookAhead.WellFormed, LookAhead.Committed, LookAhead.OpOk;
    hide BatchEntries, Smooth, Along;
    LookAhead.RunIsSafe(ops);
    var sent := LookAhead.Run(ops).sent;
    forall i | 0 <= i < |batch| ensures IsPlanned(batch[i]) {
      assert Carries(batch[i], sent[lo + i]);
    }
    forall i | 0 < i < |batch| ensures PlanFollows(batch[i-1], batch[i]) {
      assert Carries(batch[i-1], sent[lo + (i - 1)]) && Carries(batch[i], sent[lo + i]);
    }
    BatchIsSmooth(printTime, batch);
    if lo == 0 {
      assert Carries(batch[0], sent[0]);
      SameRoot(batch[0].startV, 0.0, 0.0);
    }
  }

  /* ----- The list ----- */

  // The entry before the tail sentinel.
  function Last(b: seq<Move>): Move { if b == [] then HEAD else b[|b| - 1] }

  // The move that fills the time between prev and m, with both standing still at the start of m.
  function NullMove(prev: Move, m: Move): Move {
    var limited := prev.printTime == 0.0 && m.printTime > MAX_NULL_MOVE;
    var start := if limited then m.printTime - MAX_NULL_MOVE else EndTime(prev);
    Move(start, m.printTime - start, 0.0, 0.0, m.startPos, ORIGIN)
  }

  // A null move stands still where the next move starts, until it starts, and never enters the history.
  lemma NullStaysPut(prev: Move, m: Move, u: real)
    ensures var n := NullMove(prev, m);
      CoordAt(n, u) == m.startPos && SpeedAt(n, u) == 0.0 && !Moving(n) && EndTime(n) == m.printTime
  {
  }

  // The list without its sentinels after adding m.
  function AddOne(b: seq<Move>, m: Move): seq<Move> {
    b + (if EndTime(Last(b)) < m.printTime then [NullMove(Last(b), m)] else []) + [m]
  }

  function AddAll(b: seq<Move>, ms: seq<Move>): seq<Move> {
    if ms == [] then b else AddOne(AddAll(b, ms[..|ms| - 1]), ms[|ms| - 1])
  }

  // Every entry begins when the one before ends.
  predicate Tiled(b: seq<Move>) {
    forall i :: 0 < i < |b| ==> EndTime(b[i-1]) == b[i].printTime
  }

  predicate Lasting(b: seq<Move>) {
    forall i :: 0 <= i < |b| ==> b[i].moveT >= 0.0
  }

  predicate Covers(m: Move, t: real) { m.printTime <= t < EndTime(m) }

  lemma {:induction false} EndsInOrder(b: seq<Move>, i: nat, j: nat)
    requires Tiled(b) && Lasting(b) && i < j < |b|
    ensures EndTime(b[i]) <= b[j].printTime
    decreases j - i
  {
    assert EndTime(b[j-1]) == b[j].printTime;
    if i + 1 < j {
      EndsInOrder(b, i, j - 1);
    }
  }

  // In a tiled list every time from its start to its end belongs to exactly one entry.
  lemma {:induction false} OneMoveAt(b: seq<Move>, t: real) returns (i: nat)
    requires Tiled(b) && Lasting(b) && b != []
    requires b[0].printTime <= t < EndTime(b[|b| - 1])
    ensures i < |b| && Covers(b[i], t)
    ensures forall j :: 0 <= j < |b| && Covers(b[j], t) ==> j == i
  {
    i := 0;
    while t >= EndTime(b[i])
      invariant i < |b| && b[i].printTime <= t
      decreases |b| - i
    {
      assert i + 1 < |b| && EndTime(b[i]) == b[i+1].printTime;
      i := i + 1;
    }
    forall j | 0 <= j < |b| && Covers(b[j], t) ensures j == i {
      if j < i {
        EndsInOrder(b, j, i);
      } else if i < j {
        EndsInOrder(b, i, j);
      }
    }
  }

  // When adding a move leaves the list tiled: the first move always does, a later one when it
  // starts at the end of the list, or after it and the null move is not shortened away from it.
  predicate AddTiles(b: seq<Move>, m: Move) {
    var last := Last(b);
    || b == [] || m.printTime == EndTime(last)
    || (m.printTime > EndTime(last)
        && (last.printTime != 0.0 || m.printTime <= MAX_NULL_MOVE || EndTime(last) == m.printTime - MAX_NULL_MOVE))
  }

  lemma AddKeepsTiling(b: seq<Move>, m: Move)
    requires Tiled(b)
    ensures Tiled(AddOne(b, m)) <==> AddTiles(b, m)
  {
    var c := AddOne(b, m);
    assert forall i :: 0 <= i < |b| ==> c[i] == b[i];
    if EndTime(Last(b)) < m.printTime {
      var g := NullMove(Last(b), m);
      assert c[|b|] == g && c[|b|+1] == m && EndTime(g) == m.printTime;
      assert b != [] && Tiled(c) ==> EndTime(c[|b|-1]) == c[|b|].printTime;
    } else {
      assert c[|b|] == m;
      assert b != [] && Tiled(c) ==> EndTime(c[|b|-1]) == c[|b|].printTime;
    }
  }

  // The shortening is meant for the first null move, but a move that started at time 0 sets it
  // off as well: time 0.5 to 4.0 then belongs to no entry.
  lemma ShortenedAfterTimeZero()
    ensures var first, second := Move(0.0, 0.5, 1.0, 0.0, ORIGIN, ORIGIN), Move(5.0, 1.0, 1.0, 0.0, ORIGIN, ORIGIN);
      && Tiled([first]) && EndTime(first) < second.printTime
      && !Tiled(AddOne([first], second))
      && forall m :: m in AddOne([first], second) ==> !Covers(m, 2.0)
  {
    var first, second := Move(0.0, 0.5, 1.0, 0.0, ORIGIN, ORIGIN), Move(5.0, 1.0, 1.0, 0.0, ORIGIN, ORIGIN);
    AddKeepsTiling([first], second);
  }

  // Moves as the toolhead appends them: each at a positive time, none before the end of the one before.
  predicate InTime(prev: Move, m: Move) { m.printTime > 0.0 && m.moveT >= 0.0 && m.printTime >= EndTime(prev) }

  // Where a move is in the list it starts where the entry before it stopped.
  predicate PlacesJoin(b: seq<Move>) {
    forall i :: 0 < i < |b| ==> EndPos(b[i-1]) == b[i].startPos
  }

  lemma NullMoveStands(prev: Move, m: Move, t: real)
    ensures CoordAt(NullMove(prev, m), t) == m.startPos
  {
  }

  lemma NullMoveEnds(prev: Move, m: Move)
    ensures EndPos(NullMove(prev, m)) == m.startPos
  {
    NullMoveStands(prev, m, NullMove(prev, m).moveT);
  }

  lemma AddJoins(b: seq<Move>, m: Move)
    requires PlacesJoin(b) && (b != [] ==> EndPos(Last(b)) == m.startPos)
    ensures PlacesJoin(AddOne(b, m))
  {
    hide EndPos;
    var g := NullMove(Last(b), m);
    NullMoveEnds(Last(b), m);
    var c := AddOne(b, m);
    assert forall i :: 0 <= i < |b| ==> c[i] == b[i];
  }

  lemma TilesStep(b: seq<Move>, m: Move)
    requires Tiled(b) && Lasting(b) && InTime(Last(b), m) && (b != [] ==> Last(b).printTime > 0.0)
    ensures Tiled(AddOne(b, m)) && Lasting(AddOne(b, m)) && AddOne(b, m) != [] && Last(AddOne(b, m)) == m
  {
    hide Tiled;
    AddKeepsTiling(b, m);
    AddLasts(b, m);
    hide Lasting;
  }

  lemma AddLasts(b: seq<Move>, m: Move)
    requires Lasting(b) && m.moveT >= 0.0
    ensures Lasting(AddOne(b, m))
  {
    assert EndTime(Last(b)) < m.printTime ==> NullMove(Last(b), m).moveT >= 0.0;
    hide EndTime, NullMove;
  }

  // A move joins the list when every move starts where the one before stopped.
  lemma {:induction false} RunJoins(ms: seq<Move>)
    requires PlacesJoin(ms)
    ensures var b := AddAll([], ms);
      PlacesJoin(b) && (ms != [] ==> b != [] && Last(b) == ms[|ms| - 1])
  {
    hide EndPos, NullMove;
    if ms != [] {
      var n := |ms| - 1;
      RunJoins(ms[..n]);
      assert n == 0 ==> ms[..n] == [] && AddAll([], ms[..n]) == [];
      AddJoins(AddAll([], ms[..n]), ms[n]);
    }
  }

  lemma AddedLast(b: seq<Move>, m: Move)
    ensures AddOne(b, m) != [] && Last(AddOne(b, m)) == m
  {
  }

  lemma JoinedGoesIn(b: seq<Move>, m: Move)
    requires b != [] && Joined(Last(b), m)
    ensures AddOne(b, m) == b + [m]
  {
    hide EndPos;
  }

  // The entries of one smooth motion go in as they are: a null move can only come before the first.
  lemma {:induction false} SmoothGoesIn(b: seq<Move>, ms: seq<Move>)
    requires ms != [] && Smooth(ms)
    ensures AddAll(b, ms) == AddOne(b, ms[0]) + ms[1..]
  {
    hide Joined, EndSpeed, AddOne;
    var n := |ms| - 1;
    if n == 0 {
      assert ms[..0] == [] && AddAll(b, ms[..0]) == b;
    } else {
      var rest, first := ms[..n], AddOne(b, ms[0]);
      SmoothGoesIn(b, rest);
      AddedLast(b, ms[0]);
      assert Last(first + rest[1..]) == ms[n-1];
      JoinedGoesIn(first + rest[1..], ms[n]);
      assert first + rest[1..] + [ms[n]] == first + ms[1..];
    }
  }

  predicate Moving(m: Move) { m.startV != 0.0 || m.halfAccel != 0.0 }

  // An entry moves exactly when it gets away from its start.
  lemma MovingIs(m: Move)
    requires m.moveT > 0.0
    ensures Moving(m) <==> exists u :: 0.0 <= u <= m.moveT && Distance(m, u) != 0.0
  {
    var t, v, h := m.moveT, m.startV, m.halfAccel;
    assert Distance(m, t) == (v + h * t) * t;
    assert Distance(m, t / 2.0) == (v + h * t / 2.0) * (t / 2.0);
    if Moving(m) && Distance(m, t) == 0.0 {
      ZeroFactor(v + h * t, t);
      assert h * t == -v && v + h * t / 2.0 == v / 2.0;
      if v == 0.0 {
        ZeroFactor(h, t);
      } else {
        assert Distance(m, t / 2.0) == (v / 2.0) * (t / 2.0);
        assert (v / 2.0) * (t / 2.0) != 0.0;
      }
    } else if !Moving(m) {
      forall u ensures Distance(m, u) == 0.0 {
      }
    }
  }

  lemma ZeroFactor(a: real, b: real)
    requires b != 0.0 && a * b == 0.0
    ensures a == 0.0
  {
  }

  // Those that go to the history, latest first.
  function Retired(ms: seq<Move>): seq<Move> {
    if ms == [] then [] else (if Moving(ms[|ms| - 1]) then [ms[|ms| - 1]] else []) + Retired(ms[..|ms| - 1])
  }

  // How many entries at the front have ended by time t.
  function Expired(b: seq<Move>, t: real): (k: nat)
    ensures k <= |b|
  {
    if b == [] || EndTime(b[0]) > t then 0 else 1 + Expired(b[1..], t)
  }

  // The history without the old entries at its end; the latest always stays.
  function Prune(h: seq<Move>, clearTime: real): seq<Move> {
    if |h| <= 1 || EndTime(h[|h| - 1]) > clearTime then h else Prune(h[..|h| - 1], clearTime)
  }

  // In a tiled list exactly the entries that have ended leave, so that every time from t on is
  // covered by the same entry as before.
  lemma {:induction false} ExpiredExactly(b: seq<Move>, t: real, i: nat)
    requires Tiled(b) && Lasting(b) && i < |b|
    ensures i < Expired(b, t) <==> EndTime(b[i]) <= t
    ensures forall u :: Covers(b[i], u) && u >= t ==> Expired(b, t) <= i
  {
    if EndTime(b[0]) > t {
      if i > 0 {
        EndsInOrder(b, 0, i);
      }
    } else if i > 0 {
      var rest := b[1..];
      forall j | 0 < j < |rest| ensures EndTime(rest[j-1]) == rest[j].printTime {
        assert EndTime(b[j]) == b[j+1].printTime;
      }
      ExpiredExactly(rest, t, i - 1);
    }
  }

  /* ----- Runs ----- */

  datatype Event = Added(m: Move) | Finalized(t: real)

  // trapq_add_move, or what trapq_finalize_moves leaves of the list
  function Next(b: seq<Move>, e: Event): seq<Move> {
    match e
    case Added(m) => AddOne(b, m)
    case Finalized(t) => b[Expired(b, t)..]
  }

  function After(events: seq<Event>): seq<Move> {
    if events == [] then [] else Next(After(events[..|events| - 1]), events[|events| - 1])
  }

  // The move that was added last, whether it is still in the list or not.
  function LastAdded(events: seq<Event>): Move {
    if events == [] then HEAD
    else
      var e := events[|events| - 1];
      if e.Added? then e.m else LastAdded(events[..|events| - 1])
  }

  predicate InOrder(events: seq<Event>) {
    forall i :: 0 <= i < |events| && events[i].Added? ==> InTime(LastAdded(events[..i]), events[i].m)
  }

  lemma OrderedPrefix(events: seq<Event>, k: nat)
    requires InOrder(events) && k <= |events|
    ensures InOrder(events[..k])
  {
    hide InTime, LastAdded;
    forall i | 0 <= i < k && events[i].Added? ensures InTime(LastAdded(events[..k][..i]), events[i].m) {
      assert events[..k][..i] == events[..i];
    }
  }

  lemma FinalizeTiles(b: seq<Move>, t: real)
    requires Tiled(b) && Lasting(b)
    ensures var c := b[Expired(b, t)..];
      Tiled(c) && Lasting(c) && (c != [] ==> b != [] && Last(c) == Last(b))
  {
    hide Expired, EndTime;
    var k := Expired(b, t);
    forall i | 0 < i < |b[k..]| ensures EndTime(b[k..][i-1]) == b[k..][i].printTime {
      assert EndTime(b[k+i-1]) == b[k+i].printTime;
    }
  }

  // Main theorem on the list: over any run of moves added, whatever gaps are between them, and of
  // finalizations at any times, the list tiles time.
  lemma {:induction false} RunTiles(events: seq<Event>)
    requires InOrder(events)
    ensures var b := After(events);
      Tiled(b) && Lasting(b) && (b != [] ==> Last(b) == LastAdded(events) && Last(b).printTime > 0.0)
  {
    if events != [] {
      var n := |events| - 1;
      OrderedPrefix(events, n);
      RunTiles(events[..n]);
      match events[n] {
        case Added(m) => TilesStep(After(events[..n]), m);
        case Finalized(t) => FinalizeTiles(After(events[..n]), t);
      }
    }
  }

  // No finalization from step k on reaches the end of the entry.
  predicate Unexpired(events: seq<Event>, k: nat, e: Move) {
    forall i :: k <= i < |events| && events[i].Finalized? ==> events[i].t < EndTime(e)
  }

  // An entry stays in the list as long as it has not ended by the time of a finalization.
  lemma {:induction false} EntryStays(events: seq<Event>, k: nat, e: Move)
    requires InOrder(events) && k <= |events| && e in After(events[..k]) && Unexpired(events, k, e)
    ensures e in After(events)
  {
    hide EndTime, Tiled, Lasting, AddOne, InOrder;
    var n := |events| - 1;
    if k == |events| {
      assert events[..k] == events;
    } else {
      assert events[..n][..k] == events[..k];
      OrderedPrefix(events, n);
      EntryStays(events[..n], k, e);
      var b := After(events[..n]);
      match events[n] {
        case Added(m) => AddKeeps(b, m, e);
        case Finalized(t) =>
          RunTiles(events[..n]);
          var i :| 0 <= i < |b| && b[i] == e;
          ExpiredExactly(b, t, i);
          assert b[Expired(b, t)..][i - Expired(b, t)] == e;
      }
    }
  }

  lemma AddKeeps(b: seq<Move>, m: Move, e: Move)
    requires e in b
    ensures e in AddOne(b, m)
  {
  }

  // Main theorem on time: an instant that an entry covered keeps this entry, and no other, until a
  // finalization at a later time.
  lemma InstantStays(events: seq<Event>, k: nat, e: Move, u: real)
    requires InOrder(events) && k <= |events| && e in After(events[..k]) && Covers(e, u)
    requires forall i :: k <= i < |events| && events[i].Finalized? ==> events[i].t <= u
    ensures e in After(events) && forall o :: o in After(events) && Covers(o, u) ==> o == e
  {
    EntryStays(events, k, e);
    RunTiles(events);
    hide After, InOrder, Tiled, Lasting, Covers;
    OnlyOneCovers(After(events), e, u);
  }

  lemma OnlyOneCovers(b: seq<Move>, e: Move, u: real)
    requires Tiled(b) && Lasting(b) && e in b && Covers(e, u)
    ensures forall o :: o in b && Covers(o, u) ==> o == e
  {
    var i :| 0 <= i < |b| && b[i] == e;
    forall j | 0 <= j < |b| && Covers(b[j], u) ensures b[j] == e {
      if j < i {
        EndsInOrder(b, j, i);
      } else if i < j {
        EndsInOrder(b, i, j);
      }
    }
  }

  // A moving entry that expired is in the history, and nothing else is added to it.
  lemma {:induction false} RetiredExactly(ms: seq<Move>, m: Move)
    ensures m in Retired(ms) <==> m in ms && Moving(m)
  {
    if ms != [] {
      var n := |ms| - 1;
      RetiredExactly(ms[..n], m);
      assert ms == ms[..n] + [ms[n]];
    }
  }

  // The history of a tiled list is in order, the latest entry first.
  lemma {:induction false} RetiredInOrder(ms: seq<Move>, i: nat, j: nat)
    requires Tiled(ms) && Lasting(ms) && i < j < |Retired(ms)|
    ensures EndTime(Retired(ms)[j]) <= Retired(ms)[i].printTime
  {
    var n := |ms| - 1;
    assert Tiled(ms[..n]) by {
      forall k | 0 < k < n ensures EndTime(ms[..n][k-1]) == ms[..n][k].printTime {
        assert EndTime(ms[k-1]) == ms[k].printTime;
      }
    }
    if Moving(ms[n]) {
      if i == 0 {
        var e := Retired(ms)[j];
        assert e == Retired(ms[..n])[j - 1];
        RetiredExactly(ms[..n], e);
        var k :| 0 <= k < n && ms[..n][k] == e;
        EndsInOrder(ms, k, n);
      } else {
        RetiredInOrder(ms[..n], i - 1, j - 1);
      }
    } else {
      RetiredInOrder(ms[..n], i, j);
    }
  }

  // Pruning drops old entries from the end only, and never the latest.
  lemma {:induction false} PruneKeeps(h: seq<Move>, clearTime: real)
    ensures var p := Prune(h, clearTime);
      && p <= h && (h != [] ==> p != [])
      && (forall i :: |p| <= i < |h| ==> EndTime(h[i]) <= clearTime)
      && (|p| > 1 ==> EndTime(p[|p| - 1]) > clearTime)
  {
    if |h| > 1 && EndTime(h[|h| - 1]) <= clearTime {
      PruneKeeps(h[..|h| - 1], clearTime);
    }
  }

  // The tail sentinel marks the end of the list, or has been invalidated with time 0.
  predicate TailOk(b: seq<Move>, tail: Move) {
    || tail.printTime == 0.0
    || (if b == [] then tail.printTime == NEVER_TIME
        else tail.printTime == EndTime(Last(b)) && tail.startPos == EndPos(Last(b)))
  }

  class TrapQueue {
    var moves: seq<Move>
    var history: seq<Move>

    ghost predicate Valid()
      reads this
    {
      |moves| >= 2 && moves[0] == HEAD && TailOk(Entries(), moves[|moves| - 1])
    }

    // The list without its sentinels.
    ghost function Entries(): seq<Move>
      reads this
    {
      if |moves| >= 2 then moves[1..|moves| - 1] else []
    }

    // trapq_alloc
    constructor ()
      ensures Valid() && Entries() == [] && history == []
    {
      moves := [HEAD, TAIL];
      history := [];
    }

    // trapq_check_sentinels
    method CheckSentinels()
      requires Valid()
      modifies `moves
      ensures Valid() && Entries() == old(Entries())
      ensures var tail := moves[|moves| - 1];
        if Entries() == [] then tail.printTime == NEVER_TIME
        else tail.printTime == EndTime(Last(Entries())) && tail.startPos == EndPos(Last(Entries()))
    {
      var n := |moves| - 1;
      var tail := moves[n];
      if tail.printTime != 0.0 {
        return;
      }
      if n - 1 == 0 {
        moves := moves[n := tail.(printTime := NEVER_TIME)];
        return;
      }
      var m := moves[n - 1];
      moves := moves[n := tail.(printTime := m.printTime + m.moveT, startPos := CoordAt(m, m.moveT))];
      assert m == Last(old(Entries()));
      assert moves[1..n] == old(moves[1..n]);
    }

    // trapq_add_move
    method AddMove(m: Move)
      requires Valid()
      modifies `moves
      ensures Valid() && Entries() == AddOne(old(Entries()), m)
      ensures moves[|moves| - 1].printTime == 0.0
    {
      var n := |moves| - 1;
      var prev := moves[n - 1];
      assert prev == Last(Entries());
      assert moves[..n] == [HEAD] + Entries();
      var before := moves[..n];
      if prev.printTime + prev.moveT < m.printTime {
        var start := prev.printTime + prev.moveT;
        if prev.printTime == 0.0 && m.printTime > MAX_NULL_MOVE {
          start := m.printTime - MAX_NULL_MOVE;
        }
        before := before + [Move(start, m.printTime - start, 0.0, 0.0, m.startPos, ORIGIN)];
      }
      moves := before + [m] + [moves[n].(printTime := 0.0)];
      assert moves[1..|moves| - 1] == AddOne(old(Entries()), m);
    }

    // One of the three blocks of trapq_append.
    method AddPhase(m: Move) returns (time: real, pos: Coord)
      requires Valid()
      modifies `moves
      ensures Valid() && Entries() == AddAll(old(Entries()), PhaseEntry(m)) && (time, pos) == AfterPhase(m)
    {
      time, pos := m.printTime, m.startPos;
      AddAllLast(Entries(), [], m);
      if m.moveT != 0.0 {
        AddMove(m);
        time := time + m.moveT;
        pos := CoordAt(m, m.moveT);
      }
    }

    // trapq_append
    method Append(printTime: real, accelT: real, cruiseT: real, decelT: real, startPos: Coord, axesR: Coord,
                  startV: real, cruiseV: real, accel: real)
      requires Valid()
      modifies `moves
      ensures Valid()
      ensures Entries() == AddAll(old(Entries()),
        Segments(printTime, accelT, cruiseT, decelT, startPos, axesR, startV, cruiseV, accel))
    {
      hide AddAll, CoordAt, AddOne, PhaseEntry, AfterPhase;
      ghost var b := Entries();
      var a := Move(printTime, accelT, startV, 0.5 * accel, startPos, axesR);
      var t1, p1 := AddPhase(a);
      var c := Move(t1, cruiseT, cruiseV, 0.0, p1, axesR);
      var t2, p2 := AddPhase(c);
      var d := Move(t2, decelT, cruiseV, -0.5 * accel, p2, axesR);
      var _, _ := AddPhase(d);
      AddAllTwice(b, PhaseEntry(a), PhaseEntry(c));
      AddAllTwice(b, PhaseEntry(a) + PhaseEntry(c), PhaseEntry(d));
    }

    // The first loop of trapq_finalize_moves.
    method RetireMoves(printTime: real)
      requires Valid()
      modifies this
      ensures Valid()
      ensures var b := old(Entries());
        var k := Expired(b, printTime);
        Entries() == b[k..] && history == Retired(b[..k]) + old(history)
    {
      hide Retired, EndPos, TailOk;
      ghost var b, h, tail := Entries(), history, moves[|moves| - 1];
      ghost var k := 0;
      assert moves == [HEAD] + b + [tail];
      RetiredNone(b, h);
      while |moves| > 2 && moves[1].printTime + moves[1].moveT <= printTime
        invariant k <= |b| && moves == [HEAD] + b[k..] + [tail]
        invariant Expired(b, printTime) == k + Expired(b[k..], printTime)
        invariant history == Retired(b[..k]) + h
        decreases |moves|
      {
        var m := moves[1];
        assert m == b[k] && b[k..][1..] == b[k+1..];
        moves := [moves[0]] + moves[2..];
        assert moves == [HEAD] + b[k+1..] + [tail];
        RetiredNext(b, k, h);
        if m.startV != 0.0 || m.halfAccel != 0.0 {
          history := [m] + history;
        }
        k := k + 1;
      }
      assert Entries() == b[k..] && (k < |b| ==> Last(b[k..]) == Last(b));
      TailStays(b, k, tail);
      if |moves| == 2 {
        moves := moves[1 := moves[1].(printTime := NEVER_TIME)];
        assert Entries() == [];
      }
    }

    // The second loop.
    method ClearHistory(clearHistoryTime: real)
      modifies `history
      ensures history == Prune(old(history), clearHistoryTime)
    {
      if history == [] {
        return;
      }
      while true
        invariant history != [] && Prune(history, clearHistoryTime) == Prune(old(history), clearHistoryTime)
        decreases |history|
      {
        var m := history[|history| - 1];
        if |history| == 1 || m.printTime + m.moveT > clearHistoryTime {
          break;
        }
        history := history[..|history| - 1];
      }
    }

    // trapq_finalize_moves
    method FinalizeMoves(printTime: real, clearHistoryTime: real)
      requires Valid()
      modifies this
      ensures Valid()
      ensures var b := old(Entries());
        var k := Expired(b, printTime);
        Entries() == b[k..] && history == Prune(Retired(b[..k]) + old(history), clearHistoryTime)
    {
      RetireMoves(printTime);
      ClearHistory(clearHistoryTime);
    }
  }

  lemma RetiredNone(b: seq<Move>, h: seq<Move>)
    ensures Retired(b[..0]) + h == h
  {
  }

  // What is left of a list still ends at its tail sentinel, unless nothing is left.
  lemma TailStays(b: seq<Move>, k: nat, tail: Move)
    requires k <= |b| && TailOk(b, tail)
    ensures k < |b| ==> TailOk(b[k..], tail)
    ensures TailOk([], tail.(printTime := NEVER_TIME))
  {
  }

  lemma RetiredNext(b: seq<Move>, k: nat, h: seq<Move>)
    requires k < |b|
    ensures Retired(b[..k+1]) + h == if Moving(b[k]) then [b[k]] + (Retired(b[..k]) + h) else Retired(b[..k]) + h
  {
    assert b[..k+1][..k] == b[..k];
    assert [b[k]] + Retired(b[..k]) + h == [b[k]] + (Retired(b[..k]) + h);
  }

  lemma AddAllLast(b: seq<Move>, ms: seq<Move>, m: Move)
    ensures AddAll(b, ms + [m]) == AddOne(AddAll(b, ms), m)
  {
    assert (ms + [m])[..|ms|] == ms;
  }

  lemma {:induction false} AddAllTwice(b: seq<Move>, s: seq<Move>, t: seq<Move>)
    ensures AddAll(b, s + t) == AddAll(AddAll(b, s), t)
  {
    hide AddOne;
    if t == [] {
      assert s + t == s;
    } else {
      var n := |t| - 1;
      AddAllTwice(b, s, t[..n]);
      AddAllLast(b, s + t[..n], t[n]);
      assert s + t == s + t[..n] + [t[n]];
    }
  }
}
