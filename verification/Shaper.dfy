/**
 Input shaping (kin_shaper.c): the pulse table and the convolution across the list of moves.

 The list handed to these functions starts at the oldest entry still kept; reading before it or
 after its end is what the stepper's pre and post active times exclude.
 */
module Shaper {
  import opened Trapq
  import opened Motion

  datatype Axis = X | Y

  datatype Pulse = Pulse(t: real, a: real)

  /* ----- Position across moves ----- */

  function Of(c: Coord, axis: Axis): real { if axis.X? then c.x else c.y }

  // get_axis_position
  function AxisAt(m: Move, axis: Axis, t: real): real { Of(m.startPos, axis) + Of(m.axesR, axis) * Distance(m, t) }

  // The coordinates of an axis are those of the motion, and motion along the other axis does not change them.
  lemma AxisAlone(m: Move, t: real)
    ensures AxisAt(m, X, t) == CoordAt(m, t).x && AxisAt(m, Y, t) == CoordAt(m, t).y
  {
  }

  // Each entry starts where the one before stops.
  predicate Continuous(ms: seq<Move>, axis: Axis) {
    && ms != [] && Lasting(ms)
    && forall i :: 0 < i < |ms| ==> AxisAt(ms[i-1], axis, ms[i-1].moveT) == Of(ms[i].startPos, axis)
  }

  function ValueAt(ms: seq<Move>, axis: Axis, k: nat, t: real): real
    requires k < |ms|
  {
    AxisAt(ms[k], axis, t - Start(ms, k))
  }

  // Where the motion is at instant t, found among the first n entries.
  function PosUpTo(ms: seq<Move>, axis: Axis, t: real, n: nat): real
    requires 0 < n <= |ms|
  {
    if n == 1 || Start(ms, n - 1) <= t then ValueAt(ms, axis, n - 1, t) else PosUpTo(ms, axis, t, n - 1)
  }

  function PosAt(ms: seq<Move>, axis: Axis, t: real): real
    requires ms != []
  {
    PosUpTo(ms, axis, t, |ms|)
  }

  predicate InReach(ms: seq<Move>, t: real) { 0.0 <= t <= Start(ms, |ms|) }

  // Entries that meet at an instant agree on the position there.
  lemma {:induction false} OneValue(ms: seq<Move>, axis: Axis, j: nat, k: nat, t: real)
    requires Continuous(ms, axis) && j <= k < |ms| && At(ms, j, t) && At(ms, k, t)
    ensures ValueAt(ms, axis, j, t) == ValueAt(ms, axis, k, t)
    decreases k - j
  {
    if j < k {
      StartsInOrder(ms, j + 1, k);
      StartsInOrder(ms, j + 1, j + 2);
      assert ValueAt(ms, axis, j, t) == AxisAt(ms[j], axis, ms[j].moveT);
      assert ValueAt(ms, axis, j + 1, t) == Of(ms[j+1].startPos, axis);
      OneValue(ms, axis, j + 1, k, t);
    }
  }

  lemma {:induction false} PosUpToIs(ms: seq<Move>, axis: Axis, t: real, n: nat, k: nat)
    requires Continuous(ms, axis) && k < n <= |ms| && At(ms, k, t)
    ensures PosUpTo(ms, axis, t, n) == ValueAt(ms, axis, k, t)
  {
    if n == 1 {
    } else if Start(ms, n - 1) <= t {
      StartsInOrder(ms, k + 1, n);
      StartsInOrder(ms, n - 1, n);
      OneValue(ms, axis, k, n - 1, t);
    } else {
      PosUpToIs(ms, axis, t, n - 1, k);
    }
  }

  // get_axis_position_across_moves
  method AxisPositionAcrossMoves(ms: seq<Move>, i: nat, axis: Axis, moveTime: real) returns (x: real)
    requires Continuous(ms, axis) && i < |ms| && InReach(ms, Start(ms, i) + moveTime)
    ensures x == PosAt(ms, axis, Start(ms, i) + moveTime)
  {
    var m: nat, time := i, moveTime;
    while time < 0.0
      invariant m < |ms| && Start(ms, m) + time == Start(ms, i) + moveTime
      decreases m
    {
      m := m - 1;
      time := time + ms[m].moveT;
    }
    while time > ms[m].moveT
      invariant m < |ms| && Start(ms, m) + time == Start(ms, i) + moveTime && time >= 0.0
      decreases |ms| - m
    {
      assert Start(ms, m + 1) < Start(ms, i) + moveTime;
      time := time - ms[m].moveT;
      m := m + 1;
    }
    PosUpToIs(ms, axis, Start(ms, i) + moveTime, |ms|, m);
    x := AxisAt(ms[m], axis, time);
  }

  lemma HalvesAxis(m: Move, axis: Axis, u: real, x: real)
    ensures AxisAt(SecondHalf(m, u), axis, x) == AxisAt(m, axis, u + x)
  {
    HalvesDistance(m, u, x);
    var r, d, e := Of(m.axesR, axis), Distance(m, u), Distance(m, u + x);
    assert r * d + r * (e - d) == r * e;
  }

  lemma CutContinuous(ms: seq<Move>, axis: Axis, k: nat, u: real)
    requires Continuous(ms, axis) && k < |ms| && 0.0 <= u <= ms[k].moveT
    ensures Continuous(Cut(ms, k, u), axis)
  {
    var c := Cut(ms, k, u);
    CutLasts(ms, k, u);
    HalvesAxis(ms[k], axis, u, ms[k].moveT - u);
    forall i | 0 < i < |c| ensures AxisAt(c[i-1], axis, c[i-1].moveT) == Of(c[i].startPos, axis) {
      hide Distance;
      if i <= k {
        assert AxisAt(ms[i-1], axis, ms[i-1].moveT) == Of(ms[i].startPos, axis);
      } else if i > k + 1 {
        assert AxisAt(ms[i-2], axis, ms[i-2].moveT) == Of(ms[i-1].startPos, axis);
      }
    }
  }

  lemma FirstHalfAxis(m: Move, axis: Axis, u: real, x: real)
    ensures AxisAt(FirstHalf(m, u), axis, x) == AxisAt(m, axis, x)
  {
  }

  // The entry of the cut list that takes the place of entry j at instant t.
  function CutIndex(ms: seq<Move>, k: nat, u: real, j: nat, t: real): (i: nat)
    requires k < |ms|
    ensures i == j || i == j + 1
  {
    if j < k || (j == k && t <= Start(ms, k) + u) then j else j + 1
  }

  lemma CutValue(ms: seq<Move>, axis: Axis, k: nat, u: real, j: nat, t: real)
    requires k < |ms| && j < |ms| && At(ms, j, t)
    ensures var c, i := Cut(ms, k, u), CutIndex(ms, k, u, j, t);
      At(c, i, t) && ValueAt(c, axis, i, t) == ValueAt(ms, axis, j, t)
  {
    var i := CutIndex(ms, k, u, j, t);
    StartCut(ms, k, u, i);
    StartCut(ms, k, u, i + 1);
    if i == k + 1 && j == k {
      HalvesAxis(ms[k], axis, u, t - Start(ms, k) - u);
    }
    hide AxisAt, Start;
    FirstHalfAxis(ms[k], axis, u, t - Start(ms, k));
  }

  // A cut leaves the position at every instant as it was.
  lemma CutPos(ms: seq<Move>, axis: Axis, k: nat, u: real, t: real)
    requires Continuous(ms, axis) && k < |ms| && 0.0 <= u <= ms[k].moveT && InReach(ms, t)
    ensures PosAt(Cut(ms, k, u), axis, t) == PosAt(ms, axis, t) && InReach(Cut(ms, k, u), t)
  {
    hide Start, AxisAt, Distance, ValueAt, PosUpTo, At, Continuous, Cut, CutIndex;
    CutLength(ms, k, u);
    CutContinuous(ms, axis, k, u);
    StartCut(ms, k, u, |ms| + 1);
    var j := SomeAt(ms, t, |ms|);
    CutValue(ms, axis, k, u, j, t);
    var i := CutIndex(ms, k, u, j, t);
    PosUpToIs(Cut(ms, k, u), axis, t, |ms| + 1, i);
    PosUpToIs(ms, axis, t, |ms|, j);
  }

  /* ----- The convolution ----- */

  function Shaped(ms: seq<Move>, axis: Axis, t: real, ps: seq<Pulse>): real
    requires ms != []
  {
    if ps == [] then 0.0
    else Shaped(ms, axis, t, ps[..|ps| - 1]) + ps[|ps| - 1].a * PosAt(ms, axis, t + ps[|ps| - 1].t)
  }

  predicate AllInReach(ms: seq<Move>, t: real, ps: seq<Pulse>) {
    forall p :: p in ps ==> InReach(ms, t + p.t)
  }

  // calc_position
  method CalcPosition(ms: seq<Move>, i: nat, axis: Axis, moveTime: real, sp: ShaperPulses) returns (res: real)
    requires sp.Valid() && Continuous(ms, axis) && i < |ms| && AllInReach(ms, Start(ms, i) + moveTime, sp.Pulses())
    ensures res == Shaped(ms, axis, Start(ms, i) + moveTime, sp.Pulses())
  {
    hide PosAt, Start, Continuous, InReach;
    res := 0.0;
    var n := 0;
    while n < sp.numPulses
      invariant n <= sp.numPulses && res == Shaped(ms, axis, Start(ms, i) + moveTime, sp.pulses[..n])
    {
      var p := sp.pulses[n];
      assert p in sp.Pulses();
      assert sp.pulses[..n+1][..n] == sp.pulses[..n];
      var x := AxisPositionAcrossMoves(ms, i, axis, moveTime + p.t);
      assert Start(ms, i) + (moveTime + p.t) == Start(ms, i) + moveTime + p.t;
      res := res + p.a * x;
      n := n + 1;
    }
  }

  // Main theorem: the shaped position at an instant does not depend on how the motion is cut up,
  // nor on the entry the evaluation starts from.
  lemma {:induction false} CutKeepsShaped(ms: seq<Move>, axis: Axis, k: nat, u: real, t: real, ps: seq<Pulse>)
    requires Continuous(ms, axis) && k < |ms| && 0.0 <= u <= ms[k].moveT && AllInReach(ms, t, ps)
    ensures Shaped(Cut(ms, k, u), axis, t, ps) == Shaped(ms, axis, t, ps)
    ensures Continuous(Cut(ms, k, u), axis) && AllInReach(Cut(ms, k, u), t, ps)
  {
    hide Cut, PosAt, InReach;
    CutContinuous(ms, axis, k, u);
    hide Continuous;
    forall p | p in ps ensures InReach(Cut(ms, k, u), t + p.t) {
      CutPos(ms, axis, k, u, t + p.t);
    }
    if ps != [] {
      var n := |ps| - 1;
      CutKeepsShaped(ms, axis, k, u, t, ps[..n]);
      CutPos(ms, axis, k, u, t + ps[n].t);
    }
  }

  /* ----- The pulses ----- */

  function SumA(ps: seq<Pulse>): real { if ps == [] then 0.0 else SumA(ps[..|ps| - 1]) + ps[|ps| - 1].a }

  function SumAT(ps: seq<Pulse>): real {
    if ps == [] then 0.0 else SumAT(ps[..|ps| - 1]) + ps[|ps| - 1].a * ps[|ps| - 1].t
  }

  function Shift(ps: seq<Pulse>, d: real): seq<Pulse> {
    seq(|ps|, i requires 0 <= i < |ps| => ps[i].(t := ps[i].t - d))
  }

  lemma {:induction false} ShiftSums(ps: seq<Pulse>, d: real)
    ensures SumA(Shift(ps, d)) == SumA(ps) && SumAT(Shift(ps, d)) == SumAT(ps) - d * SumA(ps)
  {
    if ps != [] {
      var n := |ps| - 1;
      ShiftSums(ps[..n], d);
      assert Shift(ps, d)[..n] == Shift(ps[..n], d);
    }
  }

  // The sum of the pulse heights from index k on, and the pulses of those in reverse.
  function SumFrom(a: seq<real>, k: nat): real
    requires k <= |a|
    decreases |a| - k
  {
    if k == |a| then 0.0 else a[k] + SumFrom(a, k + 1)
  }

  function PulseOf(a: seq<real>, t: seq<real>, c: real, k: nat): Pulse
    requires |a| == |t| && k < |a|
  {
    Pulse(-t[k], a[k] * c)
  }

  function Reversed(a: seq<real>, t: seq<real>, c: real, k: nat): seq<Pulse>
    requires |a| == |t| && k <= |a|
    decreases |a| - k
  {
    if k == |a| then [] else Reversed(a, t, c, k + 1) + [PulseOf(a, t, c, k)]
  }

  lemma SumAPush(ps: seq<Pulse>, p: Pulse)
    ensures SumA(ps + [p]) == SumA(ps) + p.a
  {
    assert (ps + [p])[..|ps|] == ps;
  }

  lemma {:induction false} ReversedAt(a: seq<real>, t: seq<real>, c: real, k: nat)
    requires |a| == |t| && k <= |a|
    ensures var r := Reversed(a, t, c, k);
      |r| == |a| - k && (forall i :: 0 <= i < |r| ==> r[i] == PulseOf(a, t, c, |a| - 1 - i))
    decreases |a| - k
  {
    hide PulseOf;
    if k < |a| {
      ReversedAt(a, t, c, k + 1);
    }
  }

  lemma {:induction false} ReversedSum(a: seq<real>, t: seq<real>, c: real, k: nat)
    requires |a| == |t| && k <= |a|
    ensures SumA(Reversed(a, t, c, k)) == SumFrom(a, k) * c
    decreases |a| - k
  {
    if k < |a| {
      ReversedSum(a, t, c, k + 1);
      SumAPush(Reversed(a, t, c, k + 1), PulseOf(a, t, c, k));
      hide SumA;
      assert (a[k] + SumFrom(a, k + 1)) * c == a[k] * c + SumFrom(a, k + 1) * c;
    }
  }

  // What init_shaper makes of weights a at times t: unit weight, and balanced about time 0.
  function Initial(a: seq<real>, t: seq<real>): seq<Pulse>
    requires |a| == |t| && (a != [] ==> SumFrom(a, 0) != 0.0)
  {
    if a == [] then [] else var r := Reversed(a, t, 1.0 / SumFrom(a, 0), 0); Shift(r, SumAT(r))
  }

  lemma InitialIsBalanced(a: seq<real>, t: seq<real>)
    requires |a| == |t| && a != [] && SumFrom(a, 0) != 0.0
    ensures var ps := Initial(a, t);
      |ps| == |a| && SumA(ps) == 1.0 && SumAT(ps) == 0.0
  {
    var c := 1.0 / SumFrom(a, 0);
    var r := Reversed(a, t, c, 0);
    ReversedAt(a, t, c, 0);
    ReversedSum(a, t, c, 0);
    assert SumFrom(a, 0) * c == 1.0;
    ShiftSums(r, SumAT(r));
  }

  // The pulses are those of the shaper in reverse: later weights come first, at times as far apart as
  // in the shaper, and with heights in the same proportion.
  lemma InitialIsReversed(a: seq<real>, t: seq<real>, i: nat, j: nat)
    requires |a| == |t| && a != [] && SumFrom(a, 0) != 0.0 && i < |a| && j < |a|
    ensures var ps, n := Initial(a, t), |a| - 1;
      && |ps| == |a| && ps[i].a * SumFrom(a, 0) == a[n - i]
      && ps[j].t - ps[i].t == t[n - i] - t[n - j]
  {
    hide Initial, SumFrom, SumAT, Reversed, PulseOf;
    var n, sum := |a| - 1, SumFrom(a, 0);
    InitialAt(a, t, 1.0 / sum, i);
    InitialAt(a, t, 1.0 / sum, j);
    PulseIs(a, t, sum, n - i);
    PulseIs(a, t, sum, n - j);
  }

  lemma PulseIs(a: seq<real>, t: seq<real>, sum: real, k: nat)
    requires |a| == |t| && k < |a| && sum != 0.0
    ensures var p := PulseOf(a, t, 1.0 / sum, k); p.t == -t[k] && p.a * sum == a[k]
  {
    ScaledBack(a[k], sum);
  }

  lemma InitialAt(a: seq<real>, t: seq<real>, c: real, i: nat)
    requires |a| == |t| && a != [] && SumFrom(a, 0) != 0.0 && i < |a| && c == 1.0 / SumFrom(a, 0)
    ensures |Initial(a, t)| == |a|
    ensures var p := PulseOf(a, t, c, |a| - 1 - i);
      Initial(a, t)[i] == Pulse(p.t - SumAT(Reversed(a, t, c, 0)), p.a)
  {
    ReversedAt(a, t, c, 0);
    hide SumFrom, SumAT, Reversed, PulseOf;
  }

  lemma ScaledBack(x: real, sum: real)
    requires sum != 0.0
    ensures (x * (1.0 / sum)) * sum == x
  {
    var c := 1.0 / sum;
    assert c * sum == 1.0;
    assert (x * c) * sum == x * (c * sum);
  }

  lemma EmptyTable(a: seq<real>, t: seq<real>, c: real, d: real)
    requires |a| == |t| == 0
    ensures Reversed(a, t, c, 0) == [] && Shift([], d) == []
  {
  }

  const MAX_PULSES: nat := 5

  // struct shaper_pulses
  class ShaperPulses {
    var numPulses: nat
    const pulses: array<Pulse>

    ghost predicate Valid()
      reads this
    {
      numPulses <= pulses.Length == MAX_PULSES
    }

    ghost function Pulses(): seq<Pulse>
      requires Valid()
      reads this, pulses
    {
      pulses[..numPulses]
    }

    constructor ()
      ensures Valid() && numPulses == 0 && fresh(pulses)
    {
      numPulses := 0;
      pulses := new Pulse[MAX_PULSES](_ => Pulse(0.0, 0.0));
    }

    // shift_pulses
    method ShiftPulses()
      requires Valid()
      modifies pulses
      ensures Valid() && Pulses() == Shift(old(Pulses()), SumAT(old(Pulses())))
    {
      ghost var ps := Pulses();
      var i, ts := 0, 0.0;
      while i < numPulses
        invariant i <= numPulses && ts == SumAT(ps[..i])
        modifies {}
      {
        assert ps[..i+1][..i] == ps[..i];
        ts := ts + pulses[i].a * pulses[i].t;
        i := i + 1;
      }
      assert ps[..numPulses] == ps;
      i := 0;
      while i < numPulses
        invariant i <= numPulses
        invariant forall j :: 0 <= j < i ==> pulses[j] == ps[j].(t := ps[j].t - ts)
        invariant forall j :: i <= j < numPulses ==> pulses[j] == ps[j]
        modifies pulses
      {
        pulses[i] := pulses[i].(t := pulses[i].t - ts);
        i := i + 1;
      }
    }

    // The loop of init_shaper that fills the table in reverse.
    method FillPulses(a: seq<real>, t: seq<real>, invA: real)
      requires pulses.Length == MAX_PULSES && |a| == |t| <= MAX_PULSES
      modifies this`numPulses, pulses
      ensures Valid() && Pulses() == Reversed(a, t, invA, 0)
    {
      hide PulseOf, Reversed;
      var n, i := |a|, 0;
      while i < n
        invariant 0 <= i <= n
        invariant forall j :: n - i <= j < n ==> pulses[j] == PulseOf(a, t, invA, n - 1 - j)
        modifies pulses
      {
        pulses[n - i - 1] := PulseOf(a, t, invA, i);
        i := i + 1;
      }
      numPulses := n;
      ReversedAt(a, t, invA, 0);
      ghost var r := Reversed(a, t, invA, 0);
      assert forall j :: 0 <= j < n ==> Pulses()[j] == r[j];
      assert Pulses() == r;
    }

    // init_shaper, with the n of the caller's arrays.
    method InitShaper(n: int, a: seq<real>, t: seq<real>) returns (status: int)
      requires Valid() && (0 <= n <= MAX_PULSES ==> |a| == n == |t| && (n > 0 ==> SumFrom(a, 0) != 0.0))
      modifies this`numPulses, pulses
      ensures Valid() && (status == 0 <==> 0 <= n <= MAX_PULSES) && (status == 0 || status == -1)
      ensures Pulses() == if status == 0 then Initial(a, t) else []
    {
      hide Reversed, Shift, SumA, SumAT;
      if n < 0 || n > MAX_PULSES {
        numPulses := 0;
        return -1;
      }
      var i, sumA := 0, 0.0;
      while i < n
        invariant 0 <= i <= n && sumA + SumFrom(a, i) == SumFrom(a, 0)
        modifies {}
      {
        sumA := sumA + a[i];
        i := i + 1;
      }
      // Without pulses the quotient is never used.
      var invA := if n == 0 then 0.0 else 1.0 / sumA;
      FillPulses(a, t, invA);
      ghost var r := Pulses();
      ShiftPulses();
      if n == 0 {
        EmptyTable(a, t, invA, SumAT(r));
      }
      assert n > 0 ==> Initial(a, t) == Shift(r, SumAT(r));
      return 0;
    }
  }

  // Motion at constant speed v.
  function Line(p0: real, v: real, t: real): real { p0 + v * t }

  function LineSum(p0: real, v: real, t: real, sumA: real, sumAT: real): real { (p0 + v * t) * sumA + v * sumAT }

  lemma LineStep(p0: real, v: real, t: real, sumA: real, sumAT: real, a: real, at: real, x: real)
    requires x == Line(p0, v, t + at)
    ensures LineSum(p0, v, t, sumA, sumAT) + a * x == LineSum(p0, v, t, sumA + a, sumAT + a * at)
  {
    assert a * (p0 + v * (t + at)) == (p0 + v * t) * a + v * (a * at);
  }

  lemma LineNone(p0: real, v: real, t: real)
    ensures LineSum(p0, v, t, 0.0, 0.0) == 0.0 && LineSum(p0, v, t, 1.0, 0.0) == Line(p0, v, t)
  {
  }

  // What the pulses make of motion at constant speed.
  lemma {:induction false} ShapedLine(ms: seq<Move>, axis: Axis, t: real, ps: seq<Pulse>, p0: real, v: real)
    requires ms != [] && forall p :: p in ps ==> PosAt(ms, axis, t + p.t) == Line(p0, v, t + p.t)
    ensures Shaped(ms, axis, t, ps) == LineSum(p0, v, t, SumA(ps), SumAT(ps))
  {
    hide PosAt, Line, LineSum;
    if ps == [] {
      LineNone(p0, v, t);
    } else {
      var n := |ps| - 1;
      var a, at, x := ps[n].a, ps[n].t, PosAt(ms, axis, t + ps[n].t);
      ShapedLine(ms, axis, t, ps[..n], p0, v);
      assert ps[n] in ps;
      LineStep(p0, v, t, SumA(ps[..n]), SumAT(ps[..n]), a, at, x);
      assert SumA(ps) == SumA(ps[..n]) + a && SumAT(ps) == SumAT(ps[..n]) + a * at;
      assert Shaped(ms, axis, t, ps) == Shaped(ms, axis, t, ps[..n]) + a * x;
    }
  }

  // All entries move at speed v along the axis.
  predicate Steady(ms: seq<Move>, axis: Axis, v: real) {
    forall k :: 0 <= k < |ms| ==>
      Of(ms[k].axesR, axis) * ms[k].startV == v && Of(ms[k].axesR, axis) * ms[k].halfAccel == 0.0
  }

  lemma SteadyMove(m: Move, axis: Axis, v: real, t: real)
    requires Of(m.axesR, axis) * m.startV == v && Of(m.axesR, axis) * m.halfAccel == 0.0
    ensures AxisAt(m, axis, t) == Of(m.startPos, axis) + v * t
  {
    var r := Of(m.axesR, axis);
    assert r * ((m.startV + m.halfAccel * t) * t) == r * m.startV * t + r * m.halfAccel * (t * t);
  }

  lemma {:induction false} SteadyStart(ms: seq<Move>, axis: Axis, v: real, k: nat)
    requires Continuous(ms, axis) && Steady(ms, axis, v) && k < |ms|
    ensures Of(ms[k].startPos, axis) == Line(Of(ms[0].startPos, axis), v, Start(ms, k))
  {
    hide AxisAt;
    if k > 0 {
      SteadyStart(ms, axis, v, k - 1);
      SteadyMove(ms[k-1], axis, v, ms[k-1].moveT);
      assert v * (Start(ms, k - 1) + ms[k-1].moveT) == v * Start(ms, k - 1) + v * ms[k-1].moveT;
    }
  }

  lemma SteadyValue(ms: seq<Move>, axis: Axis, v: real, k: nat, t: real)
    requires Continuous(ms, axis) && Steady(ms, axis, v) && k < |ms|
    ensures ValueAt(ms, axis, k, t) == Line(Of(ms[0].startPos, axis), v, t)
  {
    hide AxisAt, Start, Continuous;
    var s := Start(ms, k);
    SteadyStart(ms, axis, v, k);
    SteadyMove(ms[k], axis, v, t - s);
    hide Steady;
    assert v * (t - s) == v * t - v * s;
  }

  // Main theorem: whatever weights and times it is set up with, the shaper does not change motion at
  // constant speed.
  lemma IdentityOnSteady(ms: seq<Move>, axis: Axis, v: real, t: real, a: seq<real>, times: seq<real>)
    requires Continuous(ms, axis) && Steady(ms, axis, v) && InReach(ms, t)
    requires |a| == |times| && a != [] && SumFrom(a, 0) != 0.0 && AllInReach(ms, t, Initial(a, times))
    ensures Shaped(ms, axis, t, Initial(a, times)) == PosAt(ms, axis, t)
  {
    hide PosAt, InReach, Initial, SumA, SumAT, SumFrom, Shaped, Steady, Line, LineSum, Lasting, AxisAt;
    var ps := Initial(a, times);
    InitialIsBalanced(a, times);
    var p0 := Of(ms[0].startPos, axis);
    SteadyAt(ms, axis, v, t);
    forall p | p in ps ensures PosAt(ms, axis, t + p.t) == Line(p0, v, t + p.t) {
      assert InReach(ms, t + p.t);
      SteadyAt(ms, axis, v, t + p.t);
    }
    ShapedLine(ms, axis, t, ps, p0, v);
    LineNone(p0, v, t);
  }

  lemma SteadyAt(ms: seq<Move>, axis: Axis, v: real, t: real)
    requires Continuous(ms, axis) && Steady(ms, axis, v) && InReach(ms, t)
    ensures PosAt(ms, axis, t) == Line(Of(ms[0].startPos, axis), v, t)
  {
    hide PosUpTo, ValueAt, Start, Steady;
    var k := SomeAt(ms, t, |ms|);
    PosUpToIs(ms, axis, t, |ms|, k);
    SteadyValue(ms, axis, v, k, t);
  }
}
