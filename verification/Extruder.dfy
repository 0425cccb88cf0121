/**
 Pressure advance and its smoothing (kin_extruder.c): a weighted integral across the list of moves.

 As in Shaper, the list starts at the oldest entry still kept, and instants count from there.
 */
module Extruder {
  import opened Trapq
  import opened Motion

  // struct pa_params
  datatype Setting = Setting(pressureAdvance: real, activePrintTime: real)

  // base + t * (v + t * h)
  datatype Poly = Poly(base: real, v: real, h: real)

  /* ----- Integrals ----- */

  // The antiderivatives used by extruder_integrate and extruder_integrate_time.
  function Anti(p: Poly, s: real): real { s * (p.base + s * (0.5 * p.v + s * ((1.0 / 3.0) * p.h))) }

  function AntiTime(p: Poly, s: real): real { s * s * (0.5 * p.base + s * ((1.0 / 3.0) * p.v + s * (0.25 * p.h))) }

  // The antiderivative of (t - offset) * (base + t * (v + t * h)).
  function Weighted(p: Poly, offset: real, s: real): real { AntiTime(p, s) - offset * Anti(p, s) }

  // The same motion seen from u later.
  function Shifted(p: Poly, u: real): Poly { Later(p.base, p.v, p.h, u) }

  function Later(base: real, v: real, h: real, u: real): Poly { Poly(base + u * (v + u * h), v + 2.0 * h * u, h) }

  lemma ShiftAnti(p: Poly, u: real, x: real)
    ensures Anti(Shifted(p, u), x) == Anti(p, u + x) - Anti(p, u)
  {
    var b, v, h := p.base, p.v, (1.0 / 3.0) * p.h;
    var q := Shifted(p, u);
    assert q.base * x == b * x + v * (u * x) + 3.0 * (h * (u * u * x));
    assert 0.5 * q.v * (x * x) == 0.5 * v * (x * x) + 3.0 * (h * (u * x * x));
    assert Anti(q, x) == q.base * x + 0.5 * q.v * (x * x) + h * (x * x * x);
    assert Anti(p, u) == b * u + 0.5 * v * (u * u) + h * (u * u * u);
    var w := u + x;
    assert Anti(p, w) == b * w + 0.5 * v * (w * w) + h * (w * w * w);
    assert w * w == u * u + 2.0 * (u * x) + x * x;
    assert w * w * w == u * u * u + 3.0 * (u * u * x) + 3.0 * (u * x * x) + x * x * x;
  }

  lemma Powers(u: real, x: real)
    ensures var w := u + x;
      && w * w == u * u + 2.0 * (u * x) + x * x
      && w * w * w == u * u * u + 3.0 * (u * u * x) + 3.0 * (u * x * x) + x * x * x
      && w * w * w * w
        == u * u * u * u + 4.0 * (u * u * u * x) + 6.0 * (u * u * x * x) + 4.0 * (u * x * x * x) + x * x * x * x
  {
  }

  lemma AntiTimeIs(p: Poly, s: real)
    ensures AntiTime(p, s)
      == 0.5 * (p.base * (s * s)) + (1.0 / 3.0) * (p.v * (s * s * s)) + 0.25 * (p.h * (s * s * s * s))
  {
  }

  lemma AntiTimeAfter(p: Poly, u: real, x: real)
    ensures AntiTime(p, u + x) == AntiTime(p, u)
      + 0.5 * (p.base * (2.0 * (u * x) + x * x))
      + (1.0 / 3.0) * (p.v * (3.0 * (u * u * x) + 3.0 * (u * x * x) + x * x * x))
      + 0.25 * (p.h * (4.0 * (u * u * u * x) + 6.0 * (u * u * x * x) + 4.0 * (u * x * x * x) + x * x * x * x))
  {
    AntiTimeIs(p, u);
    AntiTimeIs(p, u + x);
    Powers(u, x);
    hide AntiTime;
  }

  lemma AntiTimeOfShifted(p: Poly, u: real, x: real)
    ensures AntiTime(Shifted(p, u), x)
      == 0.5 * (p.base * (x * x)) + 0.5 * (p.v * (u * x * x)) + 0.5 * (p.h * (u * u * x * x))
      + (1.0 / 3.0) * (p.v * (x * x * x)) + (2.0 / 3.0) * (p.h * (u * x * x * x)) + 0.25 * (p.h * (x * x * x * x))
  {
  }

  lemma TimesAntiOfShifted(p: Poly, u: real, x: real)
    ensures u * Anti(Shifted(p, u), x) == p.base * (u * x) + p.v * (u * u * x) + p.h * (u * u * u * x)
      + 0.5 * (p.v * (u * x * x)) + p.h * (u * u * x * x) + (1.0 / 3.0) * (p.h * (u * x * x * x))
  {
  }

  lemma ShiftAntiTime(p: Poly, u: real, x: real)
    ensures AntiTime(Shifted(p, u), x) == AntiTime(p, u + x) - AntiTime(p, u) - u * Anti(Shifted(p, u), x)
  {
    AntiTimeAfter(p, u, x);
    AntiTimeOfShifted(p, u, x);
    TimesAntiOfShifted(p, u, x);
    hide Anti, AntiTime, Shifted;
  }

  // Integrating from u on is integrating the shifted motion.
  lemma ShiftWeighted(p: Poly, u: real, offset: real, x: real)
    ensures Weighted(Shifted(p, u), offset - u, x) == Weighted(p, offset, u + x) - Weighted(p, offset, u)
  {
    ShiftAnti(p, u, x);
    ShiftAntiTime(p, u, x);
    hide Anti, AntiTime, Shifted;
    var f, f0, f1 := Anti(Shifted(p, u), x), Anti(p, u), Anti(p, u + x);
    assert (offset - u) * f == offset * f1 - offset * f0 - u * f;
  }

  /* ----- The weighted integral over a list ----- */

  // x limited to the duration of a move.
  function Clamp(x: real, moveT: real): real { if x < 0.0 then 0.0 else if x > moveT then moveT else x }

  // The part of the integral from lo to hi, weighted with the distance from c, that falls on an
  // entry with motion p that starts at s.
  function Piece(p: Poly, moveT: real, s: real, lo: real, hi: real, c: real): real {
    Weighted(p, c - s, Clamp(hi - s, moveT)) - Weighted(p, c - s, Clamp(lo - s, moveT))
  }

  // Entries i to j - 1.
  function Pieces(ms: seq<Move>, ps: seq<Poly>, lo: real, hi: real, c: real, i: nat, j: nat): real
    requires i <= j <= |ms| == |ps|
  {
    if i == j then 0.0
    else Pieces(ms, ps, lo, hi, c, i, j - 1) + Piece(ps[j-1], ms[j-1].moveT, Start(ms, j - 1), lo, hi, c)
  }

  lemma {:induction false} PiecesFirst(ms: seq<Move>, ps: seq<Poly>, lo: real, hi: real, c: real, i: nat, j: nat)
    requires i < j <= |ms| == |ps|
    ensures Pieces(ms, ps, lo, hi, c, i, j)
      == Piece(ps[i], ms[i].moveT, Start(ms, i), lo, hi, c) + Pieces(ms, ps, lo, hi, c, i + 1, j)
  {
    if i + 1 < j {
      PiecesFirst(ms, ps, lo, hi, c, i, j - 1);
    }
  }

  lemma {:induction false} PiecesJoin(ms: seq<Move>, ps: seq<Poly>, lo: real, hi: real, c: real, i: nat, j: nat, k: nat)
    requires i <= j <= k <= |ms| == |ps|
    ensures Pieces(ms, ps, lo, hi, c, i, k) == Pieces(ms, ps, lo, hi, c, i, j) + Pieces(ms, ps, lo, hi, c, j, k)
  {
    if j < k {
      PiecesJoin(ms, ps, lo, hi, c, i, j, k - 1);
    }
  }

  // Entries before lo or after hi add nothing.
  lemma {:induction false} PiecesOutside(ms: seq<Move>, ps: seq<Poly>, lo: real, hi: real, c: real, i: nat, j: nat)
    requires i <= j <= |ms| == |ps| && Lasting(ms) && lo <= hi
    requires Start(ms, j) <= lo || hi <= Start(ms, i)
    ensures Pieces(ms, ps, lo, hi, c, i, j) == 0.0
  {
    hide Weighted, Start;
    if i < j {
      StartsInOrder(ms, i, j - 1);
      StartAfter(ms, j);
      PiecesOutside(ms, ps, lo, hi, c, i, j - 1);
    }
  }

  // When all entries are parts of one motion g, the pieces add up to the integral of g.
  lemma {:induction false} Telescope(ms: seq<Move>, ps: seq<Poly>, g: Poly, lo: real, hi: real, c: real, n: nat)
    requires n <= |ms| == |ps| && Lasting(ms) && 0.0 <= lo <= hi
    requires forall j: nat :: j < n ==> ps[j] == Shifted(g, Start(ms, j))
    ensures Pieces(ms, ps, lo, hi, c, 0, n)
      == Weighted(g, c, Clamp(hi, Start(ms, n))) - Weighted(g, c, Clamp(lo, Start(ms, n)))
  {
    hide Weighted, Start, Shifted, Clamp, Lasting, Piece;
    if n == 0 {
      NothingYet(ms, lo);
      NothingYet(ms, hi);
    } else {
      var s, t := Start(ms, n - 1), ms[n-1].moveT;
      StartAfter(ms, n);
      Telescope(ms, ps, g, lo, hi, c, n - 1);
      assert ps[n-1] == Shifted(g, s);
      PieceOfOne(g, c, lo, hi, s, t);
    }
  }

  lemma NothingYet(ms: seq<Move>, x: real)
    requires x >= 0.0
    ensures Clamp(x, Start(ms, 0)) == 0.0
  {
  }

  lemma StartAfter(ms: seq<Move>, n: nat)
    requires 0 < n <= |ms| && Lasting(ms)
    ensures Start(ms, n - 1) >= 0.0 && ms[n-1].moveT >= 0.0 && Start(ms, n) == Start(ms, n - 1) + ms[n-1].moveT
  {
    StartsInOrder(ms, 0, n - 1);
  }

  // An instant is either before s, or after it, and each part sees the other end at s.
  lemma ClampSplit(x: real, s: real, t: real)
    requires s >= 0.0 && t >= 0.0
    ensures x <= s ==> Clamp(x, s) == Clamp(x, s + t) && s + Clamp(x - s, t) == s
    ensures x >= s ==> Clamp(x, s) == s && s + Clamp(x - s, t) == Clamp(x, s + t)
  {
  }

  // Where one end of the integral falls, before s or after it.
  lemma EndPart(g: Poly, c: real, x: real, s: real, t: real)
    requires s >= 0.0 && t >= 0.0
    ensures Weighted(Shifted(g, s), c - s, Clamp(x - s, t)) + Weighted(g, c, Clamp(x, s))
      == Weighted(g, c, Clamp(x, s + t))
  {
    hide Weighted, Shifted, Clamp;
    ShiftWeighted(g, s, c, Clamp(x - s, t));
    ClampSplit(x, s, t);
  }

  lemma PieceOfOne(g: Poly, c: real, lo: real, hi: real, s: real, t: real)
    requires s >= 0.0 && t >= 0.0
    ensures Piece(Shifted(g, s), t, s, lo, hi, c) == Weighted(g, c, Clamp(hi, s + t)) - Weighted(g, c, Clamp(hi, s))
      - (Weighted(g, c, Clamp(lo, s + t)) - Weighted(g, c, Clamp(lo, s)))
  {
    hide Weighted, Shifted, Clamp;
    EndPart(g, c, hi, s, t);
    EndPart(g, c, lo, s, t);
  }

  lemma AroundIsAll(ms: seq<Move>, ps: seq<Poly>, lo: real, hi: real, c: real, i: nat, j: nat)
    requires i <= j <= |ms| == |ps| && Lasting(ms) && lo <= hi && Start(ms, i) <= lo && hi <= Start(ms, j)
    ensures Pieces(ms, ps, lo, hi, c, 0, |ms|) == Pieces(ms, ps, lo, hi, c, i, j)
  {
    PiecesOutside(ms, ps, lo, hi, c, 0, i);
    PiecesOutside(ms, ps, lo, hi, c, j, |ms|);
    PiecesJoin(ms, ps, lo, hi, c, 0, i, j);
    PiecesJoin(ms, ps, lo, hi, c, 0, j, |ms|);
  }

  // The area of pa_range_integrate around instant t.
  function Area(ms: seq<Move>, ps: seq<Poly>, t: real, hst: real): real
    requires |ms| == |ps|
  {
    Pieces(ms, ps, t - hst, t, t - hst, 0, |ms|) - Pieces(ms, ps, t, t + hst, t + hst, 0, |ms|)
  }

  predicate WindowInReach(ms: seq<Move>, t: real, hst: real) {
    hst >= 0.0 && t - hst >= 0.0 && t + hst <= Start(ms, |ms|)
  }

  // For one motion over the whole window the area is the closed form.
  lemma {:induction false} AreaOfOne(ms: seq<Move>, ps: seq<Poly>, g: Poly, t: real, hst: real)
    requires |ms| == |ps| && Lasting(ms) && WindowInReach(ms, t, hst)
    requires forall j: nat :: j < |ms| ==> ps[j] == Shifted(g, Start(ms, j))
    ensures Area(ms, ps, t, hst) == Weighted(g, t - hst, t) - Weighted(g, t - hst, t - hst)
      - (Weighted(g, t + hst, t + hst) - Weighted(g, t + hst, t))
  {
    hide Weighted, Shifted, Start, Pieces;
    Telescope(ms, ps, g, t - hst, t, t - hst, |ms|);
    Telescope(ms, ps, g, t, t + hst, t + hst, |ms|);
  }

  /* ----- Pressure advance ----- */

  // The setting in force at printTime, among the first n.
  function Chosen(pas: seq<Setting>, printTime: real, n: nat): real
    requires 0 < n <= |pas|
  {
    if n == 1 || pas[n-1].activePrintTime <= printTime then pas[n-1].pressureAdvance else Chosen(pas, printTime, n - 1)
  }

  function PressureAdvance(m: Move, pas: seq<Setting>): real
    requires pas != []
  {
    if m.axesR.y != 0.0 then Chosen(pas, m.printTime, |pas|) else 0.0
  }

  // Position and speed with pressure advance, from a base position.
  function Advanced(base: real, v: real, h: real, pa: real): Poly { Poly(base + pa * v, v + pa * 2.0 * h, h) }

  function WithAdvance(m: Move, pa: real, base: real): Poly { Advanced(base, m.startV, m.halfAccel, pa) }

  function PolyOf(m: Move, pas: seq<Setting>, base: real): Poly
    requires pas != []
  {
    WithAdvance(m, PressureAdvance(m, pas), base)
  }

  function Polys(ms: seq<Move>, pas: seq<Setting>, startBase: real): (ps: seq<Poly>)
    requires pas != []
    ensures |ps| == |ms|
  {
    seq(|ms|, i requires 0 <= i < |ms| => PolyOf(ms[i], pas, ms[i].startPos.x - startBase))
  }

  // The base position of entry i.
  function StartX(ms: seq<Move>, i: nat): real
    requires i < |ms|
  {
    ms[i].startPos.x
  }

  lemma WeightedDifference(p: Poly, offset: real, s: real, e: real)
    ensures AntiTime(p, e) - AntiTime(p, s) - offset * (Anti(p, e) - Anti(p, s))
      == Weighted(p, offset, e) - Weighted(p, offset, s)
  {
    hide Anti, AntiTime;
  }

  // pa_move_integrate
  method PaMoveIntegrate(m: Move, pas: seq<Setting>, base: real, start0: real, end0: real, timeOffset: real)
    returns (r: real)
    requires pas != [] && start0 <= m.moveT && end0 >= 0.0 && m.moveT >= 0.0
    ensures var p := PolyOf(m, pas, base);
      r == Weighted(p, timeOffset, Clamp(end0, m.moveT)) - Weighted(p, timeOffset, Clamp(start0, m.moveT))
  {
    hide Anti, AntiTime, Weighted, WithAdvance;
    var start, end := start0, end0;
    if start < 0.0 {
      start := 0.0;
    }
    if end > m.moveT {
      end := m.moveT;
    }
    var pressureAdvance := 0.0;
    if m.axesR.y != 0.0 {
      var pa := |pas| - 1;
      while pas[pa].activePrintTime > m.printTime && pa != 0
        invariant 0 <= pa < |pas| && Chosen(pas, m.printTime, |pas|) == Chosen(pas, m.printTime, pa + 1)
        decreases pa
      {
        pa := pa - 1;
      }
      pressureAdvance := pas[pa].pressureAdvance;
    }
    var p := WithAdvance(m, pressureAdvance, base);
    assert pressureAdvance == PressureAdvance(m, pas) && p == PolyOf(m, pas, base);
    assert start == Clamp(start0, m.moveT) && end == Clamp(end0, m.moveT);
    var iext := Anti(p, end) - Anti(p, start);
    var wgtExt := AntiTime(p, end) - AntiTime(p, start);
    r := wgtExt - timeOffset * iext;
    WeightedDifference(p, timeOffset, start, end);
  }

  // What pa_move_integrate is asked for is the piece of the move.
  lemma PartOf(p: Poly, moveT: real, s: real, lo: real, hi: real, c: real, start: real, end: real, offset: real)
    requires offset == c - s
    requires start == lo - s || (start == 0.0 && lo <= s)
    requires end == hi - s || (end == moveT && hi >= s + moveT)
    ensures moveT >= 0.0 ==>
      Piece(p, moveT, s, lo, hi, c) == Weighted(p, offset, Clamp(end, moveT)) - Weighted(p, offset, Clamp(start, moveT))
  {
    hide Weighted;
  }

  // pa_range_integrate
  method PaRangeIntegrate(ms: seq<Move>, i: nat, moveTime: real, pas: seq<Setting>, hst: real) returns (res: real)
    requires pas != [] && Lasting(ms) && i < |ms| && At(ms, i, Start(ms, i) + moveTime)
    requires WindowInReach(ms, Start(ms, i) + moveTime, hst)
    ensures res == Area(ms, Polys(ms, pas, StartX(ms, i)), Start(ms, i) + moveTime, hst)
  {
    hide Weighted, PolyOf, Clamp, Piece;
    ghost var t := Start(ms, i) + moveTime;
    ghost var ps := Polys(ms, pas, StartX(ms, i));
    var start, end := moveTime - hst, moveTime + hst;
    var startBase := ms[i].startPos.x;
    var now := PaMoveIntegrate(ms[i], pas, 0.0, start, moveTime, start);
    var ahead := PaMoveIntegrate(ms[i], pas, 0.0, moveTime, end, end);
    res := now - ahead;
    PartOf(ps[i], ms[i].moveT, Start(ms, i), t - hst, t, t - hst, start, moveTime, start);
    PartOf(ps[i], ms[i].moveT, Start(ms, i), t, t + hst, t + hst, moveTime, end, end);
    var prev := i;
    while start < 0.0
      invariant prev <= i && start == t - hst - Start(ms, prev)
      invariant res == Pieces(ms, ps, t - hst, t, t - hst, prev, i + 1) - Pieces(ms, ps, t, t + hst, t + hst, i, i + 1)
      decreases prev
    {
      prev := prev - 1;
      start := start + ms[prev].moveT;
      var base := ms[prev].startPos.x - startBase;
      var part := PaMoveIntegrate(ms[prev], pas, base, start, ms[prev].moveT, start);
      res := res + part;
      StartsInOrder(ms, prev + 1, i);
      PartOf(ps[prev], ms[prev].moveT, Start(ms, prev), t - hst, t, t - hst, start, ms[prev].moveT, start);
      PiecesFirst(ms, ps, t - hst, t, t - hst, prev, i + 1);
    }
    var m := i;
    while end > ms[m].moveT
      invariant i <= m < |ms| && end == t + hst - Start(ms, m)
      invariant res == Pieces(ms, ps, t - hst, t, t - hst, prev, i + 1) - Pieces(ms, ps, t, t + hst, t + hst, i, m + 1)
      decreases |ms| - m
    {
      end := end - ms[m].moveT;
      m := m + 1;
      var base := ms[m].startPos.x - startBase;
      var part := PaMoveIntegrate(ms[m], pas, base, 0.0, end, end);
      res := res - part;
      StartsInOrder(ms, i + 1, m);
      PartOf(ps[m], ms[m].moveT, Start(ms, m), t, t + hst, t + hst, 0.0, end, end);
    }
    AroundIsAll(ms, ps, t - hst, t, t - hst, prev, i + 1);
    AroundIsAll(ms, ps, t, t + hst, t + hst, i, m + 1);
  }

  /* ----- The smoothed position ----- */

  // The weighted average of the position with pressure advance, hst to either side of instant t.
  function Smoothed(ms: seq<Move>, pas: seq<Setting>, t: real, hst: real): real
    requires pas != [] && hst != 0.0
  {
    Area(ms, Polys(ms, pas, 0.0), t, hst) * (1.0 / (hst * hst))
  }

  // Standing still at 1.
  function One(): Poly { Poly(1.0, 0.0, 0.0) }

  function Ones(n: nat): (ps: seq<Poly>)
    ensures |ps| == n
  {
    seq(n, _ => One())
  }

  // A product that proofs need not look into.
  function Times(x: real, y: real): real { x * y }

  lemma WeightedBase(p: Poly, d: real, offset: real, s: real)
    ensures Weighted(p.(base := p.base - d), offset, s) == Weighted(p, offset, s) - Times(d, Weighted(One(), offset, s))
  {
    var q := p.(base := p.base - d);
    assert Anti(q, s) == Anti(p, s) - d * s && AntiTime(q, s) == AntiTime(p, s) - d * (0.5 * (s * s));
    assert Anti(One(), s) == s && AntiTime(One(), s) == 0.5 * (s * s);
    hide Anti, AntiTime;
    assert offset * (Anti(p, s) - d * s) == offset * Anti(p, s) - d * (offset * s);
  }

  lemma TimesAdd(d: real, x: real, y: real)
    ensures Times(d, x + y) == Times(d, x) + Times(d, y) && Times(d, x - y) == Times(d, x) - Times(d, y)
  {
  }

  lemma PieceBase(p: Poly, d: real, moveT: real, s: real, lo: real, hi: real, c: real)
    ensures Piece(p.(base := p.base - d), moveT, s, lo, hi, c)
      == Piece(p, moveT, s, lo, hi, c) - Times(d, Piece(One(), moveT, s, lo, hi, c))
  {
    hide Weighted, Times;
    var e, f := Clamp(hi - s, moveT), Clamp(lo - s, moveT);
    WeightedBase(p, d, c - s, e);
    WeightedBase(p, d, c - s, f);
    TimesAdd(d, Weighted(One(), c - s, e), Weighted(One(), c - s, f));
  }

  lemma {:induction false} PiecesBase(ms: seq<Move>, pas: seq<Setting>, d: real, lo: real, hi: real, c: real, n: nat)
    requires pas != [] && n <= |ms|
    ensures Pieces(ms, Polys(ms, pas, d), lo, hi, c, 0, n)
      == Pieces(ms, Polys(ms, pas, 0.0), lo, hi, c, 0, n) - Times(d, Pieces(ms, Ones(|ms|), lo, hi, c, 0, n))
  {
    hide Piece, Start, PressureAdvance;
    if n > 0 {
      hide Times;
      PiecesBase(ms, pas, d, lo, hi, c, n - 1);
      var m, s := ms[n-1], Start(ms, n - 1);
      var p := Polys(ms, pas, 0.0)[n-1];
      assert Polys(ms, pas, d)[n-1] == p.(base := p.base - d);
      PieceBase(p, d, m.moveT, s, lo, hi, c);
      TimesAdd(d, Pieces(ms, Ones(|ms|), lo, hi, c, 0, n - 1), Piece(One(), m.moveT, s, lo, hi, c));
    }
  }

  // The weights of a whole window add up to hst * hst.
  lemma AreaOfOnes(ms: seq<Move>, t: real, hst: real)
    requires Lasting(ms) && WindowInReach(ms, t, hst)
    ensures Area(ms, Ones(|ms|), t, hst) == hst * hst
  {
    forall j: nat | j < |ms| ensures Ones(|ms|)[j] == Shifted(One(), Start(ms, j)) {
    }
    AreaOfOne(ms, Ones(|ms|), One(), t, hst);
    OneWeight(t, hst);
  }

  lemma OneWeight(t: real, hst: real)
    ensures Weighted(One(), t - hst, t) - Weighted(One(), t - hst, t - hst)
      - (Weighted(One(), t + hst, t + hst) - Weighted(One(), t + hst, t)) == hst * hst
  {
  }

  // So the base position that the area is taken from does not matter.
  lemma BaseCancels(ms: seq<Move>, pas: seq<Setting>, base: real, t: real, hst: real, area: real, inv: real)
    requires pas != [] && area == Area(ms, Polys(ms, pas, base), t, hst) && hst > 0.0 && inv == 1.0 / (hst * hst)
    requires Lasting(ms) && WindowInReach(ms, t, hst)
    ensures base + area * inv == Smoothed(ms, pas, t, hst)
  {
    hide Pieces, Polys;
    PiecesBase(ms, pas, base, t - hst, t, t - hst, |ms|);
    PiecesBase(ms, pas, base, t, t + hst, t + hst, |ms|);
    AreaOfOnes(ms, t, hst);
    hide Times;
    TimesAdd(base, Pieces(ms, Ones(|ms|), t - hst, t, t - hst, 0, |ms|),
             Pieces(ms, Ones(|ms|), t, t + hst, t + hst, 0, |ms|));
    CancelSquare(base, Area(ms, Polys(ms, pas, 0.0), t, hst), hst);
  }

  lemma CancelSquare(base: real, area: real, hst: real)
    requires hst != 0.0
    ensures base + (area - Times(base, hst * hst)) * (1.0 / (hst * hst)) == area * (1.0 / (hst * hst))
  {
    var q := hst * hst;
    var r := 1.0 / q;
    assert q * r == 1.0;
    assert (area - base * q) * r == area * r - base * (q * r);
  }

  // extruder_calc_position
  method ExtruderCalcPosition(ms: seq<Move>, i: nat, moveTime: real, pas: seq<Setting>, hst: real, invHst2: real)
    returns (x: real)
    requires pas != [] && Lasting(ms) && i < |ms| && At(ms, i, Start(ms, i) + moveTime)
    requires WindowInReach(ms, Start(ms, i) + moveTime, hst) && (hst != 0.0 ==> invHst2 == 1.0 / (hst * hst))
    ensures hst == 0.0 ==> x == ms[i].startPos.x + Distance(ms[i], moveTime)
    ensures hst != 0.0 ==> x == Smoothed(ms, pas, Start(ms, i) + moveTime, hst)
  {
    hide Area, Smoothed, Start;
    if hst == 0.0 {
      return ms[i].startPos.x + Distance(ms[i], moveTime);
    }
    var area := PaRangeIntegrate(ms, i, moveTime, pas, hst);
    x := ms[i].startPos.x + area * invHst2;
    BaseCancels(ms, pas, StartX(ms, i), Start(ms, i) + moveTime, hst, area, invHst2);
  }

  /* ----- Cutting a move ----- */

  // The extruder moves along x only, by the distance of the move, or stands still.
  predicate Extrudes(m: Move) { m.axesR.x == 1.0 || (m.startV == 0.0 && m.halfAccel == 0.0) }

  // No setting comes into force strictly inside an extruding move.
  predicate NoneInside(m: Move, pas: seq<Setting>) {
    m.axesR.y == 0.0 || forall i :: 0 < i < |pas| ==> !(m.printTime < pas[i].activePrintTime < EndTime(m))
  }

  lemma {:induction false} SameChosen(m: Move, pas: seq<Setting>, u: real, n: nat)
    requires 0 < n <= |pas| && 0.0 <= u < m.moveT && m.axesR.y != 0.0 && NoneInside(m, pas)
    ensures Chosen(pas, m.printTime + u, n) == Chosen(pas, m.printTime, n)
  {
    if n > 1 {
      SameChosen(m, pas, u, n - 1);
    }
  }

  // When a cut of the move at u does not matter: nothing is cut off, the second half has the same
  // pressure advance, or it does not move.
  predicate Harmless(m: Move, pas: seq<Setting>, u: real)
    requires pas != []
  {
    || u == m.moveT || PressureAdvance(SecondHalf(m, u), pas) == PressureAdvance(m, pas)
    || (m.startV == 0.0 && m.halfAccel == 0.0)
  }

  lemma NoneInsideIsHarmless(m: Move, pas: seq<Setting>, u: real)
    requires pas != [] && 0.0 <= u <= m.moveT && NoneInside(m, pas)
    ensures Harmless(m, pas, u)
  {
    if m.axesR.y != 0.0 && u < m.moveT {
      SameChosen(m, pas, u, |pas|);
    }
  }

  /* ----- When settings come into force ----- */

  // A move of the toolhead with the time it is given, and what it means to the extruder: whether it
  // extrudes at all, and whether pressure advance applies.
  datatype Extruded = Extruded(
    start: real, accelT: real, cruiseT: real, decelT: real,
    startE: real, startV: real, cruiseV: real, accel: real, extrudes: bool, canAdvance: bool)

  function End(m: Extruded): real { m.start + m.accelT + m.cruiseT + m.decelT }

  // The moves of a print, in any number of batches: each starts when the one before has ended, or later.
  predicate InSequence(ms: seq<Extruded>) {
    && (forall i :: 0 <= i < |ms| ==> ms[i].accelT >= 0.0 && ms[i].cruiseT >= 0.0 && ms[i].decelT >= 0.0)
    && forall i, j :: 0 <= i < j < |ms| ==> End(ms[i]) <= ms[j].start
  }

  // PrinterExtruder.move
  function EntriesFor(m: Extruded): seq<Move> {
    if m.extrudes then
      Segments(m.start, m.accelT, m.cruiseT, m.decelT, Coord(m.startE, 0.0, 0.0),
               Coord(1.0, if m.canAdvance then 1.0 else 0.0, 0.0), m.startV, m.cruiseV, m.accel)
    else []
  }

  // A time at which exactly the first k moves have been timed: the end of the last of them, or any
  // later print time before the next.
  predicate AfterMoves(ms: seq<Extruded>, k: nat, time: real) {
    && k <= |ms| && (forall i :: 0 <= i < k ==> End(ms[i]) <= time)
    && forall i :: k <= i < |ms| ==> time <= ms[i].start
  }

  lemma EndIsAfter(ms: seq<Extruded>, k: nat)
    requires InSequence(ms) && k < |ms|
    ensures AfterMoves(ms, k + 1, End(ms[k]))
  {
  }

  lemma WithinMove(m: Extruded, e: Move)
    requires m.accelT >= 0.0 && m.cruiseT >= 0.0 && m.decelT >= 0.0 && e in EntriesFor(m)
    ensures m.start <= e.printTime && EndTime(e) <= End(m)
  {
    hide CoordAt;
  }

  // Main theorem on extrusion: the entries for a move take its time and keep its proportions: for a move of
  // length dist that extrudes ratio of it, they lead from its start to startE + ratio * dist, at ratio
  // times its speed, and all of them are advanced or none.
  lemma EntriesFollow(m: Extruded, ratio: real, startV: real, cruiseV: real, endV: real, accel: real, dist: real)
    requires m.extrudes && m.startV == startV * ratio && m.cruiseV == cruiseV * ratio && m.accel == accel * ratio
    requires dist
      == AccelDistance(startV, accel, m.accelT) + cruiseV * m.cruiseT + DecelDistance(cruiseV, accel, m.decelT)
    requires m.accelT >= 0.0 && m.cruiseT >= 0.0 && m.decelT >= 0.0
    requires m.accelT != 0.0 || m.cruiseT != 0.0 || m.decelT != 0.0
    requires startV + accel * m.accelT == cruiseV && cruiseV - accel * m.decelT == endV
    ensures var es := EntriesFor(m);
      && es != [] && Smooth(es)
      && es[0].printTime == m.start && es[0].startPos.x == m.startE && es[0].startV == startV * ratio
      && EndTime(es[|es| - 1]) == End(m) && EndSpeed(es[|es| - 1]) == endV * ratio
      && EndPos(es[|es| - 1]).x == m.startE + dist * ratio
    ensures forall e :: e in EntriesFor(m) ==> (e.axesR.y != 0.0 <==> m.canAdvance)
  {
    hide AccelDistance, DecelDistance, Segments, Smooth, EndSpeed, EndTime, EndPos;
    SameDirection(m);
    ScaledSpeed(startV, accel, m.accelT, ratio);
    ScaledSpeed(cruiseV, -accel, m.decelT, ratio);
    ScaledDistance(m, ratio, startV, cruiseV, accel, dist);
    SegmentsSmooth(m.start, m.accelT, m.cruiseT, m.decelT, Coord(m.startE, 0.0, 0.0),
                   Coord(1.0, if m.canAdvance then 1.0 else 0.0, 0.0), m.startV, m.cruiseV, endV * ratio, m.accel,
                   dist * ratio);
  }

  lemma SameDirection(m: Extruded)
    ensures forall e :: e in EntriesFor(m) ==> e.axesR == Coord(1.0, if m.canAdvance then 1.0 else 0.0, 0.0)
  {
    hide CoordAt;
  }

  lemma ScaledSpeed(v: real, a: real, t: real, ratio: real)
    ensures v * ratio + (a * ratio) * t == (v + a * t) * ratio
  {
  }

  lemma ScaledDistance(m: Extruded, ratio: real, startV: real, cruiseV: real, accel: real, dist: real)
    requires m.startV == startV * ratio && m.cruiseV == cruiseV * ratio && m.accel == accel * ratio
    requires dist
      == AccelDistance(startV, accel, m.accelT) + cruiseV * m.cruiseT + DecelDistance(cruiseV, accel, m.decelT)
    ensures dist * ratio == AccelDistance(m.startV, m.accel, m.accelT) + m.cruiseV * m.cruiseT
      + DecelDistance(m.cruiseV, m.accel, m.decelT)
  {
    ScaledPhase(startV, 0.5 * accel, m.accelT, ratio);
    ScaledPhase(cruiseV, 0.0, m.cruiseT, ratio);
    ScaledPhase(cruiseV, -0.5 * accel, m.decelT, ratio);
  }

  lemma ScaledPhase(v: real, h: real, t: real, ratio: real)
    ensures (v * ratio + (h * ratio) * t) * t == ((v + h * t) * t) * ratio
  {
  }

  // Every entry of the list was added, or is a null move.
  lemma {:induction false} AddedOrNull(events: seq<Event>, e: Move)
    requires e in After(events)
    ensures e.axesR.y == 0.0 || Added(e) in events
  {
    var n := |events| - 1;
    assert events == events[..n] + [events[n]];
    if e in After(events[..n]) {
      AddedOrNull(events[..n], e);
    }
  }

  // Main theorem on settings: when each comes into force between two moves of the toolhead, extruding or
  // not, it is inside no entry of the extruder's list, whatever has been added and finalized.
  lemma NeverInside(ms: seq<Extruded>, events: seq<Event>, pas: seq<Setting>, e: Move)
    requires InSequence(ms) && e in After(events)
    requires forall m :: Added(m) in events ==> exists i :: 0 <= i < |ms| && m in EntriesFor(ms[i])
    requires forall i :: 0 < i < |pas| ==> exists k: nat :: AfterMoves(ms, k, pas[i].activePrintTime)
    ensures NoneInside(e, pas)
  {
    hide EntriesFor, After, End, EndTime;
    AddedOrNull(events, e);
    if e.axesR.y != 0.0 {
      var j :| 0 <= j < |ms| && e in EntriesFor(ms[j]);
      WithinMove(ms[j], e);
      forall i | 0 < i < |pas| ensures !(e.printTime < pas[i].activePrintTime < EndTime(e)) {
        var k: nat :| AfterMoves(ms, k, pas[i].activePrintTime);
      }
    }
  }

  lemma MovedX(m: Move, u: real)
    requires Extrudes(m)
    ensures CoordAt(m, u).x == m.startPos.x + u * (m.startV + u * m.halfAccel)
  {
    assert Distance(m, u) == u * (m.startV + u * m.halfAccel);
    assert m.startV == 0.0 && m.halfAccel == 0.0 ==> Distance(m, u) == 0.0;
    hide Distance;
  }

  lemma LaterAdvanced(b: real, v: real, h: real, pa: real, u: real)
    ensures Advanced(b + u * (v + u * h), v + 2.0 * h * u, h, pa) == Later(b + pa * v, v + pa * 2.0 * h, h, u)
  {
    assert u * (v + u * h) == u * v + u * u * h;
    assert pa * (v + 2.0 * h * u) == pa * v + 2.0 * (pa * h * u);
    assert u * (v + pa * 2.0 * h + u * h) == u * v + 2.0 * (pa * h * u) + u * u * h;
  }

  lemma AdvancedShifts(b: real, v: real, h: real, pa: real, u: real)
    ensures Advanced(b + u * (v + u * h), v + 2.0 * h * u, h, pa) == Shifted(Advanced(b, v, h, pa), u)
  {
    LaterAdvanced(b, v, h, pa, u);
    var p := Advanced(b, v, h, pa);
    assert p.base == b + pa * v && p.v == v + pa * 2.0 * h && p.h == h;
    hide Later, Advanced;
    assert Shifted(p, u) == Later(p.base, p.v, p.h, u);
  }

  lemma WithAdvanceShifts(m: Move, pa: real, u: real, x: real)
    requires x == m.startPos.x + u * (m.startV + u * m.halfAccel)
    ensures WithAdvance(SecondHalf(m, u), pa, x) == Shifted(WithAdvance(m, pa, m.startPos.x), u)
  {
    hide Advanced, Shifted;
    AdvancedShifts(m.startPos.x, m.startV, m.halfAccel, pa, u);
    var v := SecondHalf(m, u).startV;
    assert v == m.startV + 2.0 * m.halfAccel * u;
    assert Advanced(x, v, m.halfAccel, pa) == Shifted(WithAdvance(m, pa, m.startPos.x), u);
  }

  // What a change of the pressure advance by d adds to the motion of a move.
  function Extra(m: Move, d: real): Poly { Poly(d * m.startV, d * 2.0 * m.halfAccel, 0.0) }

  function Plus(p: Poly, q: Poly): Poly { Poly(p.base + q.base, p.v + q.v, p.h + q.h) }

  lemma WeightedPlus(p: Poly, q: Poly, offset: real, x: real)
    ensures Weighted(Plus(p, q), offset, x) == Weighted(p, offset, x) + Weighted(q, offset, x)
  {
    AntiPlus(p, q, x);
    AntiTimePlus(p, q, x);
    hide Anti, AntiTime, Plus;
    assert offset * (Anti(p, x) + Anti(q, x)) == offset * Anti(p, x) + offset * Anti(q, x);
  }

  lemma AntiPlus(p: Poly, q: Poly, x: real)
    ensures Anti(Plus(p, q), x) == Anti(p, x) + Anti(q, x)
  {
  }

  lemma AntiTimePlus(p: Poly, q: Poly, x: real)
    ensures AntiTime(Plus(p, q), x) == AntiTime(p, x) + AntiTime(q, x)
  {
    AntiTimeIs(p, x);
    AntiTimeIs(q, x);
    AntiTimeIs(Plus(p, q), x);
    hide AntiTime;
  }

  lemma PiecePlus(p: Poly, q: Poly, moveT: real, s: real, lo: real, hi: real, c: real)
    ensures Piece(Plus(p, q), moveT, s, lo, hi, c) == Piece(p, moveT, s, lo, hi, c) + Piece(q, moveT, s, lo, hi, c)
  {
    hide Weighted, Plus, Clamp;
    WeightedPlus(p, q, c - s, Clamp(hi - s, moveT));
    WeightedPlus(p, q, c - s, Clamp(lo - s, moveT));
  }

  // How much the pressure advance of the second half differs.
  function Change(m: Move, pas: seq<Setting>, u: real): real
    requires pas != []
  {
    PressureAdvance(SecondHalf(m, u), pas) - PressureAdvance(m, pas)
  }

  lemma AdvancePlus(m: Move, pa: real, d: real, base: real)
    ensures WithAdvance(m, pa + d, base) == Plus(WithAdvance(m, pa, base), Extra(m, d))
  {
  }

  lemma PolyOfHalves(m: Move, pas: seq<Setting>, u: real)
    requires pas != [] && Extrudes(m)
    ensures PolyOf(FirstHalf(m, u), pas, m.startPos.x) == PolyOf(m, pas, m.startPos.x)
    ensures PolyOf(SecondHalf(m, u), pas, SecondHalf(m, u).startPos.x)
      == Plus(Shifted(PolyOf(m, pas, m.startPos.x), u), Extra(SecondHalf(m, u), Change(m, pas, u)))
  {
    hide Extrudes, CoordAt, SpeedAt, Shifted, Chosen, Plus, Extra;
    MovedX(m, u);
    WithAdvanceShifts(m, PressureAdvance(m, pas), u, SecondHalf(m, u).startPos.x);
    AdvancePlus(SecondHalf(m, u), PressureAdvance(m, pas), Change(m, pas, u), SecondHalf(m, u).startPos.x);
  }

  lemma CutPiece(p: Poly, t: real, u: real, s: real, lo: real, hi: real, c: real)
    requires 0.0 <= u <= t
    ensures Piece(p, t, s, lo, hi, c) == Piece(p, u, s, lo, hi, c) + Piece(Shifted(p, u), t - u, s + u, lo, hi, c)
  {
    hide Weighted, Shifted, Clamp;
    EndPart(p, c - s, hi - s, u, t - u);
    EndPart(p, c - s, lo - s, u, t - u);
    assert hi - s - u == hi - (s + u) && lo - s - u == lo - (s + u) && c - s - u == c - (s + u);
  }

  // The difference that the cut makes to an integral.
  function CutPart(ms: seq<Move>, pas: seq<Setting>, k: nat, u: real, lo: real, hi: real, c: real): real
    requires pas != [] && k < |ms|
  {
    Piece(Extra(SecondHalf(ms[k], u), Change(ms[k], pas, u)), ms[k].moveT - u, Start(ms, k) + u, lo, hi, c)
  }

  lemma {:induction false} CutPieces(ms: seq<Move>, pas: seq<Setting>, k: nat, u: real, lo: real, hi: real, c: real,
                                     n: nat)
    requires pas != [] && k < |ms| && n <= |ms| && 0.0 <= u <= ms[k].moveT && Extrudes(ms[k])
    ensures var cut := Cut(ms, k, u);
      Pieces(cut, Polys(cut, pas, 0.0), lo, hi, c, 0, if n <= k then n else n + 1)
      == Pieces(ms, Polys(ms, pas, 0.0), lo, hi, c, 0, n) + if n <= k then 0.0 else CutPart(ms, pas, k, u, lo, hi, c)
  {
    hide Piece, PolyOf, Extrudes, Start, Extra, Change, Plus;
    if n > 0 {
      CutPieces(ms, pas, k, u, lo, hi, c, n - 1);
      StartCut(ms, k, u, n - 1);
      StartCut(ms, k, u, n);
      if n == k + 1 {
        var m, x := ms[k], SecondHalf(ms[k], u);
        var p := PolyOf(m, pas, m.startPos.x);
        PolyOfHalves(m, pas, u);
        CutPiece(p, m.moveT, u, Start(ms, k), lo, hi, c);
        PiecePlus(Shifted(p, u), Extra(x, Change(m, pas, u)), m.moveT - u, Start(ms, k) + u, lo, hi, c);
      }
    }
  }

  // The difference to the area, and to the smoothed position.
  function CutArea(ms: seq<Move>, pas: seq<Setting>, k: nat, u: real, t: real, hst: real): real
    requires pas != [] && k < |ms|
  {
    CutPart(ms, pas, k, u, t - hst, t, t - hst) - CutPart(ms, pas, k, u, t, t + hst, t + hst)
  }

  lemma CutDifference(ms: seq<Move>, pas: seq<Setting>, k: nat, u: real, t: real, hst: real)
    requires pas != [] && hst != 0.0 && k < |ms| && 0.0 <= u <= ms[k].moveT && Extrudes(ms[k])
    ensures Smoothed(Cut(ms, k, u), pas, t, hst)
      == Smoothed(ms, pas, t, hst) + CutArea(ms, pas, k, u, t, hst) * (1.0 / (hst * hst))
  {
    hide Pieces, Polys, Cut, Extrudes, CutPart;
    CutLength(ms, k, u);
    CutPieces(ms, pas, k, u, t - hst, t, t - hst, |ms|);
    CutPieces(ms, pas, k, u, t, t + hst, t + hst, |ms|);
    var cut := Cut(ms, k, u);
    AreaSum(Area(cut, Polys(cut, pas, 0.0), t, hst), Area(ms, Polys(ms, pas, 0.0), t, hst),
            CutArea(ms, pas, k, u, t, hst), 1.0 / (hst * hst));
  }

  lemma AreaSum(a: real, b: real, c: real, inv: real)
    requires a == b + c
    ensures a * inv == b * inv + c * inv
  {
  }

  // Nothing is added where nothing is moved, and by a stretch of no length.
  lemma NoPiece(moveT: real, s: real, lo: real, hi: real, c: real)
    ensures Piece(Poly(0.0, 0.0, 0.0), moveT, s, lo, hi, c) == 0.0
    ensures forall p :: Piece(p, 0.0, s, lo, hi, c) == 0.0
  {
    forall offset, x ensures Weighted(Poly(0.0, 0.0, 0.0), offset, x) == 0.0 {
    }
    hide Weighted;
  }

  lemma HarmlessPart(ms: seq<Move>, pas: seq<Setting>, k: nat, u: real, lo: real, hi: real, c: real)
    requires pas != [] && k < |ms| && Harmless(ms[k], pas, u)
    ensures CutPart(ms, pas, k, u, lo, hi, c) == 0.0
  {
    hide Piece, PressureAdvance, CoordAt;
    NoPiece(ms[k].moveT - u, Start(ms, k) + u, lo, hi, c);
    if u != ms[k].moveT {
      assert Extra(SecondHalf(ms[k], u), Change(ms[k], pas, u)) == Poly(0.0, 0.0, 0.0);
    }
  }

  // Main theorem: the smoothed position at an instant does not depend on how the motion is cut up.
  lemma CutKeepsSmoothed(ms: seq<Move>, pas: seq<Setting>, k: nat, u: real, t: real, hst: real)
    requires pas != [] && hst != 0.0 && k < |ms| && Lasting(ms) && 0.0 <= u <= ms[k].moveT
    requires Extrudes(ms[k]) && Harmless(ms[k], pas, u)
    ensures Smoothed(Cut(ms, k, u), pas, t, hst) == Smoothed(ms, pas, t, hst)
    ensures Lasting(Cut(ms, k, u)) && (WindowInReach(ms, t, hst) ==> WindowInReach(Cut(ms, k, u), t, hst))
  {
    hide Smoothed, CutPart, Cut, Start, Lasting, Extrudes, Harmless;
    CutLength(ms, k, u);
    CutDifference(ms, pas, k, u, t, hst);
    HarmlessPart(ms, pas, k, u, t - hst, t, t - hst);
    HarmlessPart(ms, pas, k, u, t, t + hst, t + hst);
    StartCut(ms, k, u, |ms| + 1);
    CutLasts(ms, k, u);
  }

  // The window lies within the second half.
  predicate Within(ms: seq<Move>, k: nat, u: real, t: real, hst: real)
    requires k < |ms|
  {
    hst > 0.0 && Start(ms, k) + u <= t - hst && t + hst <= Start(ms, k) + ms[k].moveT
  }

  // The area of a straight line, seen from s on.
  lemma InsidePart(p0: real, v: real, moveT: real, s: real, t: real, w: real, hst: real, value: real)
    requires hst > 0.0 && s <= t - hst && t + hst <= s + moveT && w == t - s && value == p0 + v * w
    ensures var p := Poly(p0, v, 0.0);
      Piece(p, moveT, s, t - hst, t, t - hst) - Piece(p, moveT, s, t, t + hst, t + hst) == value * (hst * hst)
  {
    LineWeight(p0, v, w, hst);
    assert (p0 + v * w) * (hst * hst) == value * (hst * hst);
    hide Weighted;
    assert t - hst - s == w - hst && t + hst - s == w + hst;
    assert Clamp(w, moveT) == w && Clamp(w - hst, moveT) == w - hst && Clamp(w + hst, moveT) == w + hst;
  }

  lemma DivideOut(x: real, hst: real)
    requires hst != 0.0
    ensures x * (hst * hst) * (1.0 / (hst * hst)) == x
  {
    var q := hst * hst;
    var r := 1.0 / q;
    assert q * r == 1.0;
    assert x * q * r == x * (q * r);
  }

  // In such a window the cut moves the smoothed position by the change of the pressure advance times
  // the speed.
  lemma CutShiftsBy(ms: seq<Move>, pas: seq<Setting>, k: nat, u: real, t: real, hst: real)
    requires pas != [] && k < |ms| && 0.0 <= u <= ms[k].moveT && Extrudes(ms[k]) && Within(ms, k, u, t, hst)
    ensures Smoothed(Cut(ms, k, u), pas, t, hst)
      == Smoothed(ms, pas, t, hst) + Change(ms[k], pas, u) * SpeedAt(ms[k], t - Start(ms, k))
  {
    hide Smoothed, Cut, Extrudes, CutArea, Change, SpeedAt;
    CutDifference(ms, pas, k, u, t, hst);
    CutAreaInside(ms, pas, k, u, t, hst);
    DivideOut(Change(ms[k], pas, u) * SpeedAt(ms[k], t - Start(ms, k)), hst);
  }

  lemma CutAreaInside(ms: seq<Move>, pas: seq<Setting>, k: nat, u: real, t: real, hst: real)
    requires pas != [] && k < |ms| && Within(ms, k, u, t, hst)
    ensures CutArea(ms, pas, k, u, t, hst) == Change(ms[k], pas, u) * SpeedAt(ms[k], t - Start(ms, k)) * (hst * hst)
  {
    hide Piece, Change, CoordAt, SpeedAt, Start;
    var m, d, s := ms[k], Change(ms[k], pas, u), Start(ms, k);
    var x, w := SecondHalf(m, u), t - (s + u);
    var p0, v := d * x.startV, d * 2.0 * x.halfAccel;
    assert Extra(x, d) == Poly(p0, v, 0.0);
    SpeedInside(m, d, u, w, t - s);
    assert p0 + v * w == d * SpeedAt(m, t - s);
    InsidePart(p0, v, m.moveT - u, s + u, t, w, hst, d * SpeedAt(m, t - s));
    assert CutPart(ms, pas, k, u, t - hst, t, t - hst)
      == Piece(Poly(p0, v, 0.0), m.moveT - u, s + u, t - hst, t, t - hst);
    assert CutPart(ms, pas, k, u, t, t + hst, t + hst)
      == Piece(Poly(p0, v, 0.0), m.moveT - u, s + u, t, t + hst, t + hst);
  }

  lemma SpeedInside(m: Move, d: real, u: real, w: real, t: real)
    requires t == u + w
    ensures d * SpeedAt(m, u) + d * 2.0 * m.halfAccel * w == d * SpeedAt(m, t)
  {
  }

  // Cut or not, the motion is the same at every instant, for every window.
  ghost predicate SameEverywhere(ms: seq<Move>, cut: seq<Move>, pas: seq<Setting>)
    requires pas != []
  {
    forall t: real, hst: real :: hst > 0.0 && WindowInReach(ms, t, hst) ==>
      Smoothed(cut, pas, t, hst) == Smoothed(ms, pas, t, hst)
  }

  // A window in the second half around an instant at which the move does not stand still.
  lemma MovingWindow(ms: seq<Move>, k: nat, u: real) returns (t: real, hst: real)
    requires k < |ms| && Lasting(ms) && 0.0 <= u < ms[k].moveT && (ms[k].startV != 0.0 || ms[k].halfAccel != 0.0)
    ensures Within(ms, k, u, t, hst) && WindowInReach(ms, t, hst) && SpeedAt(ms[k], t - Start(ms, k)) != 0.0
  {
    var m, s, r := ms[k], Start(ms, k), ms[k].moveT - u;
    hst := r / 4.0;
    t := s + u + hst;
    var later := t + hst;
    if SpeedAt(m, t - s) == 0.0 {
      if m.halfAccel != 0.0 {
        assert SpeedAt(m, later - s) == SpeedAt(m, t - s) + 2.0 * m.halfAccel * hst;
      }
      t := later;
    }
    StartsInOrder(ms, 0, k);
    StartsInOrder(ms, k + 1, |ms|);
  }

  // Main theorem: this holds exactly when the cut is harmless.
  lemma CutExactly(ms: seq<Move>, pas: seq<Setting>, k: nat, u: real)
    requires pas != [] && k < |ms| && Lasting(ms) && 0.0 <= u <= ms[k].moveT && Extrudes(ms[k])
    ensures SameEverywhere(ms, Cut(ms, k, u), pas) <==> Harmless(ms[k], pas, u)
  {
    hide Smoothed, Cut, WindowInReach, Within, Extrudes, PressureAdvance, SpeedAt, Start, Lasting;
    var m := ms[k];
    if Harmless(m, pas, u) {
      forall t: real, hst: real | hst > 0.0 && WindowInReach(ms, t, hst)
        ensures Smoothed(Cut(ms, k, u), pas, t, hst) == Smoothed(ms, pas, t, hst)
      {
        CutKeepsSmoothed(ms, pas, k, u, t, hst);
      }
    } else {
      var t, hst := MovingWindow(ms, k, u);
      WindowLasts(ms, k, u, t, hst);
      CutShiftsBy(ms, pas, k, u, t, hst);
      assert Change(m, pas, u) != 0.0;
    }
  }

  lemma WindowLasts(ms: seq<Move>, k: nat, u: real, t: real, hst: real)
    requires k < |ms| && Within(ms, k, u, t, hst)
    ensures hst > 0.0
  {
  }

  lemma SteadySpeed(m: Move, u: real)
    requires m.halfAccel == 0.0
    ensures SpeedAt(m, u) == m.startV
  {
  }

  lemma NewSetting(m: Move, pas: seq<Setting>, u: real)
    requires |pas| == 2 && m.axesR.y != 0.0 && m.printTime < pas[1].activePrintTime <= m.printTime + u
    ensures Change(m, pas, u) == pas[1].pressureAdvance - pas[0].pressureAdvance
  {
    assert Chosen(pas, m.printTime, 2) == Chosen(pas, m.printTime, 1);
  }

  // So a move that spans the activation of a setting would be stepped differently once it is cut:
  // here 1.5 later by 1.0.
  lemma SpanningMoveDiffers()
    ensures
      var pas := [Setting(0.0, 0.0), Setting(1.0, 5.0)];
      var m := Move(4.0, 2.0, 1.0, 0.0, ORIGIN, Coord(1.0, 1.0, 0.0));
      Smoothed(Cut([m], 0, 1.5), pas, 1.75, 0.125) == Smoothed([m], pas, 1.75, 0.125) + 1.0
  {
    hide Smoothed, Cut, Change, SpeedAt;
    var pas, m := [Setting(0.0, 0.0), Setting(1.0, 5.0)], Move(4.0, 2.0, 1.0, 0.0, ORIGIN, Coord(1.0, 1.0, 0.0));
    SteadySpeed(m, 1.75);
    NewSetting(m, pas, 1.5);
    assert Start([m], 0) == 0.0;
    CutShiftsBy([m], pas, 0, 1.5, 1.75, 0.125);
  }

  /* ----- Motion at constant speed ----- */

  // All entries move at speed v with pressure advance pa, each from where the one before stops.
  predicate Uniform(ms: seq<Move>, pas: seq<Setting>, v: real, pa: real)
    requires pas != []
  {
    forall j: nat :: j < |ms| ==>
      && ms[j].startV == v && ms[j].halfAccel == 0.0 && PressureAdvance(ms[j], pas) == pa
      && (j > 0 ==> ms[j].startPos.x == ms[j-1].startPos.x + v * ms[j-1].moveT)
  }

  lemma {:induction false} UniformStart(ms: seq<Move>, pas: seq<Setting>, v: real, pa: real, j: nat)
    requires pas != [] && Uniform(ms, pas, v, pa) && j < |ms|
    ensures ms[j].startPos.x == ms[0].startPos.x + v * Start(ms, j)
  {
    hide PressureAdvance;
    if j > 0 {
      UniformStart(ms, pas, v, pa, j - 1);
      assert v * (Start(ms, j - 1) + ms[j-1].moveT) == v * Start(ms, j - 1) + v * ms[j-1].moveT;
    }
  }

  lemma UniformPoly(m: Move, pas: seq<Setting>, v: real, pa: real, p0: real, s: real)
    requires pas != [] && m.startV == v && m.halfAccel == 0.0 && PressureAdvance(m, pas) == pa
    requires m.startPos.x == p0 + v * s
    ensures PolyOf(m, pas, m.startPos.x - 0.0) == Shifted(Poly(p0 + pa * v, v, 0.0), s)
  {
    hide PressureAdvance;
  }

  lemma LineWeight(p0: real, v: real, t: real, hst: real)
    ensures var g := Poly(p0, v, 0.0);
      Weighted(g, t - hst, t) - Weighted(g, t - hst, t - hst)
        - (Weighted(g, t + hst, t + hst) - Weighted(g, t + hst, t))
      == (p0 + v * t) * (hst * hst)
  {
  }

  // Main theorem: at constant speed the stepper is ahead of the nominal position by the pressure
  // advance times the speed, however the motion is cut up.
  lemma SmoothedUniform(ms: seq<Move>, pas: seq<Setting>, v: real, pa: real, t: real, hst: real)
    requires pas != [] && hst > 0.0 && ms != [] && Lasting(ms) && Uniform(ms, pas, v, pa) && WindowInReach(ms, t, hst)
    ensures Smoothed(ms, pas, t, hst) == ms[0].startPos.x + v * t + pa * v
  {
    hide PressureAdvance, Weighted, Area, PolyOf, Shifted, WindowInReach, Lasting;
    var p0 := ms[0].startPos.x;
    var g := Poly(p0 + pa * v, v, 0.0);
    forall j: nat | j < |ms| ensures Polys(ms, pas, 0.0)[j] == Shifted(g, Start(ms, j)) {
      UniformStart(ms, pas, v, pa, j);
      UniformPoly(ms[j], pas, v, pa, p0, Start(ms, j));
    }
    hide Uniform;
    AreaOfOne(ms, Polys(ms, pas, 0.0), g, t, hst);
    LineWeight(p0 + pa * v, v, t, hst);
    CancelSquare(p0 + pa * v + v * t, (p0 + pa * v + v * t) * (hst * hst), hst);
  }

  /* ----- Motion with acceleration ----- */

  // The motion of p at time u.
  function Value(p: Poly, u: real): real { p.base + u * (p.v + u * p.h) }

  // A weighted integral up to its own offset.
  lemma AtOffset(p: Poly, c: real)
    ensures Weighted(p, c, c) == -(0.5 * (p.base * (c * c)) + (1.0 / 6.0) * (p.v * (c * c * c))
                                   + (1.0 / 12.0) * (p.h * (c * c * c * c)))
  {
    AntiTimeIs(p, c);
    TimesAnti(p, c);
    hide Anti, AntiTime;
  }

  lemma TimesAnti(p: Poly, c: real)
    ensures c * Anti(p, c)
      == p.base * (c * c) + 0.5 * (p.v * (c * c * c)) + (1.0 / 3.0) * (p.h * (c * c * c * c))
  {
  }

  // The closed form of the area: the position in the middle, and a sixth of the second coefficient.
  lemma QuadraticWeight(g: Poly, t: real, hst: real)
    ensures Weighted(g, t - hst, t) - Weighted(g, t - hst, t - hst)
      - (Weighted(g, t + hst, t + hst) - Weighted(g, t + hst, t))
      == (Value(g, t) + (g.h / 6.0) * (hst * hst)) * (hst * hst)
  {
    HalfWindow(g, t, -hst, t - hst);
    HalfWindow(g, t, hst, t + hst);
    BothSides(Shifted(g, t), hst);
    hide Weighted;
    ShiftedIs(g, t);
    hide Shifted, Value;
    SameProduct(Shifted(g, t), Value(g, t), g.h, hst);
  }

  // One half of the window, seen from its middle.
  lemma HalfWindow(g: Poly, t: real, c: real, end: real)
    requires end == t + c
    ensures Weighted(Shifted(g, t), c, c) == Weighted(g, end, end) - Weighted(g, end, t)
  {
    ShiftWeighted(g, t, end, c);
    hide Weighted, Shifted;
    assert end - t == c;
  }

  lemma ShiftedIs(g: Poly, t: real)
    ensures Shifted(g, t).base == Value(g, t) && Shifted(g, t).h == g.h
  {
  }

  lemma SameProduct(p: Poly, base: real, h: real, c: real)
    requires p.base == base && p.h == h
    ensures (p.base + (p.h / 6.0) * (c * c)) * (c * c) == (base + (h / 6.0) * (c * c)) * (c * c)
  {
  }

  lemma BothSides(p: Poly, c: real)
    ensures -(Weighted(p, c, c) + Weighted(p, -c, -c)) == (p.base + (p.h / 6.0) * (c * c)) * (c * c)
  {
    AtOffset(p, c);
    AtOffset(p, -c);
    EvenPowers(c);
    hide Weighted;
    Collect(p, c);
  }

  lemma EvenPowers(c: real)
    ensures (-c) * (-c) == c * c && (-c) * (-c) * (-c) == -(c * c * c) && (-c) * (-c) * (-c) * (-c) == c * c * c * c
  {
  }

  lemma Collect(p: Poly, c: real)
    ensures p.base * (c * c) + (1.0 / 6.0) * (p.h * (c * c * c * c)) == (p.base + (p.h / 6.0) * (c * c)) * (c * c)
  {
    var q := c * c;
    assert c * c * c * c == q * q;
    assert (p.base + (p.h / 6.0) * q) * q == p.base * q + ((p.h / 6.0) * q) * q;
    assert ((p.h / 6.0) * q) * q == (1.0 / 6.0) * (p.h * (q * q));
  }

  // Main theorem: while the extruder accelerates evenly, smoothing adds to the position with pressure
  // advance a third of the way that the acceleration makes in half the smoothing time.
  lemma {:induction false} SmoothedQuadratic(ms: seq<Move>, pas: seq<Setting>, g: Poly, t: real, hst: real)
    requires pas != [] && hst > 0.0 && Lasting(ms) && WindowInReach(ms, t, hst)
    requires forall j: nat :: j < |ms| ==> Polys(ms, pas, 0.0)[j] == Shifted(g, Start(ms, j))
    ensures Smoothed(ms, pas, t, hst) == Value(g, t) + (g.h / 6.0) * (hst * hst)
  {
    var x := Value(g, t) + (g.h / 6.0) * (hst * hst);
    AreaIs(ms, Polys(ms, pas, 0.0), g, t, hst, x);
    hide Smoothed, Area, Polys, Value, Start, Shifted, Lasting, WindowInReach;
    FromArea(ms, pas, t, hst, x);
  }

  lemma AreaIs(ms: seq<Move>, ps: seq<Poly>, g: Poly, t: real, hst: real, x: real)
    requires |ms| == |ps| && Lasting(ms) && WindowInReach(ms, t, hst)
    requires forall j: nat :: j < |ms| ==> ps[j] == Shifted(g, Start(ms, j))
    requires x == Value(g, t) + (g.h / 6.0) * (hst * hst)
    ensures Area(ms, ps, t, hst) == x * (hst * hst)
  {
    hide Area, Weighted, Value, Start, Shifted, Lasting, WindowInReach;
    AreaOfOne(ms, ps, g, t, hst);
    QuadraticWeight(g, t, hst);
  }

  lemma FromArea(ms: seq<Move>, pas: seq<Setting>, t: real, hst: real, x: real)
    requires pas != [] && hst != 0.0 && Area(ms, Polys(ms, pas, 0.0), t, hst) == x * (hst * hst)
    ensures Smoothed(ms, pas, t, hst) == x
  {
    hide Area, Polys;
    DivideOut(x, hst);
  }

  // With pressure advance the stepper is ahead of the nominal position by the advance times the speed.
  lemma AdvanceIs(m: Move, pa: real, u: real)
    ensures Value(WithAdvance(m, pa, m.startPos.x), u) == m.startPos.x + Distance(m, u) + pa * SpeedAt(m, u)
  {
    assert u * (m.startV + pa * 2.0 * m.halfAccel + u * m.halfAccel)
      == (m.startV + m.halfAccel * u) * u + pa * (2.0 * m.halfAccel * u);
  }

  // The advance is that of the last setting in force at the start of the move, or of the first one; moves
  // that are not to be advanced have none.
  lemma PressureAdvanceIs(m: Move, pas: seq<Setting>) returns (k: nat)
    requires pas != []
    ensures m.axesR.y == 0.0 ==> PressureAdvance(m, pas) == 0.0
    ensures k < |pas| && (m.axesR.y != 0.0 ==> PressureAdvance(m, pas) == pas[k].pressureAdvance)
    ensures k > 0 ==> pas[k].activePrintTime <= m.printTime
    ensures forall j :: k < j < |pas| ==> pas[j].activePrintTime > m.printTime
  {
    k := |pas| - 1;
    while k > 0 && pas[k].activePrintTime > m.printTime
      invariant k < |pas| && Chosen(pas, m.printTime, |pas|) == Chosen(pas, m.printTime, k + 1)
      invariant forall j :: k < j < |pas| ==> pas[j].activePrintTime > m.printTime
    {
      k := k - 1;
    }
  }
}
