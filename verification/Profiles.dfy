/**
 What the look-ahead planner of toolhead.py plans, in terms of two speed profiles: the greatest squared
 speeds at which the moves of a queue can start so that everything stops after the last one, once with
 the full change of speed of each move and once with the smoothed one.  The functions of LookAhead
 follow the loop of flush; the statements here do not.
 */
module Profiles {
  import opened Basics
  import opened LookAhead

  /* ----- Greatest profiles ----- */

  // Squared speeds before every move and after the last: within the limits, a stop at the end, and no
  // greater change than the moves allow.
  predicate IsProfile(limits: seq<real>, deltas: seq<real>, v2: seq<real>) {
    && |limits| == |deltas| && |v2| == |limits| + 1 && v2[|limits|] == 0.0
    && forall i :: 0 <= i < |limits| ==> v2[i] <= RMin(limits[i], v2[i + 1] + deltas[i])
  }

  ghost predicate IsGreatest(limits: seq<real>, deltas: seq<real>, v2: seq<real>) {
    && IsProfile(limits, deltas, v2)
    && forall w: seq<real>, i: nat :: IsProfile(limits, deltas, w) && i < |w| ==> w[i] <= v2[i]
  }

  lemma GreatestIsUnique(limits: seq<real>, deltas: seq<real>, v: seq<real>, w: seq<real>)
    requires IsGreatest(limits, deltas, v) && IsGreatest(limits, deltas, w)
    ensures v == w
  {
    forall i: nat | i < |v| ensures v[i] == w[i] {
      assert v[i] <= w[i] <= v[i];
    }
  }

  function StartLimits(q: seq<Limits>): (r: seq<real>)
    ensures |r| == |q|
  {
    seq(|q|, i requires 0 <= i < |q| => q[i].maxStartV2)
  }

  function Deltas(q: seq<Limits>): (r: seq<real>)
    ensures |r| == |q|
  {
    seq(|q|, i requires 0 <= i < |q| => q[i].deltaV2)
  }

  function SmoothedLimits(q: seq<Limits>): (r: seq<real>)
    ensures |r| == |q|
  {
    seq(|q|, i requires 0 <= i < |q| => q[i].maxSmoothedV2)
  }

  function SmoothDeltas(q: seq<Limits>): (r: seq<real>)
    ensures |r| == |q|
  {
    seq(|q|, i requires 0 <= i < |q| => q[i].smoothDeltaV2)
  }

  function StartProfile(q: seq<Limits>): (r: seq<real>)
    ensures |r| == |q| + 1
  {
    seq(|q| + 1, i requires 0 <= i < |q| + 1 => PassAt(q, i).endV2)
  }

  function SmoothedProfile(q: seq<Limits>): (r: seq<real>)
    ensures |r| == |q| + 1
  {
    seq(|q| + 1, i requires 0 <= i < |q| + 1 => PassAt(q, i).smoothedV2)
  }

  // A profile that uses the whole of its limits at every move.
  predicate IsTight(limits: seq<real>, deltas: seq<real>, v2: seq<real>) {
    && |limits| == |deltas| && |v2| == |limits| + 1 && v2[|limits|] == 0.0
    && forall i :: 0 <= i < |limits| ==> v2[i] == RMin(limits[i], v2[i + 1] + deltas[i])
  }

  lemma PassIsTight(q: seq<Limits>)
    ensures IsTight(StartLimits(q), Deltas(q), StartProfile(q))
    ensures IsTight(SmoothedLimits(q), SmoothDeltas(q), SmoothedProfile(q))
  {
    PassAtEnd(q);
    forall i | 0 <= i < |q|
      ensures PassAt(q, i).endV2 == RMin(q[i].maxStartV2, PassAt(q, i + 1).endV2 + q[i].deltaV2)
      ensures PassAt(q, i).smoothedV2 == RMin(q[i].maxSmoothedV2, PassAt(q, i + 1).smoothedV2 + q[i].smoothDeltaV2)
    {
      PassAtVisit(q, i);
    }
    hide PassAt, PassOf;
  }

  lemma {:induction false} TightAbove(limits: seq<real>, deltas: seq<real>, v2: seq<real>, w: seq<real>, i: nat)
    requires IsTight(limits, deltas, v2) && IsProfile(limits, deltas, w) && i <= |limits|
    ensures w[i] <= v2[i]
    decreases |limits| - i
  {
    if i < |limits| {
      TightAbove(limits, deltas, v2, w, i + 1);
    }
  }

  lemma TightIsGreatest(limits: seq<real>, deltas: seq<real>, v2: seq<real>)
    requires IsTight(limits, deltas, v2)
    ensures IsGreatest(limits, deltas, v2)
  {
    forall w: seq<real>, i: nat | IsProfile(limits, deltas, w) && i < |w| ensures w[i] <= v2[i] {
      TightAbove(limits, deltas, v2, w, i);
    }
  }

  // The backward pass computes the greatest profiles.
  lemma PassIsGreatest(q: seq<Limits>)
    ensures IsGreatest(StartLimits(q), Deltas(q), StartProfile(q))
    ensures IsGreatest(SmoothedLimits(q), SmoothDeltas(q), SmoothedProfile(q))
  {
    PassIsTight(q);
    hide IsTight, IsGreatest, StartProfile, SmoothedProfile;
    TightIsGreatest(StartLimits(q), Deltas(q), StartProfile(q));
    TightIsGreatest(SmoothedLimits(q), SmoothDeltas(q), SmoothedProfile(q));
  }

  /* ----- Peaks ----- */

  // The smoothed profile falls by all that the move allows.
  predicate Falls(q: seq<Limits>, s: seq<real>, i: nat)
    requires i < |q| && |s| == |q| + 1
  {
    s[i] == s[i + 1] + q[i].smoothDeltaV2
  }

  // The move can speed up and slow down again; or it can speed up and the next one only falls.
  predicate IsTurn(q: seq<Limits>, s: seq<real>, i: nat)
    requires i < |q| && |s| == |q| + 1
  {
    !Falls(q, s, i) && (s[i + 1] < s[i] + q[i].smoothDeltaV2 || (i + 1 < |q| && Falls(q, s, i + 1)))
  }

  // The squared speed at which a move meets itself that speeds up from s[i] and slows down to s[i + 1],
  // both with the smoothed change, or its cruise limit.
  function TopV2(q: seq<Limits>, s: seq<real>, i: nat): real
    requires i < |q| && |s| == |q| + 1
  {
    RMin(q[i].maxCruiseV2, (s[i] + s[i + 1] + q[i].smoothDeltaV2) / 2.0)
  }

  // The peak whose speed bounds move i: the next one, or for a move that only falls the one before it.
  predicate Governs(q: seq<Limits>, s: seq<real>, k: nat, i: nat)
    requires i < |q| && k < |q| && |s| == |q| + 1
  {
    && IsTurn(q, s, k)
    && if Falls(q, s, i) then k < i && forall j :: k < j <= i ==> Falls(q, s, j)
       else i <= k && forall j :: i <= j < k ==> !Falls(q, s, j) && !IsTurn(q, s, j)
  }

  // The least start speed from k to i.
  function LeastOf(e: seq<real>, k: nat, i: nat): real
    requires k <= i < |e|
    decreases i - k
  {
    if k == i then e[i] else RMin(LeastOf(e, k, i - 1), e[i])
  }

  // The planner's branches are these notions.
  lemma BranchesAre(q: seq<Limits>, i: nat)
    requires i < |q|
    ensures Falls(q, SmoothedProfile(q), i) <==> DelayedAt(q, i)
    ensures PassAt(q, i).delayed > 0 <==> Falls(q, SmoothedProfile(q), i)
    ensures IsTurn(q, SmoothedProfile(q), i) <==> IsPeak(q[i], PassAt(q, i + 1))
    ensures PeakV2(q[i], PassAt(q, i + 1)) == TopV2(q, SmoothedProfile(q), i)
  {
    PassAtVisit(q, i);
    if i + 1 < |q| {
      PassAtVisit(q, i + 1);
    } else {
      PassAtEnd(q);
    }
    hide PassAt, PassOf;
  }

  // A move that does not only fall has a peak at it or after it, whose speed the pass carries.
  lemma {:induction false} NextTurn(q: seq<Limits>, i: nat) returns (k: nat)
    requires WellFormed(q) && i < |q| && !Falls(q, SmoothedProfile(q), i)
    ensures k < |q| && Governs(q, SmoothedProfile(q), k, i) && PassAt(q, i).peakV2 == TopV2(q, SmoothedProfile(q), k)
    decreases |q| - i
  {
    BranchesAre(q, i);
    BoundsAt(q, i);
    PassAtEnd(q);
    hide PassAt, PassOf, WellFormed;
    if IsTurn(q, SmoothedProfile(q), i) {
      k := i;
    } else {
      assert i + 1 < |q|;
      k := NextTurn(q, i + 1);
    }
  }

  // A move that only falls follows a peak, whose speed is handed down to it.
  lemma {:induction false} LastTurn(q: seq<Limits>, i: nat) returns (k: nat)
    requires WellFormed(q) && i < |q| && Falls(q, SmoothedProfile(q), i) && !Falls(q, SmoothedProfile(q), 0)
    ensures k < i && Governs(q, SmoothedProfile(q), k, i)
    ensures Chain(q, i) == RMin(TopV2(q, SmoothedProfile(q), k), LeastOf(StartProfile(q), k + 1, i))
  {
    hide PassAt, PassOf, WellFormed, Chain, SmoothedProfile, StartProfile, TopV2, Falls, Governs, LeastOf, IsTurn;
    DelayedNext(q, i);
    var s, e := SmoothedProfile(q), StartProfile(q);
    if Falls(q, s, i - 1) {
      k := LastTurn(q, i - 1);
      FallsOn(q, s, e, k, i);
    } else {
      k := i - 1;
      FallsFirst(q, s, e, i);
    }
  }

  lemma FallsOn(q: seq<Limits>, s: seq<real>, e: seq<real>, k: nat, i: nat)
    requires 0 < i < |q| && k < i - 1 && |s| == |e| == |q| + 1
    requires Governs(q, s, k, i - 1) && Falls(q, s, i - 1) && Falls(q, s, i)
    ensures Governs(q, s, k, i) && LeastOf(e, k + 1, i) == RMin(LeastOf(e, k + 1, i - 1), e[i])
  {
    hide Falls, IsTurn;
  }

  lemma FallsFirst(q: seq<Limits>, s: seq<real>, e: seq<real>, i: nat)
    requires 0 < i < |q| && |s| == |e| == |q| + 1 && IsTurn(q, s, i - 1) && Falls(q, s, i)
    ensures Governs(q, s, i - 1, i) && LeastOf(e, i, i) == e[i]
  {
  }

  lemma DelayedNext(q: seq<Limits>, i: nat)
    requires 0 < i < |q| && Falls(q, SmoothedProfile(q), i)
    ensures var s, e := SmoothedProfile(q), StartProfile(q);
      && (Falls(q, s, i - 1) ==> Chain(q, i) == RMin(Chain(q, i - 1), e[i]))
      && (!Falls(q, s, i - 1) ==> IsTurn(q, s, i - 1) && Chain(q, i) == RMin(TopV2(q, s, i - 1), e[i]))
  {
    BranchesAre(q, i);
    BranchesAre(q, i - 1);
    PassAtVisit(q, i - 1);
    hide PassAt, PassOf;
  }

  // What the plan of a move is, given the peak that governs it.
  predicate PlannedBy(q: seq<Limits>, e: seq<real>, s: seq<real>, k: nat, i: nat, p: Plan)
    requires i < |q| && k < |q| && |e| == |s| == |q| + 1 && Governs(q, s, k, i)
  {
    && p.cruiseV2 == RMin(TopV2(q, s, k),
                          if Falls(q, s, i) then LeastOf(e, k + 1, i)
                          else RMin(q[i].maxCruiseV2, (e[i] + e[i + 1] + q[i].deltaV2) / 2.0))
    && p.startV2 == RMin(e[i], p.cruiseV2) && p.endV2 == RMin(e[i + 1], p.cruiseV2)
  }

  // Main theorem: with the greatest profiles e and s, a move never cruises above the smoothed peak that
  // governs it, and is as fast as that, its own limits and the greatest start speeds allow.
  lemma PlanIs(q: seq<Limits>, e: seq<real>, s: seq<real>, i: nat) returns (k: nat)
    requires WellFormed(q) && i < |q|
    requires IsGreatest(StartLimits(q), Deltas(q), e) && IsGreatest(SmoothedLimits(q), SmoothDeltas(q), s)
    requires !Falls(q, s, 0)
    ensures k < |q| && Governs(q, s, k, i) && PlannedBy(q, e, s, k, i, PlanAt(q, i))
  {
    PassIsGreatest(q);
    GreatestIsUnique(StartLimits(q), Deltas(q), e, StartProfile(q));
    GreatestIsUnique(SmoothedLimits(q), SmoothDeltas(q), s, SmoothedProfile(q));
    BranchesAre(q, i);
    hide PassAt, PassOf, WellFormed, IsGreatest;
    if Falls(q, s, i) {
      k := LastTurn(q, i);
    } else {
      k := NextTurn(q, i);
      PlanAtMove(q, i);
    }
  }

  // Every move that a flush hands out is planned so, whatever was queued and flushed before.
  lemma FlushPlans(s: State, lazy: bool, e: seq<real>, smoothed: seq<real>, i: nat) returns (k: nat)
    requires Inv(s) && i < FlushCount(s.queue, lazy)
    requires IsGreatest(StartLimits(s.queue), Deltas(s.queue), e)
    requires IsGreatest(SmoothedLimits(s.queue), SmoothDeltas(s.queue), smoothed)
    ensures var sent := FlushStep(s, lazy).sent;
      && |s.sent| + i < |sent| && sent[|s.sent| + i].limits == s.queue[i]
      && k < |s.queue| && Governs(s.queue, smoothed, k, i)
      && PlannedBy(s.queue, e, smoothed, k, i, sent[|s.sent| + i].plan)
  {
    hide IsGreatest, PlanAt, FlushCount, Governs, PlannedBy;
    FirstRises(s, smoothed);
    k := PlanIs(s.queue, e, smoothed, i);
    assert Batch(s.queue, FlushCount(s.queue, lazy))[i] == Sent(s.queue[i], PlanAt(s.queue, i));
  }

  // The first move of a queue does not only fall.
  lemma FirstRises(s: State, smoothed: seq<real>)
    requires Inv(s) && s.queue != [] && IsGreatest(SmoothedLimits(s.queue), SmoothDeltas(s.queue), smoothed)
    ensures !Falls(s.queue, smoothed, 0)
  {
    FirstIsPlanned(s);
    BranchesAre(s.queue, 0);
    PassIsGreatest(s.queue);
    GreatestIsUnique(SmoothedLimits(s.queue), SmoothDeltas(s.queue), smoothed, SmoothedProfile(s.queue));
    hide Inv, IsGreatest, PassAt, PassOf;
  }

  // At a peak the smoothed change of speed binds, unless the cruise limit or the full change does.
  lemma PeakIsSmoothed(q: seq<Limits>, e: seq<real>, s: seq<real>, i: nat)
    requires WellFormed(q) && i < |q|
    requires IsGreatest(StartLimits(q), Deltas(q), e) && IsGreatest(SmoothedLimits(q), SmoothDeltas(q), s)
    requires !Falls(q, s, 0) && IsTurn(q, s, i)
    ensures var c := PlanAt(q, i).cruiseV2;
      && 2.0 * c <= s[i] + s[i + 1] + q[i].smoothDeltaV2
      && (c == q[i].maxCruiseV2 || 2.0 * c == e[i] + e[i + 1] + q[i].deltaV2
          || 2.0 * c == s[i] + s[i + 1] + q[i].smoothDeltaV2)
  {
    hide IsGreatest, WellFormed;
    var k := PlanIs(q, e, s, i);
    assert k == i;
  }

  // A single move, with both start limits 0, cruises no faster than the smoothed change allows.
  lemma SingleMove(m: Limits)
    requires Fresh(m)
    ensures PlanAt([m], 0).cruiseV2 == RMin(m.maxCruiseV2, RMin(m.deltaV2, m.smoothDeltaV2) / 2.0)
    ensures PlanAt([m], 0).startV2 == 0.0 && PlanAt([m], 0).endV2 == 0.0
  {
    assert [m][1..] == [] && [m][0..] == [m];
  }

  /* ----- Where a lazy flush cuts ----- */

  // There is a peak from i on.
  ghost predicate TurnFrom(q: seq<Limits>, s: seq<real>, i: nat)
    requires |s| == |q| + 1
  {
    exists k: nat :: i <= k < |q| && IsTurn(q, s, k)
  }

  lemma {:induction false} PeakFrom(q: seq<Limits>, i: nat)
    requires WellFormed(q) && i <= |q|
    ensures PassAt(q, i).peakV2 != 0.0 <==> TurnFrom(q, SmoothedProfile(q), i)
    decreases |q| - i
  {
    PassAtEnd(q);
    if i < |q| {
      PeakFrom(q, i + 1);
      BranchesAre(q, i);
      BoundsAt(q, i);
      hide PassAt, PassOf, WellFormed;
      var s := SmoothedProfile(q);
      if IsTurn(q, s, i) {
        assert TurnFrom(q, s, i);
      } else if TurnFrom(q, s, i + 1) {
        var k: nat :| i + 1 <= k < |q| && IsTurn(q, s, k);
        assert TurnFrom(q, s, i);
      }
    }
  }

  // A peak behind which another one has been found.
  ghost predicate CanCut(q: seq<Limits>, s: seq<real>, i: nat)
    requires i < |q| && |s| == |q| + 1
  {
    IsTurn(q, s, i) && TurnFrom(q, s, i + 1)
  }

  lemma {:induction false} CutFrom(q: seq<Limits>, i: nat)
    requires WellFormed(q) && i <= |q|
    ensures var k := LazyCut(q, i);
      && (k > 0 ==> k < i && CanCut(q, SmoothedProfile(q), k))
      && forall j: nat :: k < j < i ==> !CanCut(q, SmoothedProfile(q), j)
  {
    hide PassAt, PassOf, WellFormed;
    if i > 0 {
      BranchesAre(q, i - 1);
      PeakFrom(q, i);
      CutFrom(q, i - 1);
    }
  }

  // Main theorem on lazy flushes: the moves in front of the last peak but one are handed out, and no
  // fewer; a full flush hands out all.
  lemma FlushCountIs(q: seq<Limits>, s: seq<real>, lazy: bool)
    requires WellFormed(q) && IsGreatest(SmoothedLimits(q), SmoothDeltas(q), s)
    ensures !lazy ==> FlushCount(q, lazy) == |q|
    ensures lazy ==> var k := FlushCount(q, lazy);
      && (k > 0 ==> k < |q| && CanCut(q, s, k))
      && forall j: nat :: k < j < |q| ==> !CanCut(q, s, j)
  {
    PassIsGreatest(q);
    GreatestIsUnique(SmoothedLimits(q), SmoothDeltas(q), s, SmoothedProfile(q));
    CutFrom(q, |q|);
  }
}
