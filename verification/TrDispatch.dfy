/**
 Keeping several MCUs alive together while homing (trdispatch.c), with the clock estimates it uses
 (msgblock.c).

 Clocks are unbounded integers; the places where the code narrows them to 32 bits or compares
 signed with unsigned 64-bit numbers are written out.
 */
module TrDispatch {
  import opened Basics

  const PR_NEVER: real := 9999999999999999.0

  /* ----- Clock estimates ----- */

  // struct clock_estimate
  datatype Estimate = Estimate(lastClock: int, convClock: int, convTime: real, estFreq: real)

  // x as an int32_t
  function Signed32(x: int): int { if x % TWO32 < TWO32 / 2 then x % TWO32 else x % TWO32 - TWO32 }

  // clock_from_clock32
  function ClockFromClock32(ce: Estimate, clock32: int): int { ce.lastClock + Signed32(clock32 - ce.lastClock) }

  // A clock comes back from its low 32 bits exactly when it is within half a turn of the last one.
  lemma Clock32Exact(ce: Estimate, clock: int)
    ensures ClockFromClock32(ce, clock % TWO32) == clock <==> -TWO32 / 2 <= clock - ce.lastClock < TWO32 / 2
  {
    assert (clock % TWO32 - ce.lastClock) % TWO32 == (clock - ce.lastClock) % TWO32;
  }

  // clock_to_time
  function ClockToTime(ce: Estimate, clock: int): real
    requires ce.estFreq > 0.0
  {
    ce.convTime + (clock - ce.convClock) as real / ce.estFreq
  }

  // A double converted to an integer, towards zero.
  function Truncated(x: real): int { if x >= 0.0 then x.Floor else -((-x).Floor) }

  // How many ticks a time is after the conversion point.
  function Ticks(ce: Estimate, time: real): real { (time - ce.convTime) * ce.estFreq }

  // clock_from_time
  function ClockFromTime(ce: Estimate, time: real): int { Truncated(Ticks(ce, time) + 0.5) + ce.convClock }

  // The time of a clock gives the clock back; before the conversion point, where rounding towards
  // zero goes the other way, it gives the next one.
  lemma ClockRoundTrip(ce: Estimate, clock: int)
    requires ce.estFreq > 0.0
    ensures ClockFromTime(ce, ClockToTime(ce, clock)) == clock + if clock < ce.convClock then 1 else 0
  {
    var d := (clock - ce.convClock) as real;
    assert (d / ce.estFreq) * ce.estFreq == d;
  }

  // Clocks tick at the estimated frequency, from the conversion point on.
  lemma TimesTick(ce: Estimate, a: int, b: int)
    requires ce.estFreq > 0.0
    ensures ClockToTime(ce, ce.convClock) == ce.convTime
    ensures (ClockToTime(ce, a) - ClockToTime(ce, b)) * ce.estFreq == (a - b) as real
  {
    ExactTime(ce, a);
    ExactTime(ce, b);
    hide ClockToTime;
    Spread(ClockToTime(ce, a), ClockToTime(ce, b), ce.convTime, ce.estFreq);
  }

  lemma ExactTime(ce: Estimate, clock: int)
    requires ce.estFreq > 0.0
    ensures (ClockToTime(ce, clock) - ce.convTime) * ce.estFreq == (clock - ce.convClock) as real
  {
    var d := (clock - ce.convClock) as real;
    assert (d / ce.estFreq) * ce.estFreq == d;
  }

  lemma Spread(a: real, b: real, base: real, f: real)
    ensures (a - b) * f == (a - base) * f - (b - base) * f
  {
  }

  /* ----- The smallest time of the others ----- */

  // t is the earliest time among the others, or its own when alone.
  ghost predicate IsLeastOther(times: seq<real>, i: nat, t: real)
    requires i < |times|
  {
    if |times| == 1 then t == times[0]
    else
      && (forall j :: 0 <= j < |times| && j != i ==> t <= times[j])
      && exists j :: 0 <= j < |times| && j != i && times[j] == t
  }

  // What the scan gives MCU i.
  function TimeFor(i: nat, minIndex: nat, minTime: real, nextMinTime: real): real {
    if i == minIndex then nextMinTime else minTime
  }

  // The one-pass scan of handle_trsync_state.
  method LeastTwo(times: seq<real>) returns (minTime: real, nextMinTime: real, minIndex: nat)
    requires times != [] && forall i :: 0 <= i < |times| ==> times[i] < PR_NEVER
    ensures minIndex < |times|
    ensures forall i: nat :: i < |times| ==> IsLeastOther(times, i, TimeFor(i, minIndex, minTime, nextMinTime))
  {
    minTime, nextMinTime, minIndex := PR_NEVER, PR_NEVER, 0;
    var i := 0;
    while i < |times|
      invariant i <= |times| && minIndex < |times| && (i > 0 ==> minIndex < i && minTime == times[minIndex])
      invariant i == 0 ==> minTime == PR_NEVER
      invariant minTime <= nextMinTime <= PR_NEVER
      invariant forall j :: 0 <= j < i ==> minTime <= times[j] && (j != minIndex ==> nextMinTime <= times[j])
      invariant if i < 2 then nextMinTime == PR_NEVER
                else nextMinTime < PR_NEVER && exists j :: 0 <= j < i && j != minIndex && times[j] == nextMinTime
    {
      ghost var oldIndex := minIndex;
      if times[i] < nextMinTime {
        nextMinTime := times[i];
        if times[i] < minTime {
          nextMinTime := minTime;
          minTime := times[i];
          minIndex := i;
        }
      }
      assert i > 0 ==> times[oldIndex] == minTime || times[oldIndex] == nextMinTime;
      i := i + 1;
    }
    if nextMinTime == PR_NEVER {
      nextMinTime := minTime;
    }
    forall i: nat | i < |times| ensures IsLeastOther(times, i, TimeFor(i, minIndex, minTime, nextMinTime)) {
      if |times| > 1 && i != minIndex {
        assert times[minIndex] == minTime;
      }
    }
  }

  /* ----- Dispatch ----- */

  // struct trdispatch_mcu
  datatype Mcu = Mcu(lastStatusClock: int, expireClock: int, expireTicks: int, minExtendTicks: int, ce: Estimate)

  // What is sent, to which MCU; clocks go out in 32 bits.
  datatype Message = Trigger(mcu: nat, reason: int) | SetTimeout(mcu: nat, clock: int)

  // A trsync_state message from an MCU, with the clock estimate of that moment.
  datatype Report = Report(mcu: nat, canTrigger: bool, clock: int, ce: Estimate)

  predicate McuOk(m: Mcu) { m.ce.estFreq > 0.0 && 0 <= m.minExtendTicks < TWO64 / 2 }

  function StatusTime(m: Mcu): real
    requires McuOk(m)
  {
    ClockToTime(m.ce, m.lastStatusClock)
  }

  function Deadline(m: Mcu, statusTime: real): int { ClockFromTime(m.ce, statusTime) + m.expireTicks }

  // The deadline for a time is its clock, rounded, and the ticks until expiry; before the conversion
  // point it may be a tick more.
  lemma DeadlineIs(m: Mcu, t: real)
    ensures var exact := m.ce.convClock as real + Ticks(m.ce, t) + m.expireTicks as real;
      && exact - 0.5 < Deadline(m, t) as real < exact + 1.5
      && (Ticks(m.ce, t) >= 0.0 ==> Deadline(m, t) as real <= exact + 0.5)
  {
    hide Ticks;
  }

  // A report updates the MCU that it is from, and no other; the clock in it comes back if it is
  // within half a turn of the last one.
  lemma UpdatedIs(ms: seq<Mcu>, r: Report, clock: int, i: nat)
    requires r.mcu < |ms| && i < |ms| && r.clock == clock % TWO32
    requires -TWO32 / 2 <= clock - r.ce.lastClock < TWO32 / 2
    ensures |TrDispatch.Updated(ms, r)| == |ms|
    ensures TrDispatch.Updated(ms, r)[i]
      == if i == r.mcu then Mcu(clock, ms[i].expireClock, ms[i].expireTicks, ms[i].minExtendTicks, r.ce) else ms[i]
  {
    Clock32Exact(r.ce, clock);
    hide ClockFromClock32;
  }

  // The deadline follows the time t: it is not later, and less than the least extension earlier.
  predicate Follows(m: Mcu, t: real) {
    && 0 <= Deadline(m, t) - m.expireClock
    && (m.expireClock == Deadline(m, t) || Deadline(m, t) - m.expireClock < m.minExtendTicks)
  }

  // Deadlines and clocks are within the reach of a signed 64-bit difference.
  predicate Near(m: Mcu, t: real) { -TWO64 / 2 <= Deadline(m, t) - m.expireClock < TWO64 / 2 }

  // What a report makes of a deadline when the earliest time of the others is t, and what is sent:
  // a deadline that would move by less than the least extension stays as it is, unless it would move
  // back, because a negative difference is large when compared as unsigned.
  predicate Moves(m: Mcu, t: real) {
    var d := Deadline(m, t) - m.expireClock;
    d < 0 || d >= m.minExtendTicks
  }

  function Extended(m: Mcu, t: real): Mcu { if Moves(m, t) then m.(expireClock := Deadline(m, t)) else m }

  function AllExtended(ms: seq<Mcu>, ts: seq<real>): (r: seq<Mcu>)
    requires |ts| == |ms|
    ensures |r| == |ms|
  {
    seq(|ms|, i requires 0 <= i < |ms| => Extended(ms[i], ts[i]))
  }

  // One message for every deadline that moves, in the order of the MCUs.
  function Timeouts(ms: seq<Mcu>, ts: seq<real>, n: nat): seq<Message>
    requires n <= |ms| == |ts|
  {
    if n == 0 then []
    else
      Timeouts(ms, ts, n - 1)
      + if Moves(ms[n-1], ts[n-1]) then [SetTimeout(n - 1, Deadline(ms[n-1], ts[n-1]) % TWO32)] else []
  }

  lemma {:induction false} TimeoutsAre(ms: seq<Mcu>, ts: seq<real>, n: nat)
    requires n <= |ms| == |ts|
    ensures AreTimeouts(Timeouts(ms, ts, n))
    ensures forall i: nat :: i < n ==>
      (Moves(ms[i], ts[i]) <==> SetTimeout(i, Deadline(ms[i], ts[i]) % TWO32) in Timeouts(ms, ts, n))
    ensures forall m :: m in Timeouts(ms, ts, n) ==> m.SetTimeout? && m.mcu < n
  {
    if n > 0 {
      TimeoutsAre(ms, ts, n - 1);
    }
  }

  // After a report every deadline follows the others, and it has moved back exactly when the new
  // deadline is before the old one.
  lemma ExtendedFollows(m: Mcu, t: real)
    requires McuOk(m)
    ensures Follows(Extended(m, t), t) && McuOk(Extended(m, t))
    ensures Extended(m, t).expireClock < m.expireClock <==> Deadline(m, t) < m.expireClock
    ensures Extended(m, t).expireClock > m.expireClock ==>
      Extended(m, t).expireClock - m.expireClock >= m.minExtendTicks
    ensures Extended(m, t).expireClock != m.expireClock ==> Moves(m, t)
  {
  }

  // The trigger to each of n MCUs, once.
  function Triggers(n: nat, reason: int): (run: seq<Message>)
    ensures |run| == n && forall i: nat :: i < n ==> run[i] == Trigger(i, reason)
  {
    if n == 0 then [] else Triggers(n - 1, reason) + [Trigger(n - 1, reason)]
  }

  ghost predicate AreTimeouts(run: seq<Message>) { forall m :: m in run ==> m.SetTimeout? }

  // Nothing was sent, or deadlines and then the trigger to each of n MCUs.
  ghost predicate TriggeredOnce(run: seq<Message>, n: nat, reason: int) {
    run == [] || exists k: nat :: k <= |run| && AreTimeouts(run[..k]) && run[k..] == Triggers(n, reason)
  }

  class TrDispatch {
    var mcus: seq<Mcu>
    var isActive: bool
    var canTrigger: bool
    var dispatchReason: int
    ghost var sent: seq<Message>
    ghost var startedAt: nat  // how much had been sent at the last start

    // Since the last start only deadlines were sent, and then, once, the trigger to every MCU.
    ghost predicate Valid()
      reads this
    {
      && (forall i :: 0 <= i < |mcus| ==> McuOk(mcus[i]))
      && startedAt <= |sent|
      && if canTrigger then AreTimeouts(sent[startedAt..]) else TriggeredOnce(sent[startedAt..], |mcus|, dispatchReason)
    }

    constructor (ms: seq<Mcu>)
      requires forall i :: 0 <= i < |ms| ==> McuOk(ms[i])
      ensures Valid() && mcus == ms && !isActive && !canTrigger && sent == [] && startedAt == 0
    {
      mcus, isActive, canTrigger, dispatchReason := ms, false, false, 0;
      sent, startedAt := [], 0;
    }

    // trdispatch_start, up to the registration of the readers
    method Start(reason: int)
      requires Valid()
      modifies this
      ensures Valid() && mcus == old(mcus) && sent == old(sent)
      ensures if old(isActive) || mcus == [] then unchanged(this)
              else isActive && canTrigger && dispatchReason == reason && startedAt == |sent|
    {
      if isActive || mcus == [] {
        return;
      }
      dispatchReason, startedAt := reason, |sent|;
      isActive, canTrigger := true, true;
    }

    // trdispatch_stop, up to the removal of the readers: a trigger that was not reported stays possible
    // until they are gone.
    method Stop()
      requires Valid()
      modifies `isActive
      ensures Valid() && !isActive
    {
      isActive := false;
    }

    // What a report from MCU i makes of its entry.
    static function Updated(ms: seq<Mcu>, r: Report): seq<Mcu>
      requires r.mcu < |ms|
    {
      ms[r.mcu := ms[r.mcu].(lastStatusClock := ClockFromClock32(r.ce, r.clock), ce := r.ce)]
    }

    // The last loop of handle_trsync_state.
    method SendTimeouts(minTime: real, nextMinTime: real, minIndex: nat, ghost ts: seq<real>)
      requires Valid() && canTrigger && minIndex < |mcus| == |ts|
      requires forall i: nat :: i < |ts| ==> ts[i] == TimeFor(i, minIndex, minTime, nextMinTime) && Near(mcus[i], ts[i])
      modifies `mcus, `sent
      ensures Valid() && mcus == AllExtended(old(mcus), ts)
      ensures sent == old(sent) + Timeouts(old(mcus), ts, |old(mcus)|)
    {
      hide Deadline, Moves, McuOk, Near;
      ghost var ms := mcus;
      for i := 0 to |mcus|
        invariant |mcus| == |ms| && forall j: nat :: i <= j < |ms| ==> mcus[j] == ms[j]
        invariant forall j: nat :: j < i ==> mcus[j] == Extended(ms[j], ts[j])
        invariant sent == old(sent) + Timeouts(ms, ts, i)
      {
        var m := mcus[i];
        var statusTime := if i == minIndex then nextMinTime else minTime;
        var expire := Deadline(m, statusTime);
        assert statusTime == ts[i] && m == ms[i];
        MovesIs(m, ts[i]);
        if (expire - m.expireClock) % TWO64 >= m.minExtendTicks {
          mcus := mcus[i := m.(expireClock := expire)];
          sent := sent + [SetTimeout(i, expire % TWO32)];
        }
      }
      forall i | 0 <= i < |mcus| ensures McuOk(mcus[i]) {
        ExtendedFollows(ms[i], ts[i]);
      }
      TimeoutsAre(ms, ts, |ms|);
    }

    // handle_trsync_state, for a message that decodes as a report of this trsync object.
    method HandleTrsyncState(r: Report)
      requires Valid() && r.mcu < |mcus| && r.ce.estFreq > 0.0
      requires var ms := Updated(mcus, r);
        && (forall t :: t in StatusTimes(ms) ==> t < PR_NEVER)
        && (forall i: nat, t :: i < |ms| && IsLeastOther(StatusTimes(ms), i, t) ==> Near(ms[i], t))
      modifies `mcus, `sent, `canTrigger
      ensures Valid() && old(sent) <= sent
      ensures !old(canTrigger) ==> unchanged(this)
      ensures old(canTrigger) && !r.canTrigger ==>
        mcus == old(mcus) && !canTrigger && sent == old(sent) + Triggers(|mcus|, dispatchReason)
      ensures old(canTrigger) && r.canTrigger ==>
        canTrigger && Dispatched(old(Updated(mcus, r)), mcus, sent[|old(sent)|..])
    {
      if !canTrigger {
        return;
      }
      if !r.canTrigger {
        canTrigger := false;
        for i := 0 to |mcus|
          invariant sent == old(sent) + Triggers(i, dispatchReason)
        {
          sent := sent + [Trigger(i, dispatchReason)];
        }
        ghost var run := sent[startedAt..];
        ghost var k := |old(sent)| - startedAt;
        assert run[..k] == old(sent)[startedAt..] && run[k..] == Triggers(|mcus|, dispatchReason);
        return;
      }
      mcus := Updated(mcus, r);
      ghost var ms := mcus;
      var times := StatusTimes(mcus);
      assert forall i :: 0 <= i < |times| ==> times[i] in times;
      var minTime, nextMinTime, minIndex := LeastTwo(times);
      ghost var ts := seq(|ms|, i requires 0 <= i < |ms| => TimeFor(i, minIndex, minTime, nextMinTime));
      forall i: nat | i < |ms| ensures IsLeastOther(times, i, ts[i]) {
        assert IsLeastOther(times, i, TimeFor(i, minIndex, minTime, nextMinTime));
      }
      SendTimeouts(minTime, nextMinTime, minIndex, ts);
      assert sent[|old(sent)|..] == Timeouts(ms, ts, |ms|);
    }
  }

  function StatusTimes(ms: seq<Mcu>): (times: seq<real>)
    requires forall i :: 0 <= i < |ms| ==> McuOk(ms[i])
    ensures |times| == |ms|
  {
    seq(|ms|, i requires 0 <= i < |ms| => StatusTime(ms[i]))
  }

  // Every deadline was brought in line with the earliest status time of the other MCUs, and exactly
  // those that moved were sent.
  ghost predicate Dispatched(before: seq<Mcu>, after: seq<Mcu>, messages: seq<Message>)
    requires forall i :: 0 <= i < |before| ==> McuOk(before[i])
  {
    exists ts: seq<real> ::
      && LeastOthers(StatusTimes(before), ts)
      && after == AllExtended(before, ts) && messages == Timeouts(before, ts, |before|)
  }

  ghost predicate LeastOthers(times: seq<real>, ts: seq<real>) {
    |ts| == |times| && forall i: nat :: i < |ts| ==> IsLeastOther(times, i, ts[i])
  }

  // Main theorem on deadlines: after a healthy report no deadline is later than the earliest status
  // time of the other MCUs plus its ticks, none falls behind that by the least extension, and every
  // deadline that changed was sent.
  lemma DispatchedFollows(before: seq<Mcu>, after: seq<Mcu>, messages: seq<Message>, i: nat) returns (t: real)
    requires (forall j :: 0 <= j < |before| ==> McuOk(before[j])) && Dispatched(before, after, messages) && i < |before|
    ensures |after| == |before| && IsLeastOther(StatusTimes(before), i, t)
    ensures Follows(after[i], t)
    ensures after[i] == if Moves(before[i], t) then before[i].(expireClock := Deadline(before[i], t)) else before[i]
    ensures after[i].expireClock != before[i].expireClock ==> SetTimeout(i, after[i].expireClock % TWO32) in messages
    ensures after[i].expireClock < before[i].expireClock <==> Deadline(before[i], t) < before[i].expireClock
  {
    var ts :| LeastOthers(StatusTimes(before), ts)
      && after == AllExtended(before, ts) && messages == Timeouts(before, ts, |before|);
    t := ts[i];
    TimeoutsAre(before, ts, |before|);
    ExtendedFollows(before[i], t);
  }

  // Two MCUs that follow each other, and a clock estimate that puts the same clock half a second earlier.
  const STEADY := Estimate(2000, 0, 0.0, 1000.0)
  const EARLIER := Estimate(2000, 0, -0.5, 1000.0)
  const FOLLOWING := Mcu(2000, 2500, 500, 100, STEADY)

  lemma EstimatesAre()
    ensures StatusTime(FOLLOWING) == 2.0 && StatusTime(FOLLOWING.(ce := EARLIER)) == 1.5
    ensures Deadline(FOLLOWING, 2.0) == 2500 && Deadline(FOLLOWING, 1.5) == 2000
    ensures ClockFromClock32(EARLIER, 2000) == 2000
  {
  }

  // With two MCUs, each follows the other.
  lemma TwoDispatched(a: Mcu, b: Mcu) returns (messages: seq<Message>)
    requires McuOk(a) && McuOk(b)
    ensures Dispatched([a, b], [Extended(a, StatusTime(b)), Extended(b, StatusTime(a))], messages)
    ensures Moves(b, StatusTime(a)) ==> SetTimeout(1, Deadline(b, StatusTime(a)) % TWO32) in messages
  {
    hide StatusTime, Moves, Deadline, Extended;
    var ms, ts := [a, b], [StatusTime(b), StatusTime(a)];
    assert StatusTimes(ms) == [StatusTime(a), StatusTime(b)];
    OthersOfTwo(StatusTime(a), StatusTime(b));
    messages := Timeouts(ms, ts, 2);
    assert AllExtended(ms, ts) == [Extended(a, StatusTime(b)), Extended(b, StatusTime(a))];
    TimeoutsAre(ms, ts, 2);
  }

  lemma OthersOfTwo(x: real, y: real)
    ensures LeastOthers([x, y], [y, x])
  {
    assert [x, y][1] == y && [x, y][0] == x;
  }

  // A deadline does move back when a new clock estimate puts the last status of another MCU earlier:
  // MCU 1 has followed MCU 0 to time 2.0, which the next report puts at 1.5.
  lemma DeadlineMovesBack() returns (after: seq<Mcu>, messages: seq<Message>)
    ensures Follows(FOLLOWING, StatusTime(FOLLOWING))
    ensures Dispatched(TrDispatch.Updated([FOLLOWING, FOLLOWING], Report(0, true, 2000, EARLIER)), after, messages)
    ensures |after| == 2 && after[1].expireClock == 2000 < FOLLOWING.expireClock && SetTimeout(1, 2000) in messages
  {
    EstimatesAre();
    hide ClockFromClock32, StatusTime, Deadline, Dispatched;
    var late := FOLLOWING.(ce := EARLIER);
    assert TrDispatch.Updated([FOLLOWING, FOLLOWING], Report(0, true, 2000, EARLIER)) == [late, FOLLOWING];
    messages := TwoDispatched(late, FOLLOWING);
    after := [Extended(late, StatusTime(FOLLOWING)), Extended(FOLLOWING, StatusTime(late))];
  }

  // The comparison of the code, in unsigned arithmetic.
  lemma MovesIs(m: Mcu, t: real)
    requires McuOk(m) && Near(m, t)
    ensures (Deadline(m, t) - m.expireClock) % TWO64 >= m.minExtendTicks <==> Moves(m, t)
  {
    var d := Deadline(m, t) - m.expireClock;
    if d < 0 {
      assert d % TWO64 == d + TWO64;
    } else {
      assert d % TWO64 == d;
    }
  }
}
