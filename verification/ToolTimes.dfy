/**
 The times that the toolhead keeps (toolhead.py, class ToolHead): what has been flushed, what has had
 its steps generated, and where the next move may go.  Every operation is a function on these times
 here, and the theorems are about these functions; the class in ToolHead computes them.

 The clock and the estimate of the MCU's print time are inputs of every operation that reads them.
 */
module ToolTimes {
  import opened Basics

  const BUFFER_TIME_LOW := 2.0
  const BUFFER_TIME_START := 0.250
  const BGFLUSH_LOW_TIME := 0.200
  const BGFLUSH_BATCH_TIME := 0.200
  const BGFLUSH_EXTRA_TIME := 0.250
  const MIN_KIN_TIME := 0.100
  const MOVE_BATCH_TIME := 0.500
  const STEPCOMPRESS_FLUSH_TIME := 0.050
  const SDS_CHECK_TIME := 0.001
  const DRIP_SEGMENT_TIME := 0.050
  const DRIP_TIME := 0.100

  datatype State = Main | NeedPrime | Priming | Drip

  // A planned move: how long it takes, and whether it moves the kinematics.
  datatype Timed = Timed(accelT: real, cruiseT: real, decelT: real, isKinematic: bool)

  // A stretch of time that has been given to trapq_append.
  datatype Span = Span(start: real, end: real)

  function Duration(m: Timed): real { m.accelT + m.cruiseT + m.decelT }

  predicate AllTimed(moves: seq<Timed>) {
    forall m :: m in moves ==> m.accelT >= 0.0 && m.cruiseT >= 0.0 && m.decelT >= 0.0
  }

  function EndOf(start: real, moves: seq<Timed>): real {
    if moves == [] then start else EndOf(start, moves[..|moves| - 1]) + Duration(moves[|moves| - 1])
  }

  function SpansOf(start: real, moves: seq<Timed>): seq<Span> {
    if moves == [] then []
    else
      var n := |moves| - 1;
      SpansOf(start, moves[..n])
      + if moves[n].isKinematic then [Span(EndOf(start, moves[..n]), EndOf(start, moves))] else []
  }

  // The span of a move lasts for its phases, from the end of all moves before it.
  lemma SpanIs(start: real, moves: seq<Timed>, m: Timed)
    ensures EndOf(start, []) == start && SpansOf(start, []) == []
    ensures EndOf(start, moves + [m]) == EndOf(start, moves) + m.accelT + m.cruiseT + m.decelT
    ensures SpansOf(start, moves + [m]) == SpansOf(start, moves)
      + if m.isKinematic then [Span(EndOf(start, moves), EndOf(start, moves) + m.accelT + m.cruiseT + m.decelT)] else []
  {
    assert (moves + [m])[..|moves|] == moves;
  }

  // Spans follow each other without overlap, the last of them ending by time t.
  predicate Ordered(spans: seq<Span>, t: real) {
    && (forall i :: 0 <= i < |spans| ==> spans[i].start <= spans[i].end <= t)
    && (forall i, j :: 0 <= i < j < |spans| ==> spans[i].end <= spans[j].start)
  }

  lemma OrderedLater(spans: seq<Span>, t: real, later: real)
    requires Ordered(spans, t) && t <= later
    ensures Ordered(spans, later)
  {
  }

  lemma {:induction false} SpansOrdered(before: seq<Span>, start: real, moves: seq<Timed>)
    requires AllTimed(moves) && Ordered(before, start)
    ensures start <= EndOf(start, moves) && Ordered(before + SpansOf(start, moves), EndOf(start, moves))
  {
    if moves == [] {
      assert before + SpansOf(start, moves) == before;
    } else {
      var n := |moves| - 1;
      assert moves[n] in moves;
      SpansOrdered(before, start, moves[..n]);
      var spans := before + SpansOf(start, moves[..n]);
      if moves[n].isKinematic {
        assert before + SpansOf(start, moves) == spans + [Span(EndOf(start, moves[..n]), EndOf(start, moves))];
      } else {
        assert before + SpansOf(start, moves) == spans;
      }
    }
  }

  // How far _advance_flush_time generates steps when it flushes up to flushTime.
  function GenTime(flushTime: real, printTime: real, kinFlushDelay: real): (t: real)
    ensures t >= flushTime
    ensures flushTime + kinFlushDelay <= printTime ==> t + kinFlushDelay <= printTime
  {
    RMax(RMin(flushTime + STEPCOMPRESS_FLUSH_TIME, printTime - kinFlushDelay), flushTime)
  }

  // Flushes that start from a time and never go further than one batch at once.
  ghost predicate InBatches(from: real, flushes: seq<real>) {
    forall i :: 0 <= i < |flushes| ==> 0.0 <= flushes[i] - Before(from, flushes, i) <= MOVE_BATCH_TIME
  }

  function Before(from: real, flushes: seq<real>, i: int): real
    requires i <= |flushes|
  {
    if i <= 0 then from else flushes[i - 1]
  }

  lemma BatchAppend(from: real, flushes: seq<real>, t: real)
    requires InBatches(from, flushes) && 0.0 <= t - Before(from, flushes, |flushes|) <= MOVE_BATCH_TIME
    ensures InBatches(from, flushes + [t]) && Before(from, flushes + [t], |flushes| + 1) == t
  {
    forall i | 0 <= i < |flushes| ensures Before(from, flushes + [t], i) == Before(from, flushes, i) {
    }
  }

  lemma NoBatch(from: real)
    ensures InBatches(from, []) && Before(from, [], 0) == from
  {
  }

  function IndexOf(times: seq<real>, t: real): (i: nat)
    requires t in times
    ensures i < |times| && times[i] == t && t !in times[..i]
  {
    if times[0] == t then 0
    else
      var i := IndexOf(times[1..], t);
      assert times[..i+1] == [times[0]] + times[1..][..i];
      i + 1
  }

  // The list without the first t.
  function PopFirst(times: seq<real>, t: real): (rest: seq<real>)
    requires t in times
    ensures multiset(rest) == multiset(times) - multiset{t}
  {
    var i := IndexOf(times, t);
    assert times == times[..i] + [t] + times[i+1..];
    times[..i] + times[i+1..]
  }

  lemma NotBefore(times: seq<real>, t: real, i: nat, j: nat)
    requires i <= |times| && j < |times| && t !in times[..i] && times[j] == t
    ensures i <= j
  {
  }

  lemma IndexIs(times: seq<real>, t: real, i: nat)
    requires i < |times| && times[i] == t && t !in times[..i]
    ensures IndexOf(times, t) == i
  {
    hide IndexOf;
    NotBefore(times, t, i, IndexOf(times, t));
    NotBefore(times, t, IndexOf(times, t), i);
  }

  // max(times + [SDS_CHECK_TIME])
  function Longest(times: seq<real>): (t: real)
    ensures t in [SDS_CHECK_TIME] + times && t >= SDS_CHECK_TIME
    ensures forall d :: d in times ==> d <= t
  {
    if times == [] then SDS_CHECK_TIME
    else
      assert times == times[..|times| - 1] + [times[|times| - 1]];
      RMax(Longest(times[..|times| - 1]), times[|times| - 1])
  }

  // Reading the clock while a drip move waits: whether the move was told to end, and the estimate.
  datatype Reading = Reading(ended: bool, estPrintTime: real)

  // How far ahead of the mcu a drip move goes after a reading.
  function DripLimit(r: Reading, kinFlushDelay: real): real {
    r.estPrintTime + DRIP_TIME + STEPCOMPRESS_FLUSH_TIME + kinFlushDelay + DRIP_SEGMENT_TIME
  }

  // From start to t in small steps, never further ahead of the mcu than the last reading allowed.
  ghost predicate Paced(start: real, t: real, readings: seq<Reading>, kinFlushDelay: real, canPause: bool) {
    && t <= start + |readings| as real * DRIP_SEGMENT_TIME
    && (canPause && t > start ==> exists k :: 0 <= k < |readings| && t <= DripLimit(readings[k], kinFlushDelay))
  }

  // After a first reading time stays, or goes on by a segment as far as the reading allows.
  lemma PacedFirst(start: real, t: real, later: real, readings: seq<Reading>, i: nat, kinFlushDelay: real,
                   canPause: bool)
    requires i < |readings| && t <= later && Paced(t, later, readings[1..][..i], kinFlushDelay, canPause)
    requires t == start
      || (start <= t <= start + DRIP_SEGMENT_TIME && (canPause ==> t <= DripLimit(readings[0], kinFlushDelay)))
    ensures Paced(start, later, readings[..i+1], kinFlushDelay, canPause)
  {
    if canPause && later > start {
      if later > t {
        var k :| 0 <= k < i && later <= DripLimit(readings[1..][..i][k], kinFlushDelay);
        assert readings[..i+1][k+1] == readings[1..][..i][k];
      } else {
        assert readings[..i+1][0] == readings[0];
      }
    }
  }

  lemma PacedAll(start: real, t: real, readings: seq<Reading>, i: nat, kinFlushDelay: real, canPause: bool)
    requires i <= |readings| && Paced(start, t, readings[..i], kinFlushDelay, canPause)
    ensures Paced(start, t, readings, kinFlushDelay, canPause)
  {
    if canPause && t > start {
      var k :| 0 <= k < i && t <= DripLimit(readings[..i][k], kinFlushDelay);
      assert readings[..i][k] == readings[k];
    }
  }

  // A reading that lets a drip move go on, wherever it is on its way to end.
  predicate Allows(r: Reading, end: real, kinFlushDelay: real, canPause: bool) {
    !canPause || end - r.estPrintTime <= DRIP_TIME + STEPCOMPRESS_FLUSH_TIME + kinFlushDelay
  }

  // How many do.
  function Allowing(readings: seq<Reading>, end: real, kinFlushDelay: real, canPause: bool): nat {
    if readings == [] then 0
    else
      (if Allows(readings[0], end, kinFlushDelay, canPause) then 1 else 0)
      + Allowing(readings[1..], end, kinFlushDelay, canPause)
  }

  // When all of them do, they let any move be completed that is not longer than a segment for each.
  lemma {:induction false} AllAllowing(readings: seq<Reading>, end: real, kinFlushDelay: real, canPause: bool)
    requires forall r :: r in readings ==> Allows(r, end, kinFlushDelay, canPause)
    ensures Allowing(readings, end, kinFlushDelay, canPause) == |readings|
  {
    hide Allows;
    if readings != [] {
      AllAllowing(readings[1..], end, kinFlushDelay, canPause);
    }
  }

  // The way that n readings which allow it are good for.
  function Segments(n: nat): real { n as real * DRIP_SEGMENT_TIME }

  // The readings let the moves be sent completely, whatever happens on the way.
  predicate Enough(readings: seq<Reading>, start: real, moves: seq<Timed>, kinFlushDelay: real, canPause: bool) {
    && (forall r :: r in readings ==> !r.ended)
    && start + Segments(Allowing(readings, EndOf(start, moves), kinFlushDelay, canPause)) >= EndOf(start, moves)
  }

  lemma AllAllowingIsEnough(readings: seq<Reading>, start: real, moves: seq<Timed>, kinFlushDelay: real,
                            canPause: bool)
    requires forall r :: r in readings ==> !r.ended && Allows(r, EndOf(start, moves), kinFlushDelay, canPause)
    requires EndOf(start, moves) - start <= |readings| as real * DRIP_SEGMENT_TIME
    ensures Enough(readings, start, moves, kinFlushDelay, canPause)
  {
    hide Allows, EndOf, Allowing;
    AllAllowing(readings, EndOf(start, moves), kinFlushDelay, canPause);
  }

  // How far the background flush goes at once.
  function BackgroundLimit(needFlushTime: real, estPrintTime: real): real {
    RMin(needFlushTime + BGFLUSH_EXTRA_TIME, estPrintTime + BGFLUSH_LOW_TIME + BGFLUSH_BATCH_TIME)
  }

  /* ----- What the operations make of the times ----- */

  // The fields of ToolHead.
  datatype Times = Times(
    printTime: real, state: State, lastFlushTime: real, minRestartTime: real, needFlushTime: real, stepGenTime: real,
    kinFlushDelay: real, kinFlushTimes: seq<real>, canPause: bool, doKickFlushTimer: bool, queue: seq<Timed>,
    generated: real, spans: seq<Span>)

  function FlushTo(t: Times, flushTime: real): Times {
    var f := RMax(flushTime, t.lastFlushTime);
    var gen := GenTime(f, t.printTime, t.kinFlushDelay);
    t.(lastFlushTime := f, generated := RMax(t.generated, gen), minRestartTime := RMax(t.minRestartTime, gen))
  }

  // The batches make no difference to the times: it is one flush to the end.
  function MoveTo(t: Times, printTime: real): Times {
    var p := RMax(t.printTime, printTime);
    FlushTo(t.(printTime := p), p - (t.kinFlushDelay + STEPCOMPRESS_FLUSH_TIME))
  }

  // print_time resynchronised with the mcu.
  function SyncTime(printTime: real, minRestartTime: real, kinFlushDelay: real, est: real): real {
    RMax(printTime, RMax(est + BUFFER_TIME_START, RMax(est + MIN_KIN_TIME, minRestartTime) + kinFlushDelay))
  }

  function Synced(t: Times, est: real): Times {
    t.(printTime := SyncTime(t.printTime, t.minRestartTime, t.kinFlushDelay, est))
  }

  function Noted(t: Times, mqTime: real, setStepGenTime: bool): Times {
    t.(needFlushTime := RMax(t.needFlushTime, mqTime), doKickFlushTimer := false,
       stepGenTime := if setStepGenTime then RMax(t.stepGenTime, mqTime) else t.stepGenTime)
  }

  // The times after a drip move, and whether it was ended early.
  function Dripped(t: Times, end: real, readings: seq<Reading>): (Times, bool)
    decreases |readings|
  {
    if t.printTime >= end then (t, false)
    else if readings == [] || readings[0].ended then (t, true)
    else Dripped(DripStep(t, end, readings[0]), end, readings[1..])
  }

  function DripStep(t: Times, end: real, r: Reading): Times {
    var waitTime := t.printTime - r.estPrintTime - (DRIP_TIME + STEPCOMPRESS_FLUSH_TIME + t.kinFlushDelay);
    if waitTime > 0.0 && t.canPause then t
    else
      var npt := RMin(t.printTime + DRIP_SEGMENT_TIME, end);
      MoveTo(Noted(t, npt + t.kinFlushDelay, true), npt)
  }

  function Processed(t: Times, moves: seq<Timed>, est: real, readings: seq<Reading>): (Times, bool) {
    var u := Queued(t, moves, est);
    var end := EndOf(u.printTime, moves);
    var (v, aborted) := if u.state == Main then (u, false) else Dripped(u, end, readings);
    (if aborted then v else Finished(v, end), aborted)
  }

  // The moves in the trapezoid queue, after a resynchronisation unless in the main state.
  function Queued(t: Times, moves: seq<Timed>, est: real): Times {
    var u := Resumed(t, est);
    u.(spans := u.spans + SpansOf(u.printTime, moves))
  }

  function Resumed(t: Times, est: real): Times {
    if t.state == Main then t else Synced(t.(state := if t.state == Drip then Drip else Main), est)
  }

  function Finished(t: Times, end: real): Times { MoveTo(Noted(t, end + t.kinFlushDelay, true), end) }

  function HandedOut(t: Times, est: real): Times {
    if t.queue == [] then t else Processed(t.(queue := []), t.queue, est, []).0
  }

  function Emptied(t: Times, est: real): Times { HandedOut(t, est).(state := NeedPrime) }

  function StepsFlushed(t: Times, est: real): Times {
    var u := Emptied(t, est);
    var v := FlushTo(u, u.stepGenTime);
    v.(minRestartTime := RMax(v.minRestartTime, v.printTime))
  }

  function Asked(t: Times, est: real, later: real): Times {
    if t.state != Main then Synced(Emptied(t, est), later) else HandedOut(t, est)
  }

  function Dwelt(t: Times, delay: real, est: real, later: real): Times {
    var u := Asked(t, est, later);
    MoveTo(u, u.printTime + RMax(0.0, delay))
  }

  function Paused(t: Times): Times { if t.state == Main then t else t.(state := Priming) }

  function Primed(t: Times, est: real): Times { if t.state == Priming then Emptied(t, est) else t }

  // The loop of _flush_handler
  function FlushedOn(t: Times, est: real): Times
    decreases t.lastFlushTime < t.needFlushTime + BGFLUSH_EXTRA_TIME && t.lastFlushTime - est <= BGFLUSH_LOW_TIME
  {
    if t.lastFlushTime >= t.needFlushTime + BGFLUSH_EXTRA_TIME then t.(doKickFlushTimer := true)
    else if t.lastFlushTime - est > BGFLUSH_LOW_TIME then t
    else FlushedOn(FlushTo(t, BackgroundLimit(t.needFlushTime, est)), est)
  }

  function Handled(t: Times, est: real): Times {
    if t.state != Main then FlushedOn(t, est)
    else if t.printTime - est > BUFFER_TIME_LOW then t
    else FlushedOn(Emptied(t, est), est)
  }

  // When _flush_handler is to be called again, after what it did.
  function NextCall(t: Times, est: real): Option<real> {
    if t.state == Main then Some(t.printTime - est - BUFFER_TIME_LOW)
    else if t.lastFlushTime >= t.needFlushTime + BGFLUSH_EXTRA_TIME then None
    else Some(t.lastFlushTime - est - BGFLUSH_LOW_TIME)
  }

  function Rescanned(t: Times, delay: real, oldDelay: real, est: real): Times
    requires oldDelay != 0.0 ==> oldDelay in t.kinFlushTimes
  {
    var u := StepsFlushed(t, est);
    var rest := if oldDelay != 0.0 then PopFirst(t.kinFlushTimes, oldDelay) else t.kinFlushTimes;
    var times := if delay != 0.0 then rest + [delay] else rest;
    u.(kinFlushTimes := times, kinFlushDelay := Longest(times))
  }

  // A drip move that is ended early leaves nothing in the trapezoid queue.
  function Transmitted(t: Times, m: Timed, est: real, readings: seq<Reading>): (Times, bool) {
    var (u, aborted) := Processed(t.(state := Drip), [m], est, readings);
    (u.(spans := if aborted then [] else u.spans, state := NeedPrime), !aborted)
  }

  function Homed(t: Times, m: Timed, accepted: bool, readings: seq<Reading>, est: real, later: real): (Times, bool) {
    var u := HandedOut(Paused(Dwelt(t, t.kinFlushDelay, est, later)), est).(doKickFlushTimer := false);
    var (v, completed) := if accepted then Transmitted(u, m, later, readings) else (u, false);
    (StepsFlushed(v, later), completed)
  }

  function Added(t: Times, m: Timed, n: nat, est: real): Times
    requires n <= |t.queue|
  {
    var u := t.(queue := t.queue[n..] + [m]);
    if n > 0 then Processed(u, t.queue[..n], est, []).0 else u
  }

  datatype Op =
    | Add(m: Timed, n: nat, est: real)
    | Last(est: real, later: real)
    | Wait(delay: real, est: real, later: real)
    | Pause
    | Prime(est: real)
    | Background(est: real)
    | Flush(est: real)
    | Sync(est: real)
    | Note(mqTime: real, setStepGenTime: bool)
    | Home(m: Timed, accepted: bool, readings: seq<Reading>, est: real, later: real)
    | ScanTime(delay: real, oldDelay: real, est: real)

  predicate OpOk(op: Op) {
    match op
    case Add(m, _, _) => AllTimed([m])
    case Home(m, _, _, _, _) => AllTimed([m])
    case _ => true
  }

  // One operation; a lazy flush hands out no more than there is, and no delay is taken back that was
  // not registered.
  function Operated(t: Times, op: Op): Times {
    match op
    case Add(m, n, est) => Added(t, m, if n <= |t.queue| then n else |t.queue|, est)
    case Last(est, later) => Asked(t, est, later)
    case Wait(delay, est, later) => Dwelt(t, delay, est, later)
    case Pause => Paused(t)
    case Prime(est) => Primed(t, est)
    case Background(est) => Handled(t, est)
    case Flush(est) => Emptied(t, est)
    case Sync(est) => StepsFlushed(t, est)
    case Note(mqTime, setStepGenTime) => Noted(t, mqTime, setStepGenTime)
    case Home(m, accepted, readings, est, later) => Homed(t, m, accepted, readings, est, later).0
    case ScanTime(delay, oldDelay, est) =>
      if oldDelay == 0.0 || oldDelay in t.kinFlushTimes then Rescanned(t, delay, oldDelay, est) else t
  }

  function AfterAll(t: Times, ops: seq<Op>): Times {
    if ops == [] then t else Operated(AfterAll(t, ops[..|ops| - 1]), ops[|ops| - 1])
  }

  /* ----- What they keep ----- */

  // No flush runs ahead of step generation, nothing restarts inside generated time, and the timer of the
  // background flush is off only while nothing is left to flush.
  predicate FlushesOk(t: Times) {
    && t.kinFlushDelay > 0.0 && t.lastFlushTime <= t.generated <= t.minRestartTime
    && (t.doKickFlushTimer ==> t.needFlushTime <= t.lastFlushTime)
  }

  predicate TimesOk(t: Times) {
    FlushesOk(t) && (t.state == Main ==> t.minRestartTime + t.kinFlushDelay <= t.printTime)
  }

  // Every span is to be flushed; it has its steps generated, or the next flush of step generation covers it.
  predicate Covered(t: Times) {
    forall i :: 0 <= i < |t.spans| ==>
      && t.spans[i].end <= t.needFlushTime
      && (t.spans[i].end <= t.generated || t.spans[i].end + t.kinFlushDelay <= t.stepGenTime)
  }

  // The timer is off only when every move was flushed.
  lemma SleepsWhenFlushed(t: Times)
    requires Ok(t) && t.doKickFlushTimer
    ensures forall i :: 0 <= i < |t.spans| ==> t.spans[i].end <= t.lastFlushTime <= t.generated
  {
  }

  predicate AllGenerated(t: Times) { forall i :: 0 <= i < |t.spans| ==> t.spans[i].end <= t.generated }

  // Between two operations all appended moves end by printTime, too.
  predicate Ok(t: Times) {
    TimesOk(t) && AllTimed(t.queue) && Ordered(t.spans, t.printTime) && Covered(t) && t.state != Drip
  }

  // Time only goes forward.
  predicate Forward(t: Times, u: Times) {
    && t.printTime <= u.printTime && t.lastFlushTime <= u.lastFlushTime && t.minRestartTime <= u.minRestartTime
    && t.generated <= u.generated && t.needFlushTime <= u.needFlushTime && t.stepGenTime <= u.stepGenTime
  }

  // The delay for step generation windows is as it was.
  predicate SameSettings(t: Times, u: Times) {
    t.kinFlushDelay == u.kinFlushDelay && t.kinFlushTimes == u.kinFlushTimes && t.canPause == u.canPause
  }

  // Only times have changed, and forward.
  predicate OnlyTimes(t: Times, u: Times) {
    Forward(t, u) && SameSettings(t, u) && t.spans == u.spans && t.queue == u.queue && t.state == u.state
  }

  // Flushes reach this far when print time is advanced.
  function FlushEnd(t: Times): real { t.printTime - (t.kinFlushDelay + STEPCOMPRESS_FLUSH_TIME) }

  lemma FlushKeeps(t: Times, flushTime: real)
    requires TimesOk(t) && (t.state == Main ==> flushTime + t.kinFlushDelay <= t.printTime)
    ensures var u := FlushTo(t, flushTime);
      TimesOk(u) && OnlyTimes(t, u) && u.generated >= u.lastFlushTime == RMax(t.lastFlushTime, flushTime)
      && u == t.(lastFlushTime := u.lastFlushTime, generated := u.generated, minRestartTime := u.minRestartTime)
  {
  }

  // Steps are generated as far as the flush, and a little further where that stays a flush delay behind
  // print time; what restarts does so after them.
  lemma GeneratesTo(t: Times, flushTime: real, g: real)
    requires FlushesOk(t)
    ensures var u := FlushTo(t, flushTime);
      && (g <= u.generated <==>
            || g <= RMax(t.generated, flushTime)
            || (g <= u.lastFlushTime + STEPCOMPRESS_FLUSH_TIME && g + t.kinFlushDelay <= t.printTime))
      && (g <= u.minRestartTime <==> g <= RMax(t.minRestartTime, u.generated))
  {
  }

  // Flushing in two steps, the second not behind the first, is flushing in one.
  lemma FlushTwice(t: Times, first: real, second: real)
    requires first <= second
    ensures FlushTo(FlushTo(t, first), second) == FlushTo(t, second)
  {
  }

  lemma MoveIsFlush(t: Times, printTime: real, flushTime: real)
    requires var p, delay := RMax(t.printTime, printTime), t.kinFlushDelay + STEPCOMPRESS_FLUSH_TIME;
      flushTime == RMax(RMax(t.lastFlushTime, t.printTime - delay), p - delay)
    ensures MoveTo(t, printTime) == FlushTo(t.(printTime := RMax(t.printTime, printTime)), flushTime)
  {
  }

  lemma FlushReaches(t: Times, flushTime: real)
    ensures FlushTo(t, flushTime) == t.(lastFlushTime := RMax(t.lastFlushTime, flushTime),
      generated := FlushTo(t, flushTime).generated, minRestartTime := FlushTo(t, flushTime).minRestartTime)
  {
  }

  lemma MoveKeeps(t: Times, printTime: real)
    requires TimesOk(t)
    ensures var u := MoveTo(t, printTime);
      TimesOk(u) && OnlyTimes(t, u) && u.printTime == RMax(t.printTime, printTime)
      && u.lastFlushTime == RMax(t.lastFlushTime, FlushEnd(u))
  {
  }

  lemma SyncKeeps(t: Times, est: real)
    requires FlushesOk(t)
    ensures var u := Synced(t, est);
      && TimesOk(u) && OnlyTimes(t, u) && u.minRestartTime + u.kinFlushDelay <= u.printTime
      && u.lastFlushTime == t.lastFlushTime && u == t.(printTime := u.printTime)
  {
  }

  // The print time after it is the least that is enough for everything.
  lemma SyncIsLeast(t: Times, est: real, p: real)
    ensures Synced(t, est).printTime <= p <==>
      && t.printTime <= p && est + BUFFER_TIME_START <= p
      && est + MIN_KIN_TIME + t.kinFlushDelay <= p && t.minRestartTime + t.kinFlushDelay <= p
  {
  }

  // What is in order stays so while time goes on.
  lemma StaysOk(t: Times, u: Times)
    requires Ok(t) && OnlyTimes(t, u) && TimesOk(u)
    ensures Ok(u)
  {
  }

  // One reading: a segment forward, if it allows that.
  lemma DripStepKeeps(t: Times, end: real, r: Reading)
    requires TimesOk(t) && t.printTime < end
    ensures var u := DripStep(t, end, r);
      && TimesOk(u) && OnlyTimes(t, u) && u.lastFlushTime <= RMax(t.lastFlushTime, FlushEnd(u))
      && u.printTime <= RMin(end, t.printTime + DRIP_SEGMENT_TIME)
      && (u.printTime != t.printTime && t.canPause ==> u.printTime <= DripLimit(r, t.kinFlushDelay))
      && (u.printTime != t.printTime ==> NotedUpTo(u, u.printTime))
      && (Allows(r, end, t.kinFlushDelay, t.canPause) ==> u.printTime == RMin(end, t.printTime + DRIP_SEGMENT_TIME))
  {
    var npt := RMin(t.printTime + DRIP_SEGMENT_TIME, end);
    MoveKeeps(Noted(t, npt + t.kinFlushDelay, true), npt);
    hide MoveTo;
  }

  // The steps up to time p are asked for, and will be flushed.
  predicate NotedUpTo(t: Times, p: real) {
    p + t.kinFlushDelay <= RMin(t.stepGenTime, t.needFlushTime)
  }

  // A drip move ends early only when a reading says so, or there is none left, after i of them; it goes
  // forward in small steps, never far ahead of the mcu, and by at least a segment for every reading
  // that allows it.
  lemma {:induction false} DripKeeps(t: Times, end: real, readings: seq<Reading>) returns (i: nat)
    requires TimesOk(t)
    ensures var (u, aborted) := Dripped(t, end, readings);
      && TimesOk(u) && OnlyTimes(t, u) && u.lastFlushTime <= RMax(t.lastFlushTime, FlushEnd(u))
      && u.printTime <= RMax(t.printTime, end) && (aborted <==> u.printTime < end)
      && (u.printTime != t.printTime ==> NotedUpTo(u, u.printTime))
      && i <= |readings| && (aborted ==> i == |readings| || readings[i].ended)
      && (forall j :: 0 <= j < i ==> !readings[j].ended)
      && Paced(t.printTime, u.printTime, readings[..i], t.kinFlushDelay, t.canPause)
      && (t.printTime <= end ==>
            u.printTime >= RMin(end, t.printTime + Segments(Allowing(readings[..i], end, t.kinFlushDelay, t.canPause))))
    decreases |readings|
  {
    hide DripStep, TimesOk, Paced, Allows, DripLimit;
    i := 0;
    assert readings[..0] == [];
    NotPacedYet(t.printTime, t.kinFlushDelay, t.canPause);
    if t.printTime < end && readings != [] && !readings[0].ended {
      var v := DripStep(t, end, readings[0]);
      DripStepKeeps(t, end, readings[0]);
      i := DripKeeps(v, end, readings[1..]);
      var u := Dripped(v, end, readings[1..]).0;
      assert readings[..i+1][0] == readings[0] && readings[..i+1][1..] == readings[1..][..i];
      PacedFirst(t.printTime, v.printTime, u.printTime, readings, i, t.kinFlushDelay, t.canPause);
      forall j | 0 <= j < i + 1 ensures !readings[j].ended {
        assert j > 0 ==> readings[1..][j-1] == readings[j];
      }
      i := i + 1;
    }
  }

  lemma NotPacedYet(start: real, kinFlushDelay: real, canPause: bool)
    ensures Paced(start, start, [], kinFlushDelay, canPause)
  {
  }

  // Where _process_moves starts: at the end of what is queued, or resynchronised with the MCU.
  function StartOf(t: Times, est: real): real {
    if t.state == Main then t.printTime else SyncTime(t.printTime, t.minRestartTime, t.kinFlushDelay, est)
  }

  // The moves stand one after the other from the start on, which is in no generated time.
  predicate QueuedFrom(t: Times, u: Times, start: real, moves: seq<Timed>) {
    && start >= RMax(t.printTime, t.minRestartTime + t.kinFlushDelay)
    && u.spans == t.spans + SpansOf(start, moves)
  }

  lemma ProcessedKeeps(t: Times, moves: seq<Timed>, est: real, readings: seq<Reading>)
    requires TimesOk(t) && AllTimed(moves) && Ordered(t.spans, t.printTime)
    ensures var (u, aborted) := Processed(t, moves, est, readings);
      var start := StartOf(t, est);
      && TimesOk(u) && Forward(t, u) && SameSettings(t, u) && u.queue == t.queue && QueuedFrom(t, u, start, moves)
      && u.state == (if t.state == Drip then Drip else Main) && u.lastFlushTime <= RMax(t.lastFlushTime, FlushEnd(u))
      && (aborted ==> t.state == Drip && u.printTime < EndOf(start, moves))
      && (u.printTime != start || !aborted ==> NotedUpTo(u, u.printTime))
      && (!aborted ==> u.printTime == EndOf(start, moves) && Ordered(u.spans, u.printTime) && Covered(u))
      && (t.state == Drip ==> Paced(start, u.printTime, readings, t.kinFlushDelay, t.canPause))
      && (Enough(readings, start, moves, t.kinFlushDelay, t.canPause) ==> !aborted)
  {
    hide Dripped, Queued, Finished, EndOf, SpansOf, Ordered, Covered, Paced, Allowing, AllTimed, TimesOk, StartOf;
    var u := Queued(t, moves, est);
    var end := EndOf(u.printTime, moves);
    QueuedKeeps(t, moves, est);
    if u.state == Drip {
      var i := DripKeeps(u, end, readings);
      var (v, aborted) := Dripped(u, end, readings);
      PacedAll(u.printTime, v.printTime, readings, i, t.kinFlushDelay, t.canPause);
      assert i == |readings| ==> readings[..i] == readings;
      assert i < |readings| ==> readings[i] in readings;
      if !aborted {
        FinishedKeeps(v, end);
      }
    } else {
      FinishedKeeps(u, end);
    }
  }

  lemma QueuedKeeps(t: Times, moves: seq<Timed>, est: real)
    requires TimesOk(t) && AllTimed(moves) && Ordered(t.spans, t.printTime)
    ensures var u := Queued(t, moves, est);
      && TimesOk(u) && Forward(t, u) && SameSettings(t, u) && u.queue == t.queue
      && u.printTime == StartOf(t, est) && QueuedFrom(t, u, u.printTime, moves) && u.lastFlushTime == t.lastFlushTime
      && u.state == (if t.state == Drip then Drip else Main)
      && u.printTime <= EndOf(u.printTime, moves) && Ordered(u.spans, EndOf(u.printTime, moves))
  {
    hide EndOf, SpansOf, Ordered;
    if t.state != Main {
      SyncKeeps(t.(state := if t.state == Drip then Drip else Main), est);
    }
    OrderedLater(t.spans, t.printTime, StartOf(t, est));
    SpansOrdered(t.spans, StartOf(t, est), moves);
  }

  lemma FinishedKeeps(t: Times, end: real)
    requires TimesOk(t) && Ordered(t.spans, end) && t.printTime <= end
    ensures var u := Finished(t, end);
      && TimesOk(u) && OnlyTimes(t, u) && u.printTime == end && Ordered(u.spans, end) && Covered(u) && NotedUpTo(u, end)
      && u.lastFlushTime <= RMax(t.lastFlushTime, FlushEnd(u))
  {
    hide MoveTo, Ordered;
    MoveKeeps(Noted(t, end + t.kinFlushDelay, true), end);
    CoveredBy(Finished(t, end), end);
  }

  lemma CoveredBy(t: Times, time: real)
    requires Ordered(t.spans, time) && NotedUpTo(t, time) && t.kinFlushDelay > 0.0
    ensures Covered(t)
  {
  }

  lemma HandedOutKeeps(t: Times, est: real)
    requires Ok(t)
    ensures var u := HandedOut(t, est);
      && Ok(u) && Forward(t, u) && SameSettings(t, u) && u.queue == []
      && u.lastFlushTime <= RMax(t.lastFlushTime, FlushEnd(u)) && t.spans <= u.spans
      && (t.queue == [] ==> u == t)
      && (t.queue != [] ==>
            u.state == Main && u.printTime == EndOf(StartOf(t, est), t.queue) && NotedUpTo(u, u.printTime))
      && QueuedFrom(t, u, StartOf(t, est), t.queue)
  {
    hide Processed, Ordered, Covered, Enough, EndOf, SpansOf;
    NoSpans(t, StartOf(t, est));
    if t.queue != [] {
      ProcessedKeeps(t.(queue := []), t.queue, est, []);
      NoMoves();
    }
  }

  lemma NoMoves()
    ensures AllTimed([])
  {
  }

  lemma NoSpans(t: Times, start: real)
    ensures t.spans + SpansOf(start, []) == t.spans
  {
  }

  lemma AddedKeeps(t: Times, m: Timed, n: nat, est: real)
    requires Ok(t) && AllTimed([m]) && n <= |t.queue|
    ensures var u := Added(t, m, n, est);
      && Ok(u) && Forward(t, u) && SameSettings(t, u) && u.queue == (t.queue + [m])[n..]
      && (n == 0 ==> u == t.(queue := t.queue + [m]))
      && (n > 0 ==>
            u.state == Main && u.printTime == EndOf(StartOf(t, est), t.queue[..n])
            && QueuedFrom(t, u, StartOf(t, est), t.queue[..n]))
  {
    hide Processed, Ordered, Enough, EndOf, SpansOf;
    assert m in [m];
    assert (t.queue + [m])[n..] == t.queue[n..] + [m];
    if n > 0 {
      ProcessedKeeps(t.(queue := t.queue[n..] + [m]), t.queue[..n], est, []);
    }
  }

  lemma EmptiedKeeps(t: Times, est: real)
    requires Ok(t)
    ensures var u := Emptied(t, est);
      && Ok(u) && Forward(t, u) && SameSettings(t, u) && u.queue == [] && u.state == NeedPrime
      && QueuedFrom(t, u, StartOf(t, est), t.queue)
      && u.lastFlushTime <= RMax(t.lastFlushTime, FlushEnd(u))
      && (t.queue == [] ==> u == t.(state := NeedPrime))
      && (t.queue != [] ==> u.printTime == EndOf(StartOf(t, est), t.queue))
  {
    hide HandedOut, Ordered, EndOf, SpansOf;
    HandedOutKeeps(t, est);
  }

  // After flush_step_generation every span has had its steps generated.
  lemma StepsFlushedKeeps(t: Times, est: real)
    requires Ok(t)
    ensures var u := StepsFlushed(t, est);
      && Ok(u) && Forward(t, u) && SameSettings(t, u) && u.queue == [] && u.state == NeedPrime
      && QueuedFrom(t, u, StartOf(t, est), t.queue)
      && AllGenerated(u) && u.minRestartTime >= u.printTime && u.lastFlushTime >= u.stepGenTime
      && u.printTime == (if t.queue == [] then t.printTime else EndOf(StartOf(t, est), t.queue))
      && (t.queue == [] ==> u.spans == t.spans)
  {
    hide Emptied, FlushTo, Ordered, EndOf, SpansOf;
    var u := Emptied(t, est);
    EmptiedKeeps(t, est);
    FlushKeeps(u, u.stepGenTime);
    CoveredIsGenerated(u, FlushTo(u, u.stepGenTime));
  }

  lemma CoveredIsGenerated(t: Times, u: Times)
    requires Covered(t) && t.spans == u.spans && t.kinFlushDelay > 0.0
    requires t.generated <= u.generated && t.stepGenTime <= u.generated
    ensures AllGenerated(u)
  {
  }

  lemma AskedKeeps(t: Times, est: real, later: real)
    requires Ok(t)
    ensures var u := Asked(t, est, later);
      && Ok(u) && Forward(t, u) && SameSettings(t, u) && u.queue == [] && QueuedFrom(t, u, StartOf(t, est), t.queue)
      && u.state == (if t.state == Main then Main else NeedPrime) && u.minRestartTime + u.kinFlushDelay <= u.printTime
      && (t.state != Main ==> u.printTime >= later + RMax(BUFFER_TIME_START, MIN_KIN_TIME + u.kinFlushDelay))
      && (t.queue == [] ==> u.printTime == StartOf(t, later))
      && (t.queue != [] ==> u.printTime >= EndOf(StartOf(t, est), t.queue))
      && (t.queue != [] && t.state == Main ==> u.printTime == EndOf(StartOf(t, est), t.queue))
  {
    hide Emptied, HandedOut, Ordered, EndOf, SpansOf;
    if t.state == Main {
      HandedOutKeeps(t, est);
    } else {
      EmptiedKeeps(t, est);
      SyncKeeps(Emptied(t, est), later);
      SyncIsLeast(Emptied(t, est), later, Asked(t, est, later).printTime);
      StaysOk(Emptied(t, est), Synced(Emptied(t, est), later));
    }
  }

  lemma DweltKeeps(t: Times, delay: real, est: real, later: real)
    requires Ok(t)
    ensures var u := Dwelt(t, delay, est, later);
      && Ok(u) && Forward(t, u) && SameSettings(t, u) && u.queue == [] && QueuedFrom(t, u, StartOf(t, est), t.queue)
      && u.state == (if t.state == Main then Main else NeedPrime)
      && u.printTime >= RMax(t.printTime, t.minRestartTime + t.kinFlushDelay) + RMax(0.0, delay)
      && u.printTime == Asked(t, est, later).printTime + RMax(0.0, delay)
      && u.lastFlushTime >= FlushEnd(u)
  {
    hide Asked, MoveTo, Ordered, EndOf, SpansOf;
    var u := Asked(t, est, later);
    AskedKeeps(t, est, later);
    MoveKeeps(u, u.printTime + RMax(0.0, delay));
    StaysOk(u, MoveTo(u, u.printTime + RMax(0.0, delay)));
  }

  // The background flush goes no further than one batch ahead of the mcu, until that is far enough or
  // nothing is left.
  lemma {:induction false} FlushedOnKeeps(t: Times, est: real)
    requires Ok(t) && t.state != Main
    ensures var u := FlushedOn(t, est);
      && Ok(u) && OnlyTimes(t, u) && u.printTime == t.printTime && u.needFlushTime == t.needFlushTime
      && u.lastFlushTime <= RMax(t.lastFlushTime, t.needFlushTime + BGFLUSH_EXTRA_TIME)
      && u.lastFlushTime <= RMax(t.lastFlushTime, est + BGFLUSH_LOW_TIME + BGFLUSH_BATCH_TIME)
      && u.doKickFlushTimer == (t.doKickFlushTimer || u.lastFlushTime >= u.needFlushTime + BGFLUSH_EXTRA_TIME)
      && (u.lastFlushTime >= u.needFlushTime + BGFLUSH_EXTRA_TIME || u.lastFlushTime - est > BGFLUSH_LOW_TIME)
    decreases t.lastFlushTime < t.needFlushTime + BGFLUSH_EXTRA_TIME && t.lastFlushTime - est <= BGFLUSH_LOW_TIME
  {
    hide Ordered;
    if t.lastFlushTime < t.needFlushTime + BGFLUSH_EXTRA_TIME && t.lastFlushTime - est <= BGFLUSH_LOW_TIME {
      var u := FlushTo(t, BackgroundLimit(t.needFlushTime, est));
      FlushKeeps(t, BackgroundLimit(t.needFlushTime, est));
      StaysOk(t, u);
      FlushedOnKeeps(u, est);
    }
  }

  // _flush_handler leaves a well filled main state alone, and otherwise empties it and flushes.
  lemma HandledKeeps(t: Times, est: real)
    requires Ok(t)
    ensures var u := Handled(t, est);
      && Ok(u) && Forward(t, u) && SameSettings(t, u)
      && (t.state == Main && t.printTime - est > BUFFER_TIME_LOW ==> u == t)
      && (t.state == Main && t.printTime - est <= BUFFER_TIME_LOW ==>
            u.state == NeedPrime && u.queue == [] && QueuedFrom(t, u, StartOf(t, est), t.queue))
      && (t.state != Main ==> OnlyTimes(t, u) && u.printTime == t.printTime)
      && (u.state == Main
          || u.lastFlushTime >= u.needFlushTime + BGFLUSH_EXTRA_TIME || u.lastFlushTime - est > BGFLUSH_LOW_TIME)
      && u.lastFlushTime <= RMax(if t.state == Main then RMax(t.lastFlushTime, FlushEnd(u)) else t.lastFlushTime,
                                 RMin(u.needFlushTime + BGFLUSH_EXTRA_TIME,
                                      est + BGFLUSH_LOW_TIME + BGFLUSH_BATCH_TIME))
  {
    hide Emptied, FlushedOn, Ordered, EndOf, SpansOf;
    if t.state != Main {
      FlushedOnKeeps(t, est);
    } else if t.printTime - est <= BUFFER_TIME_LOW {
      EmptiedKeeps(t, est);
      FlushedOnKeeps(Emptied(t, est), est);
    }
  }

  // The timer is switched off exactly when everything is flushed; otherwise it comes back after a
  // positive time, when print time or the last flush is exactly at its low mark.
  lemma NextCallIs(t: Times, est: real)
    requires Ok(t)
    ensures var u := Handled(t, est);
      match NextCall(u, est)
      case None =>
        && u.state != Main && u.doKickFlushTimer
        && (forall i :: 0 <= i < |u.spans| ==> u.spans[i].end + BGFLUSH_EXTRA_TIME <= u.lastFlushTime)
      case Some(delay) =>
        && delay > 0.0 && est + delay + (if u.state == Main then BUFFER_TIME_LOW else BGFLUSH_LOW_TIME)
          == (if u.state == Main then u.printTime else u.lastFlushTime)
  {
    hide Emptied, FlushedOn, Ordered, EndOf, SpansOf;
    HandledKeeps(t, est);
    if t.state != Main {
      FlushedOnKeeps(t, est);
    } else {
      EmptiedKeeps(t, est);
      FlushedOnKeeps(Emptied(t, est), est);
    }
  }

  // The flush delay changes only after all steps were generated and flushed, to the longest of the
  // delays registered, of which one is exchanged.
  lemma RescannedKeeps(t: Times, delay: real, oldDelay: real, est: real)
    requires Ok(t) && (oldDelay != 0.0 ==> oldDelay in t.kinFlushTimes)
    ensures var u := Rescanned(t, delay, oldDelay, est);
      && Ok(u) && Forward(t, u) && u.state == NeedPrime && u.queue == [] && QueuedFrom(t, u, StartOf(t, est), t.queue)
      && AllGenerated(u) && u.minRestartTime >= u.printTime && u.lastFlushTime >= u.stepGenTime
      && u.kinFlushDelay in [SDS_CHECK_TIME] + u.kinFlushTimes && u.kinFlushDelay >= SDS_CHECK_TIME
      && (forall d :: d in u.kinFlushTimes ==> d <= u.kinFlushDelay)
      && multiset(u.kinFlushTimes) == multiset(t.kinFlushTimes)
           - (if oldDelay != 0.0 then multiset{oldDelay} else multiset{})
           + if delay != 0.0 then multiset{delay} else multiset{}
  {
    hide StepsFlushed, Ordered, PopFirst, Longest, EndOf, SpansOf;
    StepsFlushedKeeps(t, est);
  }

  lemma TransmittedKeeps(t: Times, m: Timed, est: real, readings: seq<Reading>)
    requires Ok(t) && AllTimed([m])
    ensures var (u, completed) := Transmitted(t, m, est, readings);
      var start := StartOf(t.(state := Drip), est);
      && Ok(u) && Forward(t, u) && SameSettings(t, u) && u.queue == t.queue && u.state == NeedPrime
      && start >= RMax(t.printTime, t.minRestartTime + t.kinFlushDelay)
      && u.spans == (if completed then t.spans + SpansOf(start, [m]) else [])
      && (completed ==> u.printTime == EndOf(start, [m]))
      && Paced(start, u.printTime, readings, t.kinFlushDelay, t.canPause)
      && (Enough(readings, start, [m], t.kinFlushDelay, t.canPause) ==> completed)
  {
    hide Processed, Paced, Enough, EndOf, SpansOf;
    ProcessedKeeps(t.(state := Drip), [m], est, readings);
  }

  // A homing move that is accepted and not ended early is appended whole, after everything else; one
  // ended early leaves no move behind, one refused adds none.  Enough readings that allow it complete it.
  lemma HomedKeeps(t: Times, m: Timed, accepted: bool, readings: seq<Reading>, est: real, later: real)
    returns (start: real)
    requires Ok(t) && AllTimed([m])
    ensures var (u, completed) := Homed(t, m, accepted, readings, est, later);
      var before := t.spans + SpansOf(StartOf(t, est), t.queue);
      && Ok(u) && Forward(t, u) && SameSettings(t, u) && u.queue == [] && u.state == NeedPrime
      && AllGenerated(u) && u.minRestartTime >= u.printTime
      && start >= RMax(t.printTime, t.minRestartTime + t.kinFlushDelay) + t.kinFlushDelay
      && (completed ==> accepted && u.spans == before + SpansOf(start, [m]) && u.printTime == EndOf(start, [m]))
      && (accepted && !completed ==> u.spans == [])
      && (!accepted ==> u.spans == before && u.printTime == start)
      && (accepted ==> Paced(start, u.printTime, readings, t.kinFlushDelay, t.canPause))
      && (accepted && Enough(readings, start, [m], t.kinFlushDelay, t.canPause) ==> completed)
  {
    hide Dwelt, HandedOut, Transmitted, StepsFlushed, Paced, Enough, EndOf;
    hide SpansOf, Ordered, Covered, AllTimed, StartOf;
    var d := Dwelt(t, t.kinFlushDelay, est, later);
    DweltKeeps(t, t.kinFlushDelay, est, later);
    PausedKeeps(d);
    HandedOutKeeps(Paused(d), est);
    var u := HandedOut(Paused(d), est).(doKickFlushTimer := false);
    KickKeeps(HandedOut(Paused(d), est));
    start := u.printTime;
    if accepted {
      start := StartOf(u.(state := Drip), later);
      TransmittedKeeps(u, m, later, readings);
      StepsFlushedKeeps(Transmitted(u, m, later, readings).0, later);
    } else {
      StepsFlushedKeeps(u, later);
    }
  }

  lemma PausedKeeps(t: Times)
    requires Ok(t)
    ensures Ok(Paused(t)) && Paused(t) == t.(state := Paused(t).state)
    ensures if t.state == Main then Paused(t) == t else Paused(t).state == Priming
  {
  }

  // The priming state is left as soon as its timer fires, with everything handed out.
  lemma PrimedKeeps(t: Times, est: real)
    requires Ok(t)
    ensures var u := Primed(t, est);
      && Ok(u) && Forward(t, u) && SameSettings(t, u)
      && (t.state != Priming ==> u == t)
      && (t.state == Priming ==>
            u.state == NeedPrime && u.queue == [] && QueuedFrom(t, u, StartOf(t, est), t.queue))
  {
    hide Emptied, Ordered, EndOf, SpansOf;
    EmptiedKeeps(t, est);
  }

  lemma KickKeeps(t: Times)
    requires Ok(t)
    ensures Ok(t.(doKickFlushTimer := false))
  {
  }

  lemma NotedKeeps(t: Times, mqTime: real, setStepGenTime: bool)
    requires Ok(t)
    ensures var u := Noted(t, mqTime, setStepGenTime);
      && Ok(u) && OnlyTimes(t, u) && u.printTime == t.printTime && u.lastFlushTime == t.lastFlushTime
      && !u.doKickFlushTimer && u.needFlushTime >= mqTime && (setStepGenTime ==> u.stepGenTime >= mqTime)
      && u.needFlushTime in [t.needFlushTime, mqTime] && u.stepGenTime in [t.stepGenTime, mqTime]
      && (!setStepGenTime ==> u.stepGenTime == t.stepGenTime)
  {
  }

  lemma OperatedKeeps(t: Times, op: Op)
    requires Ok(t) && OpOk(op)
    ensures Ok(Operated(t, op)) && Forward(t, Operated(t, op))
  {
    hide Ok, Added, Asked, Dwelt, Emptied, Handled, StepsFlushed, Homed, Rescanned, Noted, AllTimed;
    match op
    case Add(m, n, est) => AddedKeeps(t, m, if n <= |t.queue| then n else |t.queue|, est);
    case Last(est, later) => AskedKeeps(t, est, later);
    case Wait(delay, est, later) => DweltKeeps(t, delay, est, later);
    case Pause => PausedKeeps(t);
    case Prime(est) => PrimedKeeps(t, est);
    case Background(est) => HandledKeeps(t, est);
    case Flush(est) => EmptiedKeeps(t, est);
    case Sync(est) => StepsFlushedKeeps(t, est);
    case Note(mqTime, setStepGenTime) => NotedKeeps(t, mqTime, setStepGenTime);
    case Home(m, accepted, readings, est, later) =>
      var _ := HomedKeeps(t, m, accepted, readings, est, later);
    case ScanTime(delay, oldDelay, est) =>
      if oldDelay == 0.0 || oldDelay in t.kinFlushTimes {
        RescannedKeeps(t, delay, oldDelay, est);
      }
  }

  // Main theorem: any run of operations, with any readings of the clock, keeps the times in order, and
  // no time ever goes back.
  lemma {:induction false} RunKeeps(t: Times, ops: seq<Op>)
    requires Ok(t) && forall op :: op in ops ==> OpOk(op)
    ensures Ok(AfterAll(t, ops)) && Forward(t, AfterAll(t, ops))
  {
    hide Ok, OpOk, Operated;
    if ops != [] {
      var n := |ops| - 1;
      RunKeeps(t, ops[..n]);
      assert ops[n] in ops;
      OperatedKeeps(AfterAll(t, ops[..n]), ops[n]);
    }
  }
}
