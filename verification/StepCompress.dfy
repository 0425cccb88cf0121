/**
 A stepper's step queue (stepcompress.c): from requested step times to queue_step commands,
 and back from the command history to past positions.

 Clocks are exact integers; the 32-bit truncations of the queue entries and of the interval of
 a queue_step are modelled.
 */
module StepCompress {
  import opened Basics
  import opened StepBisect
  import opened StepHistory

  const CLOCK_DIFF_MAX: int := 0x3000_0000

  // One step: its clock and direction (true counts up).
  datatype Step = Step(clock: int, dir: bool)

  // Commands for the mcu.  The interval is the 32-bit value that is transmitted.
  datatype Msg =
    | QueueStep(interval: int, count: int, add: int, minClock: int, reqClock: int)
    | SetNextStepDir(pin: bool, reqClock: int)

  /* ----- What the mcu does with the commands ----- */

  datatype McuStep = McuStep(time: int, pin: bool)

  // The mcu only has a 32-bit timer.
  datatype McuState = McuState(time: int, pin: bool, steps: seq<McuStep>)

  const MCU_START := McuState(0, false, [])

  function McuTimes(time: int, pin: bool, interval: int, add: int, count: nat): seq<McuStep> {
    seq(count, k requires 0 <= k < count => McuStep((time + At(interval, add, k + 1)) % TWO32, pin))
  }

  function McuExec(s: McuState, m: Msg): McuState {
    match m
    case SetNextStepDir(pin, _) => s.(pin := pin)
    case QueueStep(interval, count, add, _, _) =>
      if count < 0 then s
      else McuState((s.time + At(interval, add, count)) % TWO32, s.pin,
                    s.steps + McuTimes(s.time, s.pin, interval, add, count))
  }

  function McuRun(s: McuState, msgs: seq<Msg>): McuState {
    if msgs == [] then s else McuExec(McuRun(s, msgs[..|msgs| - 1]), msgs[|msgs| - 1])
  }

  lemma McuRunAppend(s: McuState, msgs: seq<Msg>, m: Msg)
    ensures McuRun(s, msgs + [m]) == McuExec(McuRun(s, msgs), m)
  {
    assert (msgs + [m])[..|msgs|] == msgs;
  }

  function OnTimer(steps: seq<Step>, invert: bool): (r: seq<McuStep>)
    ensures |r| == |steps|
  {
    seq(|steps|, i requires 0 <= i < |steps| => McuStep(steps[i].clock % TWO32, steps[i].dir != invert))
  }

  lemma ModAdd(a: int, b: int, c: int)
    requires c % TWO32 == b % TWO32
    ensures (a % TWO32 + c) % TWO32 == (a + b) % TWO32
  {
  }

  /* ----- Fidelity of what was produced so far ----- */

  predicate Increasing(steps: seq<Step>) {
    forall i, j :: 0 <= i < j < |steps| ==> steps[i].clock < steps[j].clock
  }

  // The produced steps are the first requested ones, one for one and in order, never late and
  // at most maxError early.
  predicate Faithful(asked: seq<Step>, produced: seq<Step>, maxError: nat) {
    && |produced| <= |asked|
    && forall i :: 0 <= i < |produced| ==>
      && produced[i].dir == asked[i].dir
      && asked[i].clock - maxError <= produced[i].clock <= asked[i].clock
  }

  // Clock of the last produced step.
  function LastClock(produced: seq<Step>): int {
    if produced == [] then 0 else produced[|produced| - 1].clock
  }

  // The 32-bit queue holds the requested steps from index n on, all in direction dir and within
  // CLOCK_DIFF_MAX of the last step.
  predicate Pending(queue: seq<int>, asked: seq<Step>, n: nat, lastStepClock: int, dir: bool) {
    && n + |queue| == |asked|
    && forall k :: 0 <= k < |queue| ==> Holds(queue[k], asked[n + k], lastStepClock, dir)
  }

  predicate Holds(entry: int, want: Step, lastStepClock: int, dir: bool) {
    want.dir == dir && entry == want.clock % TWO32 && lastStepClock < want.clock < lastStepClock + CLOCK_DIFF_MAX
  }

  // Distances of the queue entries from the last step, as minmax_point computes them in uint32_t.
  function Points(queue: seq<int>, lastStepClock: int): (pts: seq<int>)
    ensures |pts| == |queue|
  {
    seq(|queue|, k requires 0 <= k < |queue| => (queue[k] - lastStepClock) % TWO32)
  }

  // Truncation to 32 bits loses nothing.
  lemma PointsExact(queue: seq<int>, asked: seq<Step>, n: nat, lastStepClock: int, dir: bool)
    requires Pending(queue, asked, n, lastStepClock, dir) && Increasing(asked)
    ensures Rising(Points(queue, lastStepClock))
    ensures forall k :: 0 <= k < |queue| ==> Points(queue, lastStepClock)[k] == asked[n + k].clock - lastStepClock
  {
    var pts := Points(queue, lastStepClock);
    forall k | 0 <= k < |queue| ensures pts[k] == asked[n + k].clock - lastStepClock {
      assert Holds(queue[k], asked[n + k], lastStepClock, dir);
      ModSub(asked[n + k].clock, lastStepClock);
    }
    forall j, k | 0 <= j < k < |pts| ensures pts[j] < pts[k] {
      assert asked[n + j].clock < asked[n + k].clock;
    }
  }

  lemma ModSub(a: int, b: int)
    requires 0 <= a - b < TWO32
    ensures (a % TWO32 - b) % TWO32 == a - b
  {
  }

  // The steps of one queue_step command.
  function Emit(lastStepClock: int, m: StepMove, dir: bool): (r: seq<Step>)
    ensures m.count >= 0 ==> |r| == m.count
  {
    if m.count < 0 then []
    else seq(m.count, k requires 0 <= k < m.count => Step(lastStepClock + At(m.interval, m.add, k + 1), dir))
  }

  // The situation in which queue_flush turns the head of its queue into one command.
  predicate CanEmit(queue: seq<int>, asked: seq<Step>, produced: seq<Step>, lastStepClock: int, dir: bool,
                    maxError: nat, m: StepMove) {
    && Increasing(asked) && Increasing(produced) && Faithful(asked, produced, maxError)
    && lastStepClock == LastClock(produced)
    && Pending(queue, asked, |produced|, lastStepClock, dir)
    && LineOk(Points(queue, lastStepClock), maxError, m)
  }

  // Step k of the command answers request k of the queue.
  lemma EmitOne(queue: seq<int>, asked: seq<Step>, produced: seq<Step>, lastStepClock: int, dir: bool,
                maxError: nat, m: StepMove, k: nat)
    requires CanEmit(queue, asked, produced, lastStepClock, dir, maxError, m) && k < m.count
    ensures var want := asked[|produced| + k];
      && want.clock - maxError <= Emit(lastStepClock, m, dir)[k].clock <= want.clock
      && want.dir == dir && lastStepClock < Emit(lastStepClock, m, dir)[k].clock
  {
    var pts := Points(queue, lastStepClock);
    PointsExact(queue, asked, |produced|, lastStepClock, dir);
    Windows(pts, maxError, k);
    assert InWindow(pts, maxError, m.interval, m.add, k + 1);
    assert Holds(queue[k], asked[|produced| + k], lastStepClock, dir);
    assert pts[k] == asked[|produced| + k].clock - lastStepClock;
  }

  lemma EmitFaithful(queue: seq<int>, asked: seq<Step>, produced: seq<Step>, lastStepClock: int, dir: bool,
                     maxError: nat, m: StepMove)
    requires CanEmit(queue, asked, produced, lastStepClock, dir, maxError, m)
    ensures Faithful(asked, produced + Emit(lastStepClock, m, dir), maxError)
  {
    var emitted := Emit(lastStepClock, m, dir);
    hide Emit, CanEmit;
    var more := produced + emitted;
    EmitCounts(queue, asked, produced, lastStepClock, dir, maxError, m);
    forall i | 0 <= i < |more|
      ensures more[i].dir == asked[i].dir && asked[i].clock - maxError <= more[i].clock <= asked[i].clock
    {
      if i >= |produced| {
        EmitOne(queue, asked, produced, lastStepClock, dir, maxError, m, i - |produced|);
        EmitDir(lastStepClock, m, dir, i - |produced|);
      }
    }
  }

  lemma EmitCounts(queue: seq<int>, asked: seq<Step>, produced: seq<Step>, lastStepClock: int, dir: bool,
                   maxError: nat, m: StepMove)
    requires CanEmit(queue, asked, produced, lastStepClock, dir, maxError, m)
    ensures 0 < m.count <= |queue| && |Emit(lastStepClock, m, dir)| == m.count
    ensures |produced| + |queue| == |asked| && Faithful(asked, produced, maxError)
  {
  }

  lemma EmitDir(lastStepClock: int, m: StepMove, dir: bool, k: nat)
    requires k < m.count
    ensures Emit(lastStepClock, m, dir)[k] == Step(lastStepClock + At(m.interval, m.add, k + 1), dir)
  {
  }

  lemma EmitIncreasing(queue: seq<int>, asked: seq<Step>, produced: seq<Step>, lastStepClock: int, dir: bool,
                       maxError: nat, m: StepMove)
    requires CanEmit(queue, asked, produced, lastStepClock, dir, maxError, m)
    ensures var more := produced + Emit(lastStepClock, m, dir);
      && Increasing(more) && LastClock(more) == lastStepClock + At(m.interval, m.add, m.count)
      && lastStepClock < LastClock(more)
  {
    var emitted, n := Emit(lastStepClock, m, dir), |produced|;
    var more := produced + emitted;
    PointsExact(queue, asked, n, lastStepClock, dir);
    hide At, LineOk;
    forall i, j | 0 <= i < j < |more| ensures more[i].clock < more[j].clock {
      if j >= n {
        EmitOne(queue, asked, produced, lastStepClock, dir, maxError, m, j - n);
        if i >= n {
          AtIncreases(Points(queue, lastStepClock), maxError, m, i - n + 1, j - n + 1);
        }
      }
    }
    EmitCounts(queue, asked, produced, lastStepClock, dir, maxError, m);
    EmitOne(queue, asked, produced, lastStepClock, dir, maxError, m, m.count - 1);
  }

  lemma EmitPending(queue: seq<int>, asked: seq<Step>, produced: seq<Step>, lastStepClock: int, dir: bool,
                    maxError: nat, m: StepMove)
    requires CanEmit(queue, asked, produced, lastStepClock, dir, maxError, m)
    ensures m.count <= |queue|
    ensures Pending(queue[m.count..], asked, |produced| + m.count,
                    lastStepClock + At(m.interval, m.add, m.count), dir)
  {
    EmitCounts(queue, asked, produced, lastStepClock, dir, maxError, m);
    EmitOne(queue, asked, produced, lastStepClock, dir, maxError, m, m.count - 1);
    EmitDir(lastStepClock, m, dir, m.count - 1);
    var n, rest, lsc := |produced| + m.count, queue[m.count..], lastStepClock + At(m.interval, m.add, m.count);
    assert lastStepClock < lsc <= asked[n - 1].clock;
    forall k | 0 <= k < |rest| ensures Holds(rest[k], asked[n + k], lsc, dir) {
      assert Holds(queue[m.count + k], asked[|produced| + (m.count + k)], lastStepClock, dir);
      assert asked[n - 1].clock < asked[n + k].clock;
    }
  }

  lemma AtIncreases(pts: seq<int>, maxError: nat, m: StepMove, j: nat, k: nat)
    requires Rising(pts) && LineOk(pts, maxError, m) && j < k <= m.count
    ensures At(m.interval, m.add, j) < At(m.interval, m.add, k)
    decreases k - j
  {
    FitsRunning(pts, maxError, m.interval, m.add, m.count, j);
    if j + 1 < k {
      AtIncreases(pts, maxError, m, j + 1, k);
    }
  }

  lemma OnTimerJoin(a: seq<Step>, b: seq<Step>, invert: bool)
    ensures OnTimer(a + b, invert) == OnTimer(a, invert) + OnTimer(b, invert)
  {
  }

  /* ----- Positions ----- */

  function Sign(dir: bool): int { if dir then 1 else -1 }

  function Net(steps: seq<Step>): int {
    if steps == [] then 0 else Net(steps[..|steps| - 1]) + Sign(steps[|steps| - 1].dir)
  }

  // Net steps later than the clock, and up to it.
  function NetAfter(steps: seq<Step>, clock: int): int {
    if steps == [] then 0
    else
      var last := steps[|steps| - 1];
      NetAfter(steps[..|steps| - 1], clock) + if last.clock > clock then Sign(last.dir) else 0
  }

  function NetUpTo(steps: seq<Step>, clock: int): int {
    if steps == [] then 0
    else
      var last := steps[|steps| - 1];
      NetUpTo(steps[..|steps| - 1], clock) + if last.clock <= clock then Sign(last.dir) else 0
  }

  lemma {:induction false} NetSplit(steps: seq<Step>, clock: int)
    ensures Net(steps) - NetAfter(steps, clock) == NetUpTo(steps, clock)
  {
    if steps != [] {
      NetSplit(steps[..|steps| - 1], clock);
    }
  }

  lemma NetAppend(steps: seq<Step>, x: Step, clock: int)
    ensures Net(steps + [x]) == Net(steps) + Sign(x.dir)
    ensures NetAfter(steps + [x], clock) == NetAfter(steps, clock) + if x.clock > clock then Sign(x.dir) else 0
  {
    assert (steps + [x])[..|steps|] == steps;
  }

  function Signed(up: bool, n: int): int { if up then n else -n }

  // The history record and the steps of one queue_step command.
  function Record(firstClock: int, m: StepMove, position: int, dir: bool): History
    requires m.count > 0
  {
    History(firstClock, firstClock + (At(m.interval, m.add, m.count) - m.interval), position,
            if dir then m.count else -m.count, m.interval, m.add)
  }

  function StepsOf(h: History, n: nat): (r: seq<Step>)
    ensures |r| == n
  {
    seq(n, k requires 0 <= k < n => Step(ClockOf(h, k + 1), h.stepCount > 0))
  }

  lemma StepsOfNext(steps: seq<Step>, h: History, n: nat)
    ensures steps + StepsOf(h, n + 1) == steps + StepsOf(h, n) + [Step(ClockOf(h, n + 1), h.stepCount > 0)]
    ensures steps + StepsOf(h, 0) == steps
  {
  }

  lemma {:induction false} NetOfRecord(steps: seq<Step>, h: History, n: nat, clock: int)
    requires n <= Count(h)
    ensures Net(steps + StepsOf(h, n)) == Net(steps) + Signed(h.stepCount > 0, n)
    ensures NetAfter(steps + StepsOf(h, n), clock)
      == NetAfter(steps, clock) + Signed(h.stepCount > 0, StepsAfter(h, clock, n))
  {
    hide StepsOf, ClockOf, Net, NetAfter;
    if n == 0 {
      StepsOfNext(steps, h, 0);
    } else {
      NetOfRecord(steps, h, n - 1, clock);
      StepsOfNext(steps, h, n - 1);
      NetAppend(steps + StepsOf(h, n - 1), Step(ClockOf(h, n), h.stepCount > 0), clock);
    }
  }

  // A new record at the head of the history stands for its steps.
  lemma HistoryGrows(history: seq<History>, lastPosition: int, produced: seq<Step>, expired: int, h: History)
    requires Contiguous(history, lastPosition) && lastPosition == Net(produced)
    requires forall c :: c >= expired ==> HistAfter(history, c) == NetAfter(produced, c)
    requires RecordOk(h) && h.startPosition == lastPosition
    requires history != [] ==> history[0].lastClock < h.firstClock
    ensures var more := produced + StepsOf(h, Count(h));
      && Contiguous([h] + history, lastPosition + h.stepCount)
      && lastPosition + h.stepCount == Net(more)
      && forall c :: c >= expired ==> HistAfter([h] + history, c) == NetAfter(more, c)
  {
    hide StepsOf, Net, NetAfter, StepsAfter, HistAfter;
    var more := produced + StepsOf(h, Count(h));
    HistoryMore(h, history, expired);
    NetOfRecord(produced, h, Count(h), expired);
    hide Contiguous, RecordOk;
    forall c | c >= expired ensures HistAfter([h] + history, c) == NetAfter(more, c) {
      NetOfRecord(produced, h, Count(h), c);
      HistoryMore(h, history, c);
    }
  }

  lemma HistoryMore(h: History, history: seq<History>, clock: int)
    ensures HistAfter([h] + history, clock) == After(h, clock) + HistAfter(history, clock)
    ensures ([h] + history)[1..] == history
  {
    assert ([h] + history)[1..] == history;
  }

  // One more command makes the mcu execute one more record.
  lemma McuGrows(msgs: seq<Msg>, produced: seq<Step>, lastStepClock: int, firstClock: int, m: StepMove,
                 position: int, dir: bool, invert: bool, minClock: int, reqClock: int)
    requires m.count > 0 && m.interval % TWO32 == (firstClock - lastStepClock) % TWO32
    requires McuRun(MCU_START, msgs) == McuState(lastStepClock % TWO32, dir != invert, OnTimer(produced, invert))
    ensures var h := Record(firstClock, m, position, dir);
      McuRun(MCU_START, msgs + [QueueStep(m.interval, m.count, m.add, minClock, reqClock)])
      == McuState(h.lastClock % TWO32, dir != invert, OnTimer(produced + StepsOf(h, m.count), invert))
  {
    McuRunAppend(MCU_START, msgs, QueueStep(m.interval, m.count, m.add, minClock, reqClock));
    RecordOnTimer(lastStepClock, firstClock, m, position, dir, invert);
    OnTimerJoin(produced, StepsOf(Record(firstClock, m, position, dir), m.count), invert);
  }

  // Every step of the record appears on the mcu's timer at the low bits of its clock.
  lemma RecordOnTimer(lastStepClock: int, firstClock: int, m: StepMove, position: int, dir: bool, invert: bool)
    requires m.count > 0 && m.interval % TWO32 == (firstClock - lastStepClock) % TWO32
    ensures var h := Record(firstClock, m, position, dir);
      && McuTimes(lastStepClock % TWO32, dir != invert, m.interval, m.add, m.count)
        == OnTimer(StepsOf(h, m.count), invert)
      && (lastStepClock % TWO32 + At(m.interval, m.add, m.count)) % TWO32 == h.lastClock % TWO32
  {
    var h := Record(firstClock, m, position, dir);
    var a := McuTimes(lastStepClock % TWO32, dir != invert, m.interval, m.add, m.count);
    var b := OnTimer(StepsOf(h, m.count), invert);
    hide At;
    forall k: nat | k <= m.count
      ensures (lastStepClock % TWO32 + At(m.interval, m.add, k)) % TWO32 == ClockOf(h, k) % TWO32
    {
      TimerStep(lastStepClock, firstClock, m.interval, At(m.interval, m.add, k));
    }
    forall k | 0 <= k < m.count ensures a[k] == b[k] {
      TimerStep(lastStepClock, firstClock, m.interval, At(m.interval, m.add, k + 1));
    }
  }

  lemma TimerStep(lastStepClock: int, firstClock: int, interval: int, at: int)
    requires interval % TWO32 == (firstClock - lastStepClock) % TWO32
    ensures (lastStepClock % TWO32 + at) % TWO32 == (firstClock + (at - interval)) % TWO32
  {
    var d := firstClock - lastStepClock - interval;
    assert d % TWO32 == 0;
    assert lastStepClock + at + d == firstClock + (at - interval);
    ModAdd(lastStepClock, at, at);
    ModAdd(lastStepClock + at, d, 0);
  }

  lemma LineCount(pts: seq<int>, maxError: nat, m: StepMove)
    requires LineOk(pts, maxError, m)
    ensures 0 < m.count <= |pts| && 0 <= m.interval < TWO32
  {
  }

  // A compressed sequence makes a sound history record, with the same steps.
  lemma RecordOfLine(pts: seq<int>, maxError: nat, lastStepClock: int, m: StepMove, position: int, dir: bool)
    requires Rising(pts) && LineOk(pts, maxError, m)
    ensures var h := Record(lastStepClock + m.interval, m, position, dir);
      RecordOk(h) && StepsOf(h, m.count) == Emit(lastStepClock, m, dir)
    ensures m.interval > 0 && m.interval % TWO32 == (lastStepClock + m.interval - lastStepClock) % TWO32
  {
    var h := Record(lastStepClock + m.interval, m, position, dir);
    FitsIsOk(pts, maxError, m);
    hide At, LineOk;
    forall j: nat | 1 <= j < Count(h) ensures ClockOf(h, j) < ClockOf(h, j + 1) {
      AtIncreases(pts, maxError, m, j, j + 1);
    }
  }

  lemma EmitAll(queue: seq<int>, asked: seq<Step>, produced: seq<Step>, lastStepClock: int, dir: bool,
                maxError: nat, m: StepMove)
    requires CanEmit(queue, asked, produced, lastStepClock, dir, maxError, m)
    ensures var more := produced + Emit(lastStepClock, m, dir);
      var lsc := lastStepClock + At(m.interval, m.add, m.count);
      && 0 < m.count <= |queue| && |more| == |produced| + m.count
      && Faithful(asked, more, maxError) && Increasing(more) && lsc == LastClock(more)
      && Pending(queue[m.count..], asked, |more|, lsc, dir) && lastStepClock < lsc
  {
    EmitCounts(queue, asked, produced, lastStepClock, dir, maxError, m);
    EmitFaithful(queue, asked, produced, lastStepClock, dir, maxError, m);
    EmitIncreasing(queue, asked, produced, lastStepClock, dir, maxError, m);
    EmitPending(queue, asked, produced, lastStepClock, dir, maxError, m);
  }

  lemma PushPending(queue: seq<int>, asked: seq<Step>, n: nat, lastStepClock: int, dir: bool, clock: int,
                    produced: seq<Step>, maxError: nat)
    requires Pending(queue, asked, n, lastStepClock, dir) && Increasing(asked) && Faithful(asked, produced, maxError)
    requires LastClock(asked) < clock && lastStepClock < clock < lastStepClock + CLOCK_DIFF_MAX
    ensures Pending(queue + [clock % TWO32], asked + [Step(clock, dir)], n, lastStepClock, dir)
    ensures Increasing(asked + [Step(clock, dir)]) && Faithful(asked + [Step(clock, dir)], produced, maxError)
  {
  }

  lemma FarRecord(clock: int, m: StepMove, position: int, dir: bool)
    requires m.count == 1
    ensures var h := Record(clock, m, position, dir);
      RecordOk(h) && StepsOf(h, 1) == [Step(clock, dir)] && At(m.interval, m.add, 1) == m.interval
  {
    AtNext(m.interval, m.add, 0);
  }

  lemma FarFaithful(asked: seq<Step>, produced: seq<Step>, lastStepClock: int, maxError: nat, clock: int, dir: bool)
    requires Increasing(asked) && Increasing(produced) && Faithful(asked, produced, maxError)
    requires |produced| == |asked| && LastClock(asked) < clock && lastStepClock < clock
    requires lastStepClock == LastClock(produced)
    ensures var x := [Step(clock, dir)];
      && Increasing(asked + x) && Increasing(produced + x) && Faithful(asked + x, produced + x, maxError)
      && LastClock(produced + x) == clock && Pending([], asked + x, |produced + x|, clock, dir)
  {
    assert |produced| > 0 ==> produced[|produced| - 1].clock == LastClock(produced);
  }

  lemma AppendAsked(asked: seq<Step>, x: Step)
    ensures Net(asked + [x]) == Net(asked) + Sign(x.dir) && LastClock(asked + [x]) == x.clock
  {
    NetAppend(asked, x, 0);
  }

  lemma AppendRequested(requested: seq<Step>, x: Step)
    ensures Net(requested + [x]) == Net(requested) + Sign(x.dir)
    ensures (requested + [x])[..|requested|] == requested
  {
    NetAppend(requested, x, 0);
  }

  /* ----- The clocks of the commands ----- */

  // How many steps the commands make.
  function StepsIn(msgs: seq<Msg>): nat {
    if msgs == [] then 0
    else
      var m := msgs[|msgs| - 1];
      StepsIn(msgs[..|msgs| - 1]) + if m.QueueStep? && m.count > 0 then m.count else 0
  }

  // A command after the first steps is wanted at the clock of the last of them; a single far step at its own.
  predicate ClockOk(msg: Msg, before: nat, produced: seq<Step>) {
    && before <= |produced|
    && match msg
       case SetNextStepDir(_, reqClock) => reqClock == LastClock(produced[..before])
       case QueueStep(_, count, _, minClock, reqClock) =>
         && 0 < count <= |produced| - before && minClock == LastClock(produced[..before])
         && reqClock == if count == 1 && produced[before].clock >= minClock + CLOCK_DIFF_MAX
                        then produced[before].clock else minClock
  }

  predicate ClocksOk(msgs: seq<Msg>, produced: seq<Step>) {
    StepsIn(msgs) == |produced| && forall k :: 0 <= k < |msgs| ==> ClockOk(msgs[k], StepsIn(msgs[..k]), produced)
  }

  lemma ClockStays(msg: Msg, before: nat, produced: seq<Step>, more: seq<Step>)
    requires ClockOk(msg, before, produced)
    ensures ClockOk(msg, before, produced + more)
  {
    assert (produced + more)[..before] == produced[..before];
  }

  lemma ClocksGrow(msgs: seq<Msg>, produced: seq<Step>, msg: Msg, more: seq<Step>)
    requires ClocksOk(msgs, produced) && ClockOk(msg, |produced|, produced + more)
    requires |more| == if msg.QueueStep? && msg.count > 0 then msg.count else 0
    ensures ClocksOk(msgs + [msg], produced + more)
  {
    hide ClockOk;
    assert (msgs + [msg])[..|msgs|] == msgs;
    forall k | 0 <= k < |msgs| + 1 ensures ClockOk((msgs + [msg])[k], StepsIn((msgs + [msg])[..k]), produced + more) {
      if k < |msgs| {
        assert (msgs + [msg])[..k] == msgs[..k];
        ClockStays(msgs[k], StepsIn(msgs[..k]), produced, more);
      }
    }
  }

  // The clocks of the first and the last step of a record.
  lemma RecordClocks(produced: seq<Step>, firstClock: int, m: StepMove, position: int, dir: bool)
    requires m.count > 0
    ensures var h := Record(firstClock, m, position, dir);
      var more := produced + StepsOf(h, m.count);
      && (more)[..|produced|] == produced && more[|produced|].clock == firstClock
      && LastClock(more) == firstClock + (At(m.interval, m.add, m.count) - m.interval)
  {
    AtNext(m.interval, m.add, 0);
  }

  /* ----- The stepper ----- */

  // A queue_step command that follows on the given clock.
  predicate MadeFrom(msg: Msg, clock: int) { msg.QueueStep? && msg.minClock == clock }

  predicate MadeBefore(msg: Msg, clock: int) { msg.QueueStep? && msg.minClock < clock }

  class Stepper {
    const maxError: nat
    const invertSdir: bool
    // Requested steps that were not compressed yet, as 32-bit clocks
    var queue: seq<int>
    var lastStepClock: int
    var sdir: Option<bool>
    // The step+dir+step filter: one pending step, or clock 0
    var nextStepClock: int
    var nextStepDir: bool
    var msgQueue: seq<Msg>
    var lastPosition: int
    var history: seq<History>
    ghost var requested: seq<Step>  // every step ever asked for
    ghost var asked: seq<Step>      // those that passed the filter
    ghost var produced: seq<Step>   // the steps of all queue_step commands
    ghost var expired: int          // history is complete from this clock on

    // What was produced answers what was asked; the queue holds the rest.
    ghost predicate QueueOk()
      reads `queue, `asked, `produced, `lastStepClock, `sdir
    {
      && Increasing(asked) && Increasing(produced) && Faithful(asked, produced, maxError)
      && lastStepClock == LastClock(produced)
      && (sdir == None ==> queue == [])
      && Pending(queue, asked, |produced|, lastStepClock, sdir.Some? && sdir.value)
      && (forall i :: 0 <= i < |asked| ==> 0 < asked[i].clock < UINT64_MAX)
    }

    // An mcu that executes the commands makes exactly the produced steps.
    ghost predicate McuOk()
      reads `msgQueue, `produced, `lastStepClock, `sdir
    {
      var mcu := McuRun(MCU_START, msgQueue);
      && mcu.steps == OnTimer(produced, invertSdir) && mcu.time == lastStepClock % TWO32
      && (sdir.Some? ==> mcu.pin == (sdir.value != invertSdir))
      && lastStepClock == LastClock(produced) && ClocksOk(msgQueue, produced)
    }

    ghost predicate HistoryOk()
      reads `lastPosition, `produced, `history, `lastStepClock, `expired
    {
      && lastPosition == Net(produced)
      && Contiguous(history, lastPosition)
      && (history != [] ==> history[0].lastClock <= lastStepClock)
      && forall c :: c >= expired ==> HistAfter(history, c) == NetAfter(produced, c)
    }

    ghost predicate FilterOk()
      reads `nextStepClock, `nextStepDir, `asked, `requested, `lastStepClock
    {
      && (nextStepClock != 0 ==> LastClock(asked) < nextStepClock < UINT64_MAX)
      && 0 <= LastClock(asked) && lastStepClock <= LastClock(asked)
      && Net(requested) == Net(asked) + if nextStepClock != 0 then Sign(nextStepDir) else 0
    }

    ghost predicate Valid()
      reads this
    {
      QueueOk() && McuOk() && HistoryOk() && FilterOk()
    }

    // stepcompress_alloc, with the clock starting at zero
    constructor (maxError: nat, invertSdir: bool)
      ensures Valid() && requested == [] && msgQueue == [] && history == []
    {
      this.maxError, this.invertSdir := maxError, invertSdir;
      queue, lastStepClock, sdir, nextStepClock, nextStepDir := [], 0, None, 0, false;
      msgQueue, lastPosition, history := [], 0, [];
      requested, asked, produced, expired := [], [], [], 0;
    }

    // add_move
    method AddMove(firstClock: int, m: StepMove)
      requires sdir.Some? && McuOk() && HistoryOk()
      requires m.count > 0 && RecordOk(Record(firstClock, m, lastPosition, sdir.value))
      requires lastStepClock < firstClock && m.interval % TWO32 == (firstClock - lastStepClock) % TWO32
      modifies this`msgQueue, this`lastStepClock, this`lastPosition, this`history, this`produced
      ensures McuOk() && HistoryOk()
      ensures produced == old(produced) + StepsOf(old(Record(firstClock, m, lastPosition, sdir.value)), m.count)
      ensures lastStepClock == firstClock + (At(m.interval, m.add, m.count) - m.interval)
      ensures msgQueue == old(msgQueue) + [QueueStep(m.interval, m.count, m.add, old(lastStepClock),
        if m.count == 1 && firstClock >= old(lastStepClock) + CLOCK_DIFF_MAX then firstClock else old(lastStepClock))]
      ensures history == [old(Record(firstClock, m, lastPosition, sdir.value))] + old(history)
    {
      hide McuRun, Contiguous, HistAfter, NetAfter, Net, StepsOf, OnTimer, At, RecordOk, ClocksOk, LastClock;
      ghost var h := Record(firstClock, m, lastPosition, sdir.value);
      var ticks := At(m.interval, m.add, m.count) - m.interval;
      var reqClock := lastStepClock;
      if m.count == 1 && firstClock >= lastStepClock + CLOCK_DIFF_MAX {
        reqClock := firstClock;
      }
      var msg := QueueStep(m.interval, m.count, m.add, lastStepClock, reqClock);
      McuGrows(msgQueue, produced, lastStepClock, firstClock, m, lastPosition, sdir.value, invertSdir,
               lastStepClock, reqClock);
      HistoryGrows(history, lastPosition, produced, expired, h);
      RecordClocks(produced, firstClock, m, lastPosition, sdir.value);
      ClocksGrow(msgQueue, produced, msg, StepsOf(h, m.count));
      FirstBeforeLast(h);
      msgQueue := msgQueue + [msg];
      lastStepClock := firstClock + ticks;
      var stepCount := if sdir.value then m.count else -m.count;
      var hs := History(firstClock, lastStepClock, lastPosition, stepCount, m.interval, m.add);
      lastPosition := lastPosition + stepCount;
      history := [hs] + history;
      produced := produced + StepsOf(h, m.count);
    }

    // One round of queue_flush: compress the head of the queue into one command.  The result
    // tells whether check_line accepted it: it always does.
    method FlushOne() returns (ok: bool)
      requires QueueOk() && McuOk() && HistoryOk() && queue != []
      modifies this`queue, this`msgQueue, this`lastStepClock, this`lastPosition, this`history, this`produced
      ensures ok && QueueOk() && McuOk() && HistoryOk()
      ensures |queue| < |old(queue)|
      ensures old(lastStepClock) < lastStepClock && old(msgQueue) <= msgQueue
      ensures |msgQueue| == |old(msgQueue)| + 1 && MadeFrom(msgQueue[|old(msgQueue)|], old(lastStepClock))
    {
      hide At, LineOk, Rising, Emit, Increasing, Faithful, Pending, StepsOf, RecordOk, McuOk, HistoryOk, NetAfter;
      hide Searched, Ended, NearlyBest, BeatsConstant, IntervalOk;
      var pts := Points(queue, lastStepClock);
      PointsExact(queue, asked, |produced|, lastStepClock, sdir.value);
      var m, _ := CompressBisectAdd(pts, maxError);
      LineCount(pts, maxError, m);
      ok := CheckLine(pts, maxError, m);
      ghost var h := Record(lastStepClock + m.interval, m, lastPosition, sdir.value);
      EmitAll(queue, asked, produced, lastStepClock, sdir.value, maxError, m);
      RecordOfLine(pts, maxError, lastStepClock, m, lastPosition, sdir.value);
      AddMove(lastStepClock + m.interval, m);
      queue := queue[m.count..];
    }

    // queue_flush
    method QueueFlush(moveClock: int) returns (ok: bool)
      requires QueueOk() && McuOk() && HistoryOk()
      modifies this`queue, this`msgQueue, this`lastStepClock, this`lastPosition, this`history, this`produced
      ensures ok && QueueOk() && McuOk() && HistoryOk()
      ensures queue == [] || lastStepClock >= moveClock
      ensures old(lastStepClock) <= lastStepClock && old(msgQueue) <= msgQueue
      ensures forall i :: |old(msgQueue)| <= i < |msgQueue| ==> MadeBefore(msgQueue[i], moveClock)
    {
      hide QueueOk, McuOk, HistoryOk;
      ok := true;
      if |queue| == 0 {
        return;
      }
      while lastStepClock < moveClock
        invariant QueueOk() && McuOk() && HistoryOk() && queue != []
        invariant old(lastStepClock) <= lastStepClock && old(msgQueue) <= msgQueue && ok
        invariant forall i :: |old(msgQueue)| <= i < |msgQueue| ==> MadeBefore(msgQueue[i], moveClock)
        decreases |queue|
      {
        ok := FlushOne();
        if !ok {
          return;
        }
        if |queue| == 0 {
          break;
        }
      }
    }

    // set_next_step_dir
    method SetNextDir(dir: bool) returns (ok: bool)
      requires QueueOk() && McuOk() && HistoryOk()
      modifies this`queue, this`msgQueue, this`lastStepClock, this`lastPosition, this`history, this`produced, this`sdir
      ensures ok && QueueOk() && McuOk() && HistoryOk() && sdir == Some(dir)
      ensures old(lastStepClock) <= lastStepClock && old(msgQueue) <= msgQueue
      ensures old(sdir) == Some(dir) ==> unchanged(this)
      ensures old(sdir) != Some(dir) ==>
        && |msgQueue| > |old(msgQueue)| && queue == []
        && msgQueue[|msgQueue| - 1] == SetNextStepDir(dir != invertSdir, lastStepClock)
        && forall i :: |old(msgQueue)| <= i < |msgQueue| - 1 ==> MadeBefore(msgQueue[i], UINT64_MAX)
    {
      hide HistoryOk, McuOk, Increasing, Faithful;
      ok := true;
      if sdir == Some(dir) {
        return;
      }
      ok := QueueFlush(UINT64_MAX);
      if !ok {
        return;
      }
      LastStepBounded();
      SendDirection(dir);
    }

    // The direction command itself, once nothing is queued.
    method SendDirection(dir: bool)
      requires QueueOk() && McuOk() && HistoryOk() && queue == []
      modifies this`msgQueue, this`sdir
      ensures QueueOk() && McuOk() && HistoryOk() && sdir == Some(dir)
      ensures msgQueue == old(msgQueue) + [SetNextStepDir(dir != invertSdir, lastStepClock)]
    {
      hide HistoryOk, Increasing, Faithful, OnTimer, McuRun, ClocksOk;
      var msg := SetNextStepDir(dir != invertSdir, lastStepClock);
      McuRunAppend(MCU_START, msgQueue, msg);
      assert produced[..|produced|] == produced && produced + [] == produced;
      ClocksGrow(msgQueue, produced, msg, []);
      sdir := Some(dir);
      msgQueue := msgQueue + [msg];
    }

    lemma LastStepBounded()
      requires QueueOk()
      ensures lastStepClock < UINT64_MAX
    {
      if produced != [] {
        assert asked[|produced| - 1].clock < UINT64_MAX;
      }
    }

    // Store one entry in the 32-bit queue.
    method Push(clock: int)
      requires QueueOk() && McuOk() && HistoryOk() && sdir.Some?
      requires LastClock(asked) < clock < UINT64_MAX && 0 < clock
      requires lastStepClock < clock < lastStepClock + CLOCK_DIFF_MAX
      modifies this`queue, this`asked
      ensures QueueOk() && McuOk() && HistoryOk() && |queue| == |old(queue)| + 1
      ensures asked == old(asked) + [Step(clock, sdir.value)]
    {
      hide McuOk, HistoryOk;
      PushPending(queue, asked, |produced|, lastStepClock, sdir.value, clock, produced, maxError);
      asked := asked + [Step(clock, sdir.value)];
      queue := queue + [clock % TWO32];
    }

    // stepcompress_flush_far: a step beyond the range of the queue, after all queued steps.
    method FlushFar(clock: int)
      requires QueueOk() && McuOk() && HistoryOk() && sdir.Some? && queue == []
      requires LastClock(asked) < clock < UINT64_MAX && 0 < clock && lastStepClock < clock
      modifies this`msgQueue, this`lastStepClock, this`lastPosition, this`history, this`produced, this`asked
      ensures QueueOk() && McuOk() && HistoryOk()
      ensures asked == old(asked) + [Step(clock, sdir.value)]
      ensures lastStepClock == clock && old(msgQueue) <= msgQueue
    {
      hide McuRun, HistAfter, Contiguous, Net, NetAfter, McuOk, HistoryOk;
      hide At, Increasing, Faithful, LastClock, RecordOk, StepsOf;
      var m := StepMove((clock - lastStepClock) % TWO32, 1, 0);
      FarRecord(clock, m, lastPosition, sdir.value);
      FarFaithful(asked, produced, lastStepClock, maxError, clock, sdir.value);
      asked := asked + [Step(clock, sdir.value)];
      AddMove(clock, m);
    }

    // queue_append_far: the next step is CLOCK_DIFF_MAX or more after the last one.
    method QueueAppendFar() returns (ok: bool)
      requires Valid() && sdir.Some? && sdir.value == nextStepDir && nextStepClock != 0
      modifies this
      ensures ok && Valid() && sdir == old(sdir) && nextStepClock == 0
      ensures asked == old(asked) + [Step(old(nextStepClock), sdir.value)]
      ensures requested == old(requested) && old(msgQueue) <= msgQueue && expired == old(expired)
    {
      hide QueueOk, McuOk, HistoryOk, Net, NetAfter;
      var stepClock := nextStepClock;
      nextStepClock := 0;
      LastNotAhead();
      ok := QueueFlush(stepClock - CLOCK_DIFF_MAX + 1);
      if !ok {
        return;
      }
      LastNotAhead();
      AppendAsked(asked, Step(stepClock, sdir.value));
      if stepClock >= lastStepClock + CLOCK_DIFF_MAX {
        FlushFar(stepClock);
        return;
      }
      Push(stepClock);
    }

    // queue_append_extend: the buffer is full.
    method QueueAppendExtend() returns (ok: bool)
      requires Valid() && sdir.Some? && sdir.value == nextStepDir && nextStepClock != 0
      requires nextStepClock < lastStepClock + CLOCK_DIFF_MAX
      modifies this
      ensures ok && Valid() && sdir == old(sdir) && nextStepClock == 0
      ensures asked == old(asked) + [Step(old(nextStepClock), sdir.value)]
      ensures requested == old(requested) && old(msgQueue) <= msgQueue && expired == old(expired)
      ensures |queue| <= if |old(queue)| > 65535 + 2000 then 65535 else |old(queue)| + 1
    {
      hide QueueOk, McuOk, HistoryOk, Net, NetAfter;
      ok := true;
      if |queue| > 65535 + 2000 {
        var flush := (queue[|queue| - 65535] - lastStepClock) % TWO32;
        EntryIs(|queue| - 65535);
        ok := QueueFlush(lastStepClock + flush);
        if !ok {
          return;
        }
        FewLeft(|asked| - 65535);
      }
      LastNotAhead();
      AppendAsked(asked, Step(nextStepClock, sdir.value));
      Push(nextStepClock);
      nextStepClock := 0;
    }

    // The clock of a queue entry, from its low 32 bits.
    lemma EntryIs(k: nat)
      requires QueueOk() && k < |queue|
      ensures |produced| + |queue| == |asked|
      ensures lastStepClock + (queue[k] - lastStepClock) % TWO32 == asked[|produced| + k].clock
    {
      hide Increasing, Faithful;
      assert Holds(queue[k], asked[|produced| + k], lastStepClock, sdir.value);
      ModSub(asked[|produced| + k].clock, lastStepClock);
    }

    // Once the last step is not before a step that was asked for, only later ones are queued.
    lemma FewLeft(j: nat)
      requires QueueOk() && j < |asked| && (queue == [] || lastStepClock >= asked[j].clock)
      ensures queue == [] || |queue| < |asked| - j
    {
      if queue != [] {
        EntryIs(0);
        assert asked[j].clock > 0;
      }
    }

    // queue_append; `full` tells whether the queue's buffer has no room left.
    method QueueAppend(full: bool) returns (ok: bool)
      requires Valid() && nextStepClock != 0
      modifies this
      ensures ok && Valid() && sdir == Some(old(nextStepDir)) && nextStepClock == 0
      ensures asked == old(asked) + [Step(old(nextStepClock), old(nextStepDir))]
      ensures requested == old(requested) && old(msgQueue) <= msgQueue && expired == old(expired)
    {
      hide QueueOk, McuOk, HistoryOk, Net, NetAfter;
      ok := true;
      if sdir != Some(nextStepDir) {
        ok := SetNextDir(nextStepDir);
        if !ok {
          return;
        }
        LastNotAhead();
      }
      if nextStepClock >= lastStepClock + CLOCK_DIFF_MAX {
        ok := QueueAppendFar();
        return;
      }
      if full {
        ok := QueueAppendExtend();
        return;
      }
      LastNotAhead();
      AppendAsked(asked, Step(nextStepClock, sdir.value));
      Push(nextStepClock);
      nextStepClock := 0;
    }

    lemma LastNotAhead()
      requires QueueOk()
      ensures lastStepClock <= IMax(0, LastClock(asked))
    {
      if produced != [] {
        assert produced[|produced| - 1].clock <= asked[|produced| - 1].clock;
        assert |produced| < |asked| ==> asked[|produced| - 1].clock < asked[|asked| - 1].clock;
      }
    }

    // stepcompress_append.  The caller's step times increase; sdsTicks is the filter time.
    method Append(dir: bool, stepClock: int, sdsTicks: int, full: bool) returns (ok: bool)
      requires Valid() && 0 < stepClock < UINT64_MAX
      requires LastClock(asked) < stepClock && nextStepClock < stepClock
      modifies this
      ensures ok && Valid() && requested == old(requested) + [Step(stepClock, dir)]
      ensures old(asked) <= asked && old(msgQueue) <= msgQueue && expired == old(expired)
      ensures old(nextStepClock) != 0 && dir != old(nextStepDir) && stepClock - old(nextStepClock) < sdsTicks
        ==> asked == old(asked) && msgQueue == old(msgQueue) && nextStepClock == 0
      ensures !(old(nextStepClock) != 0 && dir != old(nextStepDir) && stepClock - old(nextStepClock) < sdsTicks)
        ==> nextStepClock == stepClock && nextStepDir == dir
            && asked == old(asked)
                 + if old(nextStepClock) != 0 then [Step(old(nextStepClock), old(nextStepDir))] else []
    {
      hide QueueOk, McuOk, HistoryOk, Net, NetAfter;
      ok := true;
      AppendRequested(requested, Step(stepClock, dir));
      requested := requested + [Step(stepClock, dir)];
      if nextStepClock != 0 {
        if dir != nextStepDir {
          var diff := stepClock - nextStepClock;
          if diff < sdsTicks {
            nextStepClock := 0;
            nextStepDir := dir;
            return;
          }
        }
        requested := requested[..|requested| - 1];
        ok := QueueAppend(full);
        requested := requested + [Step(stepClock, dir)];
      }
      nextStepClock := stepClock;
      nextStepDir := dir;
    }

    // stepcompress_flush
    method Flush(moveClock: int, full: bool) returns (ok: bool)
      requires Valid()
      modifies this
      ensures ok && Valid() && requested == old(requested) && old(msgQueue) <= msgQueue
      ensures (queue == [] || lastStepClock >= moveClock) && (nextStepClock == 0 || nextStepClock > moveClock)
      ensures if 0 != old(nextStepClock) <= moveClock
        then nextStepClock == 0 && asked == old(asked) + [Step(old(nextStepClock), old(nextStepDir))]
        else nextStepClock == old(nextStepClock) && nextStepDir == old(nextStepDir) && asked == old(asked)
      ensures moveClock >= UINT64_MAX ==> queue == [] && nextStepClock == 0 && |produced| == |asked|
      ensures old(asked) <= asked && expired == old(expired)
    {
      hide QueueOk, McuOk, HistoryOk, Net, NetAfter;
      ok := true;
      if nextStepClock != 0 && moveClock >= nextStepClock {
        ok := QueueAppend(full);
        if !ok {
          return;
        }
      }
      ok := QueueFlush(moveClock);
      LastStepBounded();
      LastNotAhead();
      EmptyQueue();
    }

    // An empty queue means that everything asked for was produced.
    lemma EmptyQueue()
      requires QueueOk()
      ensures queue == [] ==> |produced| == |asked|
    {
    }

    // stepcompress_history_expire
    method HistoryExpire(endClock: int)
      requires Valid()
      modifies this`history, this`expired
      ensures Valid() && expired == IMax(old(expired), endClock) && history <= old(history)
      ensures history != [] ==> history[|history| - 1].lastClock > endClock
      ensures forall i :: |history| <= i < |old(history)| ==> old(history)[i].lastClock <= endClock
    {
      hide QueueOk, McuOk, FilterOk, Net, NetAfter, Contiguous, HistAfter;
      var kept := FreeHistory(history, lastPosition, endClock);
      forall c | c >= IMax(expired, endClock) ensures HistAfter(kept, c) == NetAfter(produced, c) {
        assert PositionAt(kept, lastPosition, c) == PositionAt(history, lastPosition, c);
      }
      history := kept;
      expired := IMax(expired, endClock);
    }

    // stepcompress_find_past_position: the net number of produced steps up to the clock.
    method PastPosition(clock: int, sqrt: real -> real) returns (position: int)
      requires Valid() && IsSqrt(sqrt) && clock >= expired
      ensures position == NetUpTo(produced, clock)
    {
      position := FindPastPosition(history, lastPosition, clock, sqrt);
      NetSplit(produced, clock);
    }
  }
}
