/**
 The class ToolHead of toolhead.py, as far as it keeps times.  Every method is proved to compute the
 function of ToolTimes that describes it, and keeps what is proved there.
 */
module ToolHead {
  import opened Basics
  import opened ToolTimes

  // times.pop(times.index(t))
  method PopTime(times: seq<real>, t: real) returns (rest: seq<real>)
    requires t in times
    ensures rest == PopFirst(times, t)
  {
    hide IndexOf;
    var i := 0;
    while times[i] != t
      invariant i < |times| && t in times[i..] && t !in times[..i]
      decreases |times| - i
    {
      i := i + 1;
    }
    IndexIs(times, t, i);
    rest := times[..i] + times[i+1..];
  }

  // max(times + [SDS_CHECK_TIME])
  method LongestTime(times: seq<real>) returns (t: real)
    ensures t == Longest(times)
  {
    t := SDS_CHECK_TIME;
    for i := 0 to |times|
      invariant t == Longest(times[..i])
    {
      assert times[..i+1][..i] == times[..i];
      t := RMax(t, times[i]);
    }
    assert times[..|times|] == times;
  }

  class ToolHead {
    var printTime: real
    var state: State
    var lastFlushTime: real
    var minRestartTime: real
    var needFlushTime: real
    var stepGenTime: real
    var kinFlushDelay: real
    var kinFlushTimes: seq<real>
    var canPause: bool
    var doKickFlushTimer: bool
    var queue: seq<Timed>  // the look-ahead queue, planned
    ghost var generated: real  // steps have been generated up to here
    ghost var flushes: seq<real>  // the times of all flushes
    ghost var spans: seq<Span>  // what is in the trapezoid queue, or has been

    ghost function View(): Times
      reads this
    {
      Times(printTime, state, lastFlushTime, minRestartTime, needFlushTime, stepGenTime, kinFlushDelay, kinFlushTimes,
            canPause, doKickFlushTimer, queue, generated, spans)
    }

    ghost predicate Valid()
      reads this
    {
      Ok(View())
    }

    constructor ()
      ensures Valid() && flushes == []
      ensures View() == Times(0.0, NeedPrime, 0.0, 0.0, 0.0, 0.0, SDS_CHECK_TIME, [], true, true, [], 0.0, [])
    {
      printTime, state := 0.0, NeedPrime;
      lastFlushTime, minRestartTime, needFlushTime, stepGenTime := 0.0, 0.0, 0.0, 0.0;
      kinFlushDelay, kinFlushTimes := SDS_CHECK_TIME, [];
      canPause, doKickFlushTimer := true, true;
      queue, spans, flushes := [], [], [];
      generated := 0.0;
    }

    // _advance_flush_time
    method AdvanceFlushTime(flushTime0: real)
      modifies `lastFlushTime, `minRestartTime, `generated, `flushes
      ensures View() == FlushTo(old(View()), flushTime0) && flushes == old(flushes) + [lastFlushTime]
    {
      var flushTime := RMax(flushTime0, lastFlushTime);
      var sgFlushWant := RMin(flushTime + STEPCOMPRESS_FLUSH_TIME, printTime - kinFlushDelay);
      var sgFlushTime := RMax(sgFlushWant, flushTime);
      generated := RMax(generated, sgFlushTime);
      minRestartTime := RMax(minRestartTime, sgFlushTime);
      lastFlushTime := flushTime;
      flushes := flushes + [flushTime];
    }

    // Where the flushes of _advance_move_time start.
    ghost function FlushStart(): real
      reads `lastFlushTime, `printTime, `kinFlushDelay
    {
      RMax(lastFlushTime, printTime - (kinFlushDelay + STEPCOMPRESS_FLUSH_TIME))
    }

    // _advance_move_time: everything behind print time is flushed, one batch after the other.
    method AdvanceMoveTime(nextPrintTime: real)
      modifies `printTime, `lastFlushTime, `minRestartTime, `generated, `flushes
      ensures View() == MoveTo(old(View()), nextPrintTime)
      ensures old(flushes) < flushes && flushes[|flushes| - 1] == lastFlushTime
      ensures InBatches(old(FlushStart()), flushes[|old(flushes)|..])
    {
      hide InBatches, Before, FlushTo, MoveTo;
      ghost var t := View();
      var ptDelay := kinFlushDelay + STEPCOMPRESS_FLUSH_TIME;
      var flushTime := RMax(lastFlushTime, printTime - ptDelay);
      printTime := RMax(printTime, nextPrintTime);
      var wantFlushTime := RMax(flushTime, printTime - ptDelay);
      var done := false;
      ghost var batches: seq<real> := [];
      NoBatch(flushTime);
      ghost var u := View();
      MoveIsFlush(t, nextPrintTime, wantFlushTime);
      while !done
        invariant flushes == old(flushes) + batches && InBatches(old(FlushStart()), batches) && (done ==> batches != [])
        invariant flushTime == Before(old(FlushStart()), batches, |batches|)
        invariant batches != [] ==> lastFlushTime == flushTime == batches[|batches| - 1]
        invariant u.lastFlushTime <= flushTime <= wantFlushTime && (done ==> flushTime == wantFlushTime)
        invariant View() == if batches == [] then u else FlushTo(u, flushTime)
        decreases !done, ((wantFlushTime - flushTime) * 2.0).Floor
      {
        ghost var before := flushTime;
        flushTime := RMin(flushTime + MOVE_BATCH_TIME, wantFlushTime);
        AdvanceFlushTime(flushTime);
        FlushTwice(u, before, flushTime);
        FlushReaches(u, flushTime);
        BatchAppend(old(FlushStart()), batches, flushTime);
        batches := batches + [flushTime];
        done := flushTime >= wantFlushTime;
      }
    }

    // _calc_print_time
    method CalcPrintTime(estPrintTime: real)
      modifies `printTime
      ensures View() == Synced(old(View()), estPrintTime)
    {
      var kinTime := RMax(estPrintTime + MIN_KIN_TIME, minRestartTime);
      kinTime := kinTime + kinFlushDelay;
      var minPrintTime := RMax(estPrintTime + BUFFER_TIME_START, kinTime);
      if minPrintTime > printTime {
        printTime := minPrintTime;
      }
    }

    // trapq_append: only ever called for time that no step generation has touched.
    method TrapqAppend(start: real, m: Timed)
      requires start >= minRestartTime + kinFlushDelay
      requires start >= generated + kinFlushDelay
      requires AllTimed([m])
      modifies `spans
      ensures spans == old(spans) + [Span(start, start + Duration(m))]
    {
      spans := spans + [Span(start, start + Duration(m))];
    }

    // note_mcu_movequeue_activity
    method NoteMovequeueActivity(mqTime: real, setStepGenTime: bool)
      modifies `needFlushTime, `stepGenTime, `doKickFlushTimer
      ensures View() == Noted(old(View()), mqTime, setStepGenTime)
    {
      needFlushTime := RMax(needFlushTime, mqTime);
      if setStepGenTime {
        stepGenTime := RMax(stepGenTime, mqTime);
      }
      doKickFlushTimer := false;
    }

    // _update_drip_move_time; when the readings run out, the move counts as told to end.
    method UpdateDripMoveTime(nextPrintTime: real, readings: seq<Reading>) returns (aborted: bool)
      modifies `printTime, `lastFlushTime, `minRestartTime, `generated, `needFlushTime, `stepGenTime,
        `doKickFlushTimer, `flushes
      ensures (View(), aborted) == Dripped(old(View()), nextPrintTime, readings)
    {
      hide MoveTo, InBatches;
      var flushDelay := DRIP_TIME + STEPCOMPRESS_FLUSH_TIME + kinFlushDelay;
      var i := 0;
      while printTime < nextPrintTime
        invariant i <= |readings|
        invariant Dripped(View(), nextPrintTime, readings[i..]) == Dripped(old(View()), nextPrintTime, readings)
        decreases |readings| - i
      {
        if i == |readings| || readings[i].ended {
          return true;
        }
        assert readings[i..][0] == readings[i] && readings[i..][1..] == readings[i+1..];
        var estPrintTime := readings[i].estPrintTime;
        i := i + 1;
        var waitTime := printTime - estPrintTime - flushDelay;
        if waitTime > 0.0 && canPause {
          continue;
        }
        var npt := RMin(printTime + DRIP_SEGMENT_TIME, nextPrintTime);
        NoteMovequeueActivity(npt + kinFlushDelay, true);
        AdvanceMoveTime(npt);
      }
      aborted := false;
    }

    // The part of _process_moves that queues the moves.
    method QueueMoves(moves: seq<Timed>) returns (nextMoveTime: real)
      requires AllTimed(moves) && generated <= minRestartTime && printTime >= minRestartTime + kinFlushDelay
      modifies `spans
      ensures nextMoveTime == EndOf(printTime, moves) && spans == old(spans) + SpansOf(printTime, moves)
    {
      nextMoveTime := printTime;
      var i := 0;
      assert moves[..0] == [];
      while i < |moves|
        invariant i <= |moves| && printTime <= nextMoveTime == EndOf(printTime, moves[..i])
        invariant spans == old(spans) + SpansOf(printTime, moves[..i])
      {
        var m := moves[i];
        assert m in moves && moves[..i+1][..i] == moves[..i];
        if m.isKinematic {
          TrapqAppend(nextMoveTime, m);
        }
        nextMoveTime := nextMoveTime + m.accelT + m.cruiseT + m.decelT;
        i := i + 1;
      }
      assert moves[..|moves|] == moves;
    }

    // The part of _process_moves that resynchronises, unless in the main state.
    method Resume(estPrintTime: real)
      requires TimesOk(View())
      modifies `state, `printTime
      ensures View() == Resumed(old(View()), estPrintTime)
      ensures generated <= minRestartTime && printTime >= minRestartTime + kinFlushDelay
    {
      if state != Main {
        if state != Drip {
          state := Main;
        }
        CalcPrintTime(estPrintTime);
      }
    }

    // _process_moves
    method ProcessMoves(moves: seq<Timed>, estPrintTime: real, readings: seq<Reading>) returns (aborted: bool)
      requires TimesOk(View()) && AllTimed(moves)
      modifies `state, `printTime, `lastFlushTime, `minRestartTime, `generated, `needFlushTime, `stepGenTime,
        `doKickFlushTimer, `flushes, `spans
      ensures (View(), aborted) == Processed(old(View()), moves, estPrintTime, readings)
    {
      hide Dripped, MoveTo, EndOf, SpansOf, InBatches, Resumed;
      aborted := false;
      Resume(estPrintTime);
      var nextMoveTime := QueueMoves(moves);
      assert View() == Queued(old(View()), moves, estPrintTime);
      hide Queued, Noted;
      if state != Main {
        aborted := UpdateDripMoveTime(nextMoveTime, readings);
        if aborted {
          return;
        }
      }
      NoteMovequeueActivity(nextMoveTime + kinFlushDelay, true);
      AdvanceMoveTime(nextMoveTime);
    }

    // LookAheadQueue.flush, as far as the toolhead sees it: everything planned is handed out.
    method LookaheadFlush(estPrintTime: real)
      requires Valid()
      modifies this
      ensures Valid() && View() == HandedOut(old(View()), estPrintTime)
    {
      hide Ok, Processed;
      HandedOutKeeps(View(), estPrintTime);
      MayProcess(View(), queue, []);
      if queue != [] {
        var moves := queue;
        queue := [];
        var _ := ProcessMoves(moves, estPrintTime, []);
      }
    }

    // LookAheadQueue.add_move with the lazy flush it may cause: the first n moves are handed out.
    method AddMove(m: Timed, n: nat, estPrintTime: real)
      requires Valid() && AllTimed([m]) && n <= |queue|
      modifies this
      ensures Valid() && View() == Added(old(View()), m, n, estPrintTime)
    {
      hide Ok, Processed, TimesOk, AllTimed;
      ghost var t := View();
      AddedIsOk(t, m, n, estPrintTime);
      var moves := queue[..n];
      MayProcess(t, moves, queue[n..] + [m]);
      queue := queue[n..] + [m];
      assert View() == t.(queue := t.queue[n..] + [m]);
      if n > 0 {
        var _ := ProcessMoves(moves, estPrintTime, []);
      }
    }

    // _flush_lookahead
    method FlushLookahead(estPrintTime: real)
      requires Valid()
      modifies this
      ensures Valid() && View() == Emptied(old(View()), estPrintTime)
    {
      hide Ok, HandedOut;
      EmptiedKeeps(View(), estPrintTime);
      LookaheadFlush(estPrintTime);
      state := NeedPrime;
    }

    // flush_step_generation
    method FlushStepGeneration(estPrintTime: real)
      requires Valid()
      modifies this
      ensures Valid() && View() == StepsFlushed(old(View()), estPrintTime)
    {
      hide Ok, Emptied, FlushTo;
      StepsFlushedKeeps(View(), estPrintTime);
      FlushLookahead(estPrintTime);
      AdvanceFlushTime(stepGenTime);
      minRestartTime := RMax(minRestartTime, printTime);
    }

    // get_last_move_time, which may read the clock twice.
    method GetLastMoveTime(estPrintTime: real, estLater: real) returns (t: real)
      requires Valid()
      modifies this
      ensures Valid() && View() == Asked(old(View()), estPrintTime, estLater) && t == printTime
    {
      hide Ok, Emptied, HandedOut, Synced;
      AskedKeeps(View(), estPrintTime, estLater);
      if state != Main {
        FlushLookahead(estPrintTime);
        CalcPrintTime(estLater);
      } else {
        LookaheadFlush(estPrintTime);
      }
      t := printTime;
    }

    // dwell, up to the pause check.
    method Dwell(delay: real, estPrintTime: real, estLater: real)
      requires Valid()
      modifies this
      ensures Valid() && View() == Dwelt(old(View()), delay, estPrintTime, estLater)
    {
      hide Ok, Asked, MoveTo, InBatches;
      DweltKeeps(View(), delay, estPrintTime, estLater);
      var t := GetLastMoveTime(estPrintTime, estLater);
      AdvanceMoveTime(t + RMax(0.0, delay));
    }

    // What _check_pause does to the state.
    method CheckPause()
      requires Valid()
      modifies `state
      ensures Valid() && View() == Paused(old(View()))
    {
      hide Ok;
      PausedKeeps(View());
      if state != Main {
        state := Priming;
      }
    }

    // _priming_handler
    method PrimingHandler(estPrintTime: real)
      requires Valid()
      modifies this
      ensures Valid() && View() == Primed(old(View()), estPrintTime)
    {
      hide Ok, Emptied;
      if state == Priming {
        FlushLookahead(estPrintTime);
      }
    }

    // _flush_handler; the result is the delay to the next call, None for never.  The timer is off
    // during a drip move.
    method FlushHandler(estPrintTime: real) returns (delay: Option<real>)
      requires Valid()
      modifies this
      ensures Valid() && View() == Handled(old(View()), estPrintTime) && delay == NextCall(View(), estPrintTime)
    {
      hide Ok, Emptied, FlushTo;
      ghost var t := View();
      HandledKeeps(t, estPrintTime);
      if state == Main {
        var bufferTime := printTime - estPrintTime;
        if bufferTime > BUFFER_TIME_LOW {
          return Some(bufferTime - BUFFER_TIME_LOW);
        }
        FlushLookahead(estPrintTime);
        EmptiedKeeps(t, estPrintTime);
      }
      var endFlush := needFlushTime + BGFLUSH_EXTRA_TIME;
      while true
        invariant endFlush == needFlushTime + BGFLUSH_EXTRA_TIME && state != Main
        invariant FlushedOn(View(), estPrintTime) == Handled(t, estPrintTime)
        decreases lastFlushTime < endFlush && lastFlushTime - estPrintTime <= BGFLUSH_LOW_TIME
      {
        if lastFlushTime >= endFlush {
          doKickFlushTimer := true;
          return None;
        }
        var bufferTime := lastFlushTime - estPrintTime;
        if bufferTime > BGFLUSH_LOW_TIME {
          return Some(bufferTime - BGFLUSH_LOW_TIME);
        }
        var ftime := estPrintTime + BGFLUSH_LOW_TIME + BGFLUSH_BATCH_TIME;
        FlushReaches(View(), RMin(endFlush, ftime));
        AdvanceFlushTime(RMin(endFlush, ftime));
      }
    }

    // note_step_generation_scan_time
    method NoteStepGenerationScanTime(delay: real, oldDelay: real, estPrintTime: real)
      requires Valid() && (oldDelay != 0.0 ==> oldDelay in kinFlushTimes)
      modifies this
      ensures Valid() && View() == Rescanned(old(View()), delay, oldDelay, estPrintTime)
    {
      hide Ok, StepsFlushed, PopFirst, Longest, QueuedFrom, StartOf, EndOf, Forward, AllGenerated;
      RescannedKeeps(View(), delay, oldDelay, estPrintTime);
      StepsFlushedKeeps(View(), estPrintTime);
      FlushStepGeneration(estPrintTime);
      if oldDelay != 0.0 {
        kinFlushTimes := PopTime(kinFlushTimes, oldDelay);
      }
      if delay != 0.0 {
        kinFlushTimes := kinFlushTimes + [delay];
      }
      kinFlushDelay := LongestTime(kinFlushTimes);
    }

    // The middle of drip_move: the move is sent out slowly; if it ends early, what is left of it is
    // thrown away.
    method TransmitDrip(m: Timed, estPrintTime: real, readings: seq<Reading>) returns (completed: bool)
      requires Valid() && AllTimed([m])
      modifies this
      ensures Valid() && (View(), completed) == Transmitted(old(View()), m, estPrintTime, readings)
    {
      TransmittedKeeps(View(), m, estPrintTime, readings);
      MayProcess(View(), [], queue);
      hide Ok, Processed;
      state := Drip;
      var aborted := ProcessMoves([m], estPrintTime, readings);
      completed := !aborted;
      if aborted {
        spans := [];
      }
      state := NeedPrime;
    }

    // drip_move: the move may be refused, and it may be ended while it is sent.  After it the queue is
    // empty, so that flushing it once more only sets the state.
    method DripMove(m: Timed, accepted: bool, readings: seq<Reading>, est: real, estLater: real)
      returns (completed: bool)
      requires Valid() && AllTimed([m])
      modifies this
      ensures Valid() && (View(), completed) == Homed(old(View()), m, accepted, readings, est, estLater)
    {
      hide Ok, Dwelt, HandedOut, Transmitted, StepsFlushed, AllTimed;
      Dwell(kinFlushDelay, est, estLater);
      CheckPause();
      LookaheadFlush(est);
      KickKeeps(View());
      doKickFlushTimer := false;
      completed := false;
      if accepted {
        completed := TransmitDrip(m, estLater, readings);
      }
      FlushStepGeneration(estLater);
    }

    // Any run of operations, with any readings of the clock.
    method Run(ops: seq<Op>)
      requires Valid() && forall op :: op in ops ==> OpOk(op)
      modifies this
      ensures Valid() && View() == AfterAll(old(View()), ops)
    {
      hide Ok, OpOk, Operated;
      assert ops[..0] == [];
      for i := 0 to |ops|
        invariant Valid() && View() == AfterAll(old(View()), ops[..i])
      {
        assert ops[i] in ops && ops[..i+1][..i] == ops[..i];
        Operate(ops[i]);
      }
      assert ops[..|ops|] == ops;
    }

    method Operate(op: Op)
      requires Valid() && OpOk(op)
      modifies this
      ensures Valid() && View() == Operated(old(View()), op)
    {
      hide Ok, Added, Asked, Dwelt, Emptied, Handled, StepsFlushed, Homed, Rescanned, Noted, AllTimed;
      match op {
        case Add(m, n, est) => AddMove(m, if n <= |queue| then n else |queue|, est);
        case Last(est, later) => var _ := GetLastMoveTime(est, later);
        case Wait(delay, est, later) => Dwell(delay, est, later);
        case Pause => CheckPause();
        case Prime(est) => PrimingHandler(est);
        case Background(est) => var _ := FlushHandler(est);
        case Flush(est) => FlushLookahead(est);
        case Sync(est) => FlushStepGeneration(est);
        case Note(mqTime, setStepGenTime) =>
          NotedKeeps(View(), mqTime, setStepGenTime);
          NoteMovequeueActivity(mqTime, setStepGenTime);
        case Home(m, accepted, readings, est, later) => var _ := DripMove(m, accepted, readings, est, later);
        case ScanTime(delay, oldDelay, est) =>
          if oldDelay == 0.0 || oldDelay in kinFlushTimes {
            NoteStepGenerationScanTime(delay, oldDelay, est);
          }
      }
    }
  }

  lemma AddedIsOk(t: Times, m: Timed, n: nat, est: real)
    requires Ok(t) && AllTimed([m]) && n <= |t.queue|
    ensures Ok(Added(t, m, n, est))
  {
    hide Ok, Added, AllTimed;
    AddedKeeps(t, m, n, est);
  }

  lemma MayProcess(t: Times, moves: seq<Timed>, queue: seq<Timed>)
    requires Ok(t) && (forall m :: m in moves ==> m in t.queue)
    ensures AllTimed(moves) && TimesOk(t.(queue := queue)) && TimesOk(t.(state := Drip))
  {
  }
}
