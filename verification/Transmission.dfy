/**
 The way of a step command to the mcu: from steppersync_flush (stepcompress.c) through the serial
 queue (serialqueue.c).  The serial queue never sends a message before its minimum clock, which is
 what the mcu's move queue relies on.
 */
module Transmission {
  import opened Basics
  import opened Protocol
  import SS = StepperSync
  import SQ = SerialQueue
  import SerialLink

  // The commands of a batch as messages of the serial queue.
  function Messages(batch: seq<SS.Batched>): (ms: seq<SQ.Message>)
    ensures |ms| == |batch|
    ensures forall i :: 0 <= i < |batch| ==>
      && ms[i].minClock == batch[i].minClock && ms[i].reqClock == batch[i].original.reqClock
      && ms[i].payload == batch[i].original.payload && ms[i].notifyId == 0
  {
    seq(|batch|, i requires 0 <= i < |batch| =>
      SQ.Message(batch[i].original.payload, batch[i].minClock, batch[i].original.reqClock, 0))
  }

  lemma MessagesJoin(a: seq<SS.Batched>, b: seq<SS.Batched>)
    ensures SQ.RaiseAll(Messages(a + b)) == SQ.RaiseAll(Messages(a)) + SQ.RaiseAll(Messages(b))
  {
  }

  lemma MessagesOk(batch: seq<SS.Batched>)
    requires forall b :: b in batch ==> SS.CommandOk(b.original) && b.original.reqClock < MAX_CLOCK
    ensures forall m :: m in Messages(batch) ==> SQ.MessageOk(m)
    ensures batch != [] ==> SQ.Bytes(Messages(batch)) > 0
  {
    forall m | m in Messages(batch) ensures SQ.MessageOk(m) {
      var i :| 0 <= i < |batch| && m == Messages(batch)[i];
      assert batch[i] in batch;
    }
    if batch != [] {
      assert batch[|batch| - 1] in batch;
    }
  }

  /* ----- Times of transmission ----- */

  predicate Rising(times: seq<int>) { forall i, j :: 0 <= i < j < |times| ==> times[i] <= times[j] }

  lemma RisingAppend(times: seq<int>, x: int)
    requires Rising(times) && forall y :: y in times ==> y <= x
    ensures Rising(times + [x])
  {
    assert forall i :: 0 <= i < |times| ==> times[i] in times;
  }

  // The arrival times of the messages of queue k.
  function TimesOf(out: seq<(nat, SQ.Message)>, tx: seq<int>, k: nat): (times: seq<int>)
    requires |tx| == |out|
    ensures |times| == |SQ.Of(out, k)|
  {
    if out == [] then []
    else
      var n := |out| - 1;
      TimesOf(out[..n], tx[..n], k) + if out[n].0 == k then [tx[n]] else []
  }

  lemma {:induction false} TimesOfFollow(out: seq<(nat, SQ.Message)>, tx: seq<int>, k: nat)
    requires |tx| == |out| && Rising(tx) && forall i :: 0 <= i < |out| ==> out[i].1.minClock <= tx[i]
    ensures Rising(TimesOf(out, tx, k))
    ensures forall i :: 0 <= i < |TimesOf(out, tx, k)| ==> SQ.Of(out, k)[i].minClock <= TimesOf(out, tx, k)[i]
    ensures forall x :: x in TimesOf(out, tx, k) ==> x <= tx[|tx| - 1]
  {
    if out != [] {
      var n := |out| - 1;
      TimesOfFollow(out[..n], tx[..n], k);
      RisingAppend(TimesOf(out[..n], tx[..n], k), tx[n]);
    }
  }

  // The arrival times of the commands that take a slot.
  function SlotTimes(batch: seq<SS.Batched>, times: seq<int>): (tx: seq<int>)
    requires |times| == |batch|
    ensures |tx| == |SS.UsesOf(batch)|
  {
    if batch == [] then []
    else
      var n := |batch| - 1;
      SlotTimes(batch[..n], times[..n]) + if batch[n].original.minClock != 0 then [times[n]] else []
  }

  lemma {:induction false} SlotTimesFollow(batch: seq<SS.Batched>, times: seq<int>)
    requires |times| == |batch| && Rising(times) && forall i :: 0 <= i < |batch| ==> batch[i].minClock <= times[i]
    ensures Rising(SlotTimes(batch, times))
    ensures forall i :: 0 <= i < |SlotTimes(batch, times)| ==> SS.UsesOf(batch)[i].avail <= SlotTimes(batch, times)[i]
    ensures forall x :: x in SlotTimes(batch, times) ==> x <= times[|times| - 1]
  {
    if batch != [] {
      var n := |batch| - 1;
      SlotTimesFollow(batch[..n], times[..n]);
      RisingAppend(SlotTimes(batch[..n], times[..n]), times[n]);
    }
  }

  lemma {:induction false} UsesJoin(a: seq<SS.Batched>, b: seq<SS.Batched>)
    ensures SS.UsesOf(a + b) == SS.UsesOf(a) + SS.UsesOf(b)
  {
    hide SS.UsesOf, SS.Of;
    if b == [] {
      SS.EmptyBatch([]);
      assert a + b == a;
    } else {
      var n := |b| - 1;
      UsesJoin(a, b[..n]);
      SS.BatchAppend(a + b[..n], b[n]);
      SS.BatchAppend(b[..n], b[n]);
      assert a + b == a + b[..n] + [b[n]] && b == b[..n] + [b[n]];
    }
  }

  // What went out of queue k is the beginning of what was sent to it.
  lemma OutIsPrefix(out: seq<(nat, SQ.Message)>, qs: seq<SQ.CommandQueue>, queued: seq<seq<SQ.Message>>, k: nat)
    requires SQ.Fifo(out, qs, queued) && k < |qs|
    ensures k < |queued| && SQ.Of(out, k) <= queued[k]
  {
    assert SQ.Of(out, k) + qs[k].ready + qs[k].upcoming == queued[k];
  }

  // What can happen to the two.
  datatype Event =
    | Enqueue(stepper: nat, c: SS.Command)
    | Flush(moveClock: int)
    | Send(queue: nat, msgs: seq<SQ.Message>)      // to another command queue
    | Command(times: nat -> SQ.Times, reqclockDelta: Option<int>)
    | Receive(nibble: nat, len: int)

  ghost predicate EventOk(e: Event) {
    match e
    case Enqueue(_, c) => SS.CommandOk(c)
    case Flush(_) => true
    case Send(_, msgs) => forall m :: m in msgs ==> SQ.MessageOk(m)
    case Command(times, delta) => delta.Some? ==> forall n :: times(n).ackClock + delta.value < MAX_CLOCK
    case Receive(_, len) => MESSAGE_MIN <= len <= MESSAGE_MAX
  }

  // What the two hold, and what they have done.
  datatype Snap = Snap(
    commands: seq<seq<SS.Command>>, sent: seq<SS.Batched>,
    queued: seq<seq<SQ.Message>>, out: seq<(nat, SQ.Message)>, leftAt: seq<int>,
    queues: seq<SQ.CommandQueue>, readyBytes: int, room: bool,
    sendSeq: int, receiveSeq: int, sentQueue: seq<SQ.Sent>, fired: seq<SQ.Notify>)

  // A flush takes the most urgent commands, and hands them on in this order, until none is due.
  ghost predicate Flushed(s: Snap, t: Snap, moveClock: int, cq: nat, batch: seq<SS.Batched>)
    requires cq < |s.queued|
  {
    && SS.LeastFirst(s.commands, batch) && SS.Drained(t.commands, moveClock) && SS.Fifo(batch, t.commands, s.commands)
    && t.commands == SS.Left(s.commands, batch) && t.sent == s.sent + batch
    && t.queued == s.queued[cq := s.queued[cq] + SQ.RaiseAll(Messages(batch))]
    && t.out == s.out && t.leftAt == s.leftAt && t.sentQueue == s.sentQueue && t.fired == s.fired
    && t.sendSeq == s.sendSeq && t.receiveSeq == s.receiveSeq
  }

  // A batch for another queue.
  predicate Sent(s: Snap, t: Snap, cq: nat, k: nat, msgs: seq<SQ.Message>) {
    && t.queued == (if k != cq && k < |s.queued| && SQ.Bytes(msgs) != 0
                    then s.queued[k := s.queued[k] + SQ.RaiseAll(msgs)] else s.queued)
    && t.commands == s.commands && t.sent == s.sent && t.out == s.out && t.leftAt == s.leftAt
    && t.sentQueue == s.sentQueue && t.fired == s.fired && t.sendSeq == s.sendSeq && t.receiveSeq == s.receiveSeq
  }

  // Blocks are built and written until there is no room, or nothing to send.
  ghost predicate Built(s: Snap, t: Snap, times: nat -> SQ.Times, reqclockDelta: Option<int>) {
    && (t.room ==> exists n: nat :: SQ.NothingToSend(t.queues, t.readyBytes, times(n), reqclockDelta))
    && (exists written :: SQ.Written(s.sentQueue, t.sentQueue, written, [])
                          && SQ.Taken(s.out, t.out, SQ.Contents(SQ.Joined(written))))
    && s.out <= t.out && s.leftAt <= t.leftAt && s.sendSeq <= t.sendSeq && t.receiveSeq == s.receiveSeq
    && t.commands == s.commands && t.sent == s.sent && t.queued == s.queued && t.fired == s.fired
  }

  // The window moves to the acknowledged block, unless the message is bogus.
  predicate Acked(s: Snap, t: Snap, nibble: nat)
    requires 1 <= s.receiveSeq <= s.sendSeq && |s.sentQueue| == s.sendSeq - s.receiveSeq
  {
    var rseq := SerialLink.DecodeAck(nibble, s.receiveSeq);
    && t.commands == s.commands && t.sent == s.sent && t.queued == s.queued && t.out == s.out && t.leftAt == s.leftAt
    && s.fired <= t.fired
    && if rseq > s.sendSeq && s.receiveSeq != 1 then
         t.receiveSeq == s.receiveSeq && t.sendSeq == s.sendSeq && t.sentQueue == s.sentQueue && t.fired == s.fired
       else
         && t.receiveSeq == rseq && t.sendSeq == IMax(s.sendSeq, rseq)
         && t.sentQueue == if rseq <= s.sendSeq then s.sentQueue[rseq - s.receiveSeq..] else []
  }

  ghost predicate SnapOk(s: Snap, cq: nat) {
    cq < |s.queued| == |s.queues| && 1 <= s.receiveSeq <= s.sendSeq && |s.sentQueue| == s.sendSeq - s.receiveSeq
  }

  // What an event does; what names no stepper or queue does nothing, and block numbers stay below 2^64.
  ghost predicate Follows(e: Event, s: Snap, t: Snap, cq: nat)
    requires SnapOk(s, cq)
  {
    match e
    case Enqueue(k, c) => t == if k < |s.commands| then s.(commands := s.commands[k := s.commands[k] + [c]]) else s
    case Flush(moveClock) => exists batch :: Flushed(s, t, moveClock, cq, batch)
    case Send(k, msgs) => Sent(s, t, cq, k, msgs)
    case Command(times, reqclockDelta) => Built(s, t, times, reqclockDelta)
    case Receive(nibble, _) => if s.receiveSeq + SerialLink.SEQ_NUMBERS < TWO64 then Acked(s, t, nibble) else t == s
  }

  // A run: one state after the other.
  ghost predicate IsRun(events: seq<Event>, trace: seq<Snap>, cq: nat) {
    && |trace| == |events| + 1 && (forall i :: 0 <= i < |trace| ==> SnapOk(trace[i], cq))
    && forall i :: 0 <= i < |events| ==> Follows(events[i], trace[i], trace[i + 1], cq)
  }

  lemma RunGrows(events: seq<Event>, trace: seq<Snap>, cq: nat, e: Event, t: Snap)
    requires IsRun(events, trace, cq) && SnapOk(t, cq) && Follows(e, trace[|events|], t, cq)
    ensures IsRun(events + [e], trace + [t], cq)
  {
    hide Follows;
    forall i | 0 <= i < |events| + 1 ensures Follows((events + [e])[i], (trace + [t])[i], (trace + [t])[i + 1], cq) {
      if i < |events| {
        assert Follows(events[i], trace[i], trace[i + 1], cq);
      }
    }
  }

  // The messages that left so far reach the mcu in order, each not before the clock estimated then.
  ghost predicate Arrives(s: Snap, tx: seq<int>) {
    |tx| == |s.out| == |s.leftAt| && Rising(tx) && forall i :: 0 <= i < |tx| ==> s.leftAt[i] <= tx[i]
  }

  // The commands that left so far, and the move queue slots they take at clock t.
  function Gone(s: Snap, cq: nat): nat { |SQ.Of(s.out, cq)| }

  function SlotsTaken(s: Snap, cq: nat, tx: seq<int>, t: int): nat
    requires |tx| == |s.out| && Gone(s, cq) <= |s.sent|
  {
    var gone := s.sent[..Gone(s, cq)];
    SS.InUse(SS.UsesOf(gone), SlotTimes(gone, TimesOf(s.out, tx, cq)), t)
  }

  predicate HasSlots(s: Snap, cq: nat, n: nat, tx: seq<int>, t: int)
    requires |tx| == |s.out|
  {
    Gone(s, cq) <= |s.sent| && SlotsTaken(s, cq, tx, t) <= n
  }

  // Whenever the messages that left arrive, the mcu has slots for the commands among them.
  ghost predicate AlwaysSlots(s: Snap, cq: nat, n: nat) {
    forall tx: seq<int>, t: int :: Arrives(s, tx) ==> HasSlots(s, cq, n, tx, t)
  }

  class Link {
    const sync: SS.StepperSync
    const serial: SQ.SerialQueue
    const cq: nat                 // the command queue of the steppers

    ghost predicate Valid()
      reads this, sync, sync.moveClocks, serial
    {
      && sync.Valid() && serial.Valid() && cq < |serial.queued| == |serial.queues|
      && serial.queued[cq] == SQ.RaiseAll(Messages(sync.sent))
    }

    ghost function View(): Snap
      reads sync, serial
    {
      Snap(sync.queues, sync.sent, serial.queued, serial.out, serial.leftAt, serial.queues, serial.readyBytes,
           serial.HasRoom(), serial.sendSeq, serial.receiveSeq, serial.sentQueue, serial.fired)
    }

    lemma ViewOk()
      requires Valid()
      ensures SnapOk(View(), cq)
    {
    }

    constructor (moveNum: nat, steppers: nat, receiveWindow: nat, commandQueues: nat, cq: nat)
      requires moveNum > 0 && cq < commandQueues
      ensures Valid() && sync.moveClocks.Length == moveNum && fresh(sync) && fresh(sync.moveClocks) && fresh(serial)
    {
      this.cq := cq;
      sync := new SS.StepperSync(moveNum, steppers);
      serial := new SQ.SerialQueue(receiveWindow, commandQueues);
    }

    // steppersync_flush with the transmission of its batch
    method FlushSteps(moveClock: int) returns (batch: seq<SS.Batched>)
      requires Valid()
      modifies sync, sync.moveClocks, serial
      ensures Valid() && SnapOk(old(View()), cq) && Flushed(old(View()), View(), moveClock, cq, batch)
    {
      ViewOk();
      batch := sync.Flush(moveClock);
      MessagesJoin(old(sync.sent), batch);
      MessagesOk(batch);
      if batch != [] {
        serial.SendBatch(cq, Messages(batch));
      } else {
        assert SQ.RaiseAll(Messages(batch)) == [];
      }
    }

    // Main theorem: at no clock are more slots taken than the mcu has.
    lemma SlotsSuffice(tx: seq<int>, t: int)
      requires Valid() && Arrives(View(), tx)
      ensures HasSlots(View(), cq, sync.moveClocks.Length, tx, t)
    {
      hide SS.Legal, SS.InUse, SS.UsesOf, SS.MinHeap, SS.Slots, SQ.Of, TimesOf, SlotTimes, SQ.Fifo;
      var n, times := sync.moveClocks.Length, TimesOf(serial.out, tx, cq);
      OutIsPrefix(serial.out, serial.queues, serial.queued, cq);
      var count := Gone(View(), cq);
      var gone := sync.sent[..count];
      TimesOfFollow(serial.out, tx, cq);
      forall i | 0 <= i < |gone| ensures gone[i].minClock <= times[i] {
        assert SQ.Of(serial.out, cq)[i] == SQ.Raise(Messages(sync.sent)[i]);
      }
      SlotTimesFollow(gone, times);
      UsesJoin(gone, sync.sent[count..]);
      assert sync.sent == gone + sync.sent[count..];
      SS.LegalPrefix(n, SS.UsesOf(sync.sent), |SS.UsesOf(gone)|);
      SS.SlotsSuffice(n, SS.UsesOf(gone), SlotTimes(gone, times), t);
    }

    lemma SlotsAreThere()
      requires Valid()
      ensures AlwaysSlots(View(), cq, sync.moveClocks.Length)
    {
      forall tx: seq<int>, t: int | Arrives(View(), tx) ensures HasSlots(View(), cq, sync.moveClocks.Length, tx, t) {
        SlotsSuffice(tx, t);
      }
    }

    // Any run of commands queued, flushes, transmissions and acknowledgements does what each of them
    // should, and in every state of the run the slots suffice.
    method Run(events: seq<Event>) returns (ghost trace: seq<Snap>)
      requires Valid() && forall e :: e in events ==> EventOk(e)
      modifies sync, sync.moveClocks, serial
      ensures Valid() && IsRun(events, trace, cq) && trace[0] == old(View()) && trace[|events|] == View()
      ensures forall i :: 0 <= i < |trace| ==> AlwaysSlots(trace[i], cq, sync.moveClocks.Length)
    {
      hide SS.StepperSync.Valid, SQ.SerialQueue.Valid, Follows, SnapOk, AlwaysSlots, EventOk;
      ViewOk();
      SlotsAreThere();
      trace := [View()];
      assert events[..0] == [];
      for i := 0 to |events|
        invariant Valid() && IsRun(events[..i], trace, cq) && trace[0] == old(View()) && trace[i] == View()
        invariant forall j :: 0 <= j < |trace| ==> AlwaysSlots(trace[j], cq, sync.moveClocks.Length)
      {
        assert events[i] in events && events[..i+1] == events[..i] + [events[i]];
        Step(events[i]);
        SlotsAreThere();
        RunGrows(events[..i], trace, cq, events[i], View());
        trace := trace + [View()];
      }
      assert events[..|events|] == events;
    }

    // One event.
    method Step(e: Event)
      requires Valid() && EventOk(e)
      modifies sync, sync.moveClocks, serial
      ensures Valid() && SnapOk(old(View()), cq) && SnapOk(View(), cq) && Follows(e, old(View()), View(), cq)
    {
      hide Valid, SnapOk, Flushed, Sent, Built, Acked, SQ.MessageOk;
      ViewOk();
      match e {
        case Enqueue(k, c) => Queue(k, c);
        case Flush(moveClock) => var _ := FlushSteps(moveClock);
        case Send(k, msgs) => SendOther(k, msgs);
        case Command(times, reqclockDelta) => Transmit(times, reqclockDelta);
        case Receive(nibble, len) => Receive(nibble, len);
      }
      ViewOk();
    }

    method Queue(k: nat, c: SS.Command)
      requires Valid() && SS.CommandOk(c)
      modifies sync
      ensures Valid()
      ensures var s := old(View());
        View() == if k < |s.commands| then s.(commands := s.commands[k := s.commands[k] + [c]]) else s
    {
      hide SQ.SerialQueue.Valid, SS.Slots, SS.Legal, SS.MinHeap;
      if k < |sync.queues| {
        sync.Enqueue(k, c);
      }
    }

    method SendOther(k: nat, msgs: seq<SQ.Message>)
      requires Valid() && forall m :: m in msgs ==> SQ.MessageOk(m)
      modifies serial
      ensures Valid() && Sent(old(View()), View(), cq, k, msgs)
    {
      hide SS.StepperSync.Valid, SQ.Bytes, SQ.RaiseAll;
      if k != cq && k < |serial.queues| {
        serial.SendBatch(k, msgs);
      }
    }

    method Transmit(times: nat -> SQ.Times, reqclockDelta: Option<int>)
      requires Valid() && (reqclockDelta.Some? ==> forall n :: times(n).ackClock + reqclockDelta.value < MAX_CLOCK)
      modifies serial
      ensures Valid() && Built(old(View()), View(), times, reqclockDelta)
    {
      hide SS.StepperSync.Valid, SQ.NothingToSend, SQ.Written, SQ.Taken, SQ.Contents, SQ.Joined;
      var written := serial.CommandEvent(times, reqclockDelta);
      assert SQ.Written(old(serial.sentQueue), serial.sentQueue, written, []);
    }

    // A message arrives; block numbers stay below 2^64.
    method Receive(nibble: nat, len: int)
      requires Valid() && MESSAGE_MIN <= len <= MESSAGE_MAX
      modifies serial
      ensures Valid() && SnapOk(old(View()), cq)
      ensures var s := old(View());
        if s.receiveSeq + SerialLink.SEQ_NUMBERS < TWO64 then Acked(s, View(), nibble) else View() == s
    {
      hide SS.StepperSync.Valid, SerialLink.DecodeAck;
      ViewOk();
      if serial.receiveSeq + SerialLink.SEQ_NUMBERS < TWO64 {
        var _ := serial.HandleMessage(nibble, len);
      }
    }
  }
}
