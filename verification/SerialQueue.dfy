/**
 Book-keeping of the serial queue (serialqueue.c): send windows, byte counters, command queues
 and notifications.

 Clocks read from the clock estimate are parameters.  Messages are at most MESSAGE_PAYLOAD_MAX
 bytes long and their reqClock is below MAX_CLOCK, as their callers provide.
 */
module SerialQueue {
  import opened Basics
  import opened Protocol
  import SerialLink

  datatype Message = Message(payload: seq<int>, minClock: int, reqClock: int, notifyId: int)

  datatype CommandQueue = CommandQueue(upcoming: seq<Message>, ready: seq<Message>)

  // A block in sent_queue
  datatype Sent = Sent(sendSeq: int, messages: seq<Message>)

  // An entry of notify_queue: the message and the block it went out with
  datatype Notify = Notify(id: int, sendSeq: int)

  predicate MessageOk(m: Message) { |m.payload| <= MESSAGE_PAYLOAD_MAX && m.reqClock < MAX_CLOCK }

  /* ----- Byte counts ----- */

  function Bytes(ms: seq<Message>): nat {
    if ms == [] then 0 else Bytes(ms[..|ms| - 1]) + |ms[|ms| - 1].payload|
  }

  lemma BytesAppend(ms: seq<Message>, m: Message)
    ensures Bytes(ms + [m]) == Bytes(ms) + |m.payload|
  {
    assert (ms + [m])[..|ms|] == ms;
  }

  lemma {:induction false} BytesJoin(a: seq<Message>, b: seq<Message>)
    ensures Bytes(a + b) == Bytes(a) + Bytes(b)
  {
    if b == [] {
      assert a + b == a;
    } else {
      assert a + b == (a + b[..|b| - 1]) + [b[|b| - 1]];
      BytesAppend(a + b[..|b| - 1], b[|b| - 1]);
      BytesJoin(a, b[..|b| - 1]);
    }
  }

  lemma BytesHead(ms: seq<Message>)
    requires ms != []
    ensures Bytes(ms) == |ms[0].payload| + Bytes(ms[1..])
  {
    assert ms == [ms[0]] + ms[1..];
    BytesJoin([ms[0]], ms[1..]);
    BytesAppend([], ms[0]);
    assert [] + [ms[0]] == [ms[0]];
  }

  function ReadyBytes(qs: seq<CommandQueue>): nat {
    if qs == [] then 0 else ReadyBytes(qs[..|qs| - 1]) + Bytes(qs[|qs| - 1].ready)
  }

  function UpcomingBytes(qs: seq<CommandQueue>): nat {
    if qs == [] then 0 else UpcomingBytes(qs[..|qs| - 1]) + Bytes(qs[|qs| - 1].upcoming)
  }

  function ReadyCount(qs: seq<CommandQueue>): nat {
    if qs == [] then 0 else ReadyCount(qs[..|qs| - 1]) + |qs[|qs| - 1].ready|
  }

  lemma {:induction false} UpdateCount(qs: seq<CommandQueue>, i: nat, q: CommandQueue)
    requires i < |qs|
    ensures ReadyCount(qs[i := q]) == ReadyCount(qs) - |qs[i].ready| + |q.ready|
  {
    var n := |qs| - 1;
    if i < n {
      assert qs[i := q][..n] == qs[..n][i := q];
      UpdateCount(qs[..n], i, q);
    } else {
      assert qs[i := q][..n] == qs[..n];
    }
  }

  lemma {:induction false} UpdateBytes(qs: seq<CommandQueue>, i: nat, q: CommandQueue)
    requires i < |qs|
    ensures ReadyBytes(qs[i := q]) == ReadyBytes(qs) - Bytes(qs[i].ready) + Bytes(q.ready)
    ensures UpcomingBytes(qs[i := q]) == UpcomingBytes(qs) - Bytes(qs[i].upcoming) + Bytes(q.upcoming)
  {
    var n := |qs| - 1;
    if i < n {
      assert qs[i := q][..n] == qs[..n][i := q];
      UpdateBytes(qs[..n], i, q);
    } else {
      assert qs[i := q][..n] == qs[..n];
    }
  }

  lemma {:induction false} SomeReady(qs: seq<CommandQueue>)
    requires ReadyBytes(qs) > 0
    ensures exists i :: 0 <= i < |qs| && qs[i].ready != []
  {
    var n := |qs| - 1;
    if qs[n].ready == [] {
      SomeReady(qs[..n]);
      var i :| 0 <= i < n && qs[..n][i].ready != [];
      assert qs[i].ready != [];
    }
  }

  function BlockLen(b: Sent): int { Bytes(b.messages) + MESSAGE_MIN }

  // What a block carries, between its header and its trailer.
  function Payload(ms: seq<Message>): seq<int> {
    if ms == [] then [] else Payload(ms[..|ms| - 1]) + ms[|ms| - 1].payload
  }

  lemma {:induction false} PayloadBytes(ms: seq<Message>)
    ensures |Payload(ms)| == Bytes(ms)
  {
    if ms != [] {
      PayloadBytes(ms[..|ms| - 1]);
    }
  }

  lemma BlockLenIs(b: Sent)
    ensures BlockLen(b) == MESSAGE_HEADER_SIZE + |Payload(b.messages)| + MESSAGE_TRAILER_SIZE
  {
    PayloadBytes(b.messages);
  }

  function BlockBytes(bs: seq<Sent>): int {
    if bs == [] then 0 else BlockLen(bs[0]) + BlockBytes(bs[1..])
  }

  lemma {:induction false} BlockBytesAppend(bs: seq<Sent>, b: Sent)
    ensures BlockBytes(bs + [b]) == BlockBytes(bs) + BlockLen(b)
  {
    if bs == [] {
      assert [] + [b] == [b];
    } else {
      assert (bs + [b])[1..] == bs[1..] + [b];
      BlockBytesAppend(bs[1..], b);
    }
  }

  // Consecutive sequence numbers from first on, and blocks that fit into a message.
  predicate SentOk(bs: seq<Sent>, first: int) {
    forall i :: 0 <= i < |bs| ==> bs[i].sendSeq == first + i && BlockLen(bs[i]) <= MESSAGE_MAX
  }

  lemma SentGrows(bs: seq<Sent>, first: int, b: Sent)
    requires SentOk(bs, first) && b.sendSeq == first + |bs| && BlockLen(b) <= MESSAGE_MAX
    ensures SentOk(bs + [b], first)
    ensures |bs| == 0 ==> BlockBytes(bs) == 0
  {
  }

  // The blocks of a list of writes.
  function Joined(writes: seq<seq<Sent>>): seq<Sent> {
    if writes == [] then [] else Joined(writes[..|writes| - 1]) + writes[|writes| - 1]
  }

  lemma JoinedAppend(writes: seq<seq<Sent>>, buf: seq<Sent>)
    ensures Joined(writes + [buf]) == Joined(writes) + buf
  {
    assert (writes + [buf])[..|writes|] == writes;
  }

  // What joined the unacknowledged blocks was written, or is in the buffer, in order.
  predicate Written(before: seq<Sent>, after: seq<Sent>, writes: seq<seq<Sent>>, buf: seq<Sent>) {
    after == before + Joined(writes) + buf
  }

  lemma NothingWritten(bs: seq<Sent>)
    ensures Written(bs, bs, [], []) && BlockBytes([]) == 0 && Contents(Joined([]) + []) == []
  {
  }

  lemma BufferGrows(before: seq<Sent>, after: seq<Sent>, writes: seq<seq<Sent>>, buf: seq<Sent>, b: Sent)
    requires Written(before, after, writes, buf)
    ensures Written(before, after + [b], writes, buf + [b])
    ensures Contents(Joined(writes) + (buf + [b])) == Contents(Joined(writes) + buf) + b.messages
  {
    ContentsAppend(Joined(writes) + buf, b);
    assert Joined(writes) + buf + [b] == Joined(writes) + (buf + [b]);
  }

  lemma BufferWritten(before: seq<Sent>, after: seq<Sent>, writes: seq<seq<Sent>>, buf: seq<Sent>)
    requires Written(before, after, writes, buf)
    ensures Written(before, after, writes + [buf], [])
    ensures Joined(writes + [buf]) + [] == Joined(writes) + buf
  {
    JoinedAppend(writes, buf);
  }

  // The messages of a list of blocks.
  function Contents(bs: seq<Sent>): seq<Message> {
    if bs == [] then [] else Contents(bs[..|bs| - 1]) + bs[|bs| - 1].messages
  }

  lemma ContentsAppend(bs: seq<Sent>, b: Sent)
    ensures Contents(bs + [b]) == Contents(bs) + b.messages
  {
    assert (bs + [b])[..|bs|] == bs;
  }

  // One write of command_event.
  predicate FitsBuffer(buf: seq<Sent>) { buf != [] && BlockBytes(buf) <= MESSAGE_MAX * MAX_PENDING_BLOCKS }

  // A retransmission, with its leading sync byte, fits into the buffer of retransmit_event.
  lemma {:induction false} RetransmitFits(bs: seq<Sent>, first: int)
    requires SentOk(bs, first)
    ensures 0 <= BlockBytes(bs) <= MESSAGE_MAX * |bs|
  {
    if bs != [] {
      assert SentOk(bs[1..], first + 1) by {
        assert forall i :: 0 <= i < |bs| - 1 ==> bs[1..][i] == bs[i + 1];
      }
      RetransmitFits(bs[1..], first + 1);
    }
  }

  /* ----- Notifications ----- */

  function NotifiesOf(ms: seq<Message>, sendSeq: int): seq<Notify> {
    if ms == [] then []
    else
      var m := ms[|ms| - 1];
      NotifiesOf(ms[..|ms| - 1], sendSeq) + if m.notifyId != 0 then [Notify(m.notifyId, sendSeq)] else []
  }

  lemma NotifiesAppend(ms: seq<Message>, m: Message, sendSeq: int)
    ensures NotifiesOf(ms + [m], sendSeq)
      == NotifiesOf(ms, sendSeq) + if m.notifyId != 0 then [Notify(m.notifyId, sendSeq)] else []
  {
    assert (ms + [m])[..|ms|] == ms;
  }

  // The last block whose notifications a received message releases, in uint64_t.
  function WakeSeq(rseq: int, len: int): int {
    (rseq - 1 - if len > MESSAGE_MIN then 1 else 0) % TWO64
  }

  // Notifications are released only for acknowledged blocks, except by a data message that
  // acknowledges nothing at all (rseq 1): then the subtraction wraps and releases them all.
  lemma WakeSeqOnlyAcked(rseq: int, len: int)
    requires 1 <= rseq < TWO64
    ensures WakeSeq(rseq, len) < rseq <==> !(rseq == 1 && len > MESSAGE_MIN)
    ensures !(rseq == 1 && len > MESSAGE_MIN) ==> WakeSeq(rseq, len) == rseq - if len > MESSAGE_MIN then 2 else 1
    ensures rseq == 1 && len > MESSAGE_MIN ==> WakeSeq(rseq, len) == TWO64 - 1
  {
  }

  // Notifications are kept in order while block sendSeq is filled.
  predicate Noted(pending: seq<Notify>, fired: seq<Notify>, requested: seq<Notify>, sendSeq: int) {
    NotifyOrdered(pending) && fired + pending == requested && forall n :: n in pending ==> n.sendSeq <= sendSeq
  }

  lemma NotedNext(pending: seq<Notify>, fired: seq<Notify>, requested: seq<Notify>, sendSeq: int, id: int)
    requires Noted(pending, fired, requested, sendSeq)
    ensures Noted(pending + [Notify(id, sendSeq)], fired, requested + [Notify(id, sendSeq)], sendSeq)
  {
    assert forall i :: 0 <= i < |pending| ==> pending[i] in pending;
  }

  lemma FirstOf(ns: seq<Notify>)
    ensures ns == [] || ns[0] in ns
  {
  }

  predicate NotifyOrdered(ns: seq<Notify>) {
    forall i, j :: 0 <= i < j < |ns| ==> ns[i].sendSeq <= ns[j].sendSeq
  }

  /* ----- Choosing messages ----- */

  // The head of a ready queue may be sent next.
  predicate MostUrgent(qs: seq<CommandQueue>, k: int) {
    && 0 <= k < |qs| && qs[k].ready != []
    && forall i :: 0 <= i < |qs| && qs[i].ready != [] ==> qs[k].ready[0].reqClock <= qs[i].ready[0].reqClock
  }

  // The queues after the given heads of ready queues were taken, and whether each of them was the
  // most urgent at its turn.
  function AfterTaking(qs: seq<CommandQueue>, taken: seq<(nat, Message)>): seq<CommandQueue> {
    if taken == [] then qs
    else
      var k, rest := taken[|taken| - 1].0, AfterTaking(qs, taken[..|taken| - 1]);
      if k < |rest| && rest[k].ready != [] then rest[k := rest[k].(ready := rest[k].ready[1..])] else rest
  }

  predicate ByUrgency(qs: seq<CommandQueue>, taken: seq<(nat, Message)>) {
    taken != [] ==>
      var (k, m) := taken[|taken| - 1];
      var rest := AfterTaking(qs, taken[..|taken| - 1]);
      ByUrgency(qs, taken[..|taken| - 1]) && MostUrgent(rest, k) && rest[k].ready[0] == m
  }

  lemma UrgentNone(qs: seq<CommandQueue>)
    ensures ByUrgency(qs, []) && AfterTaking(qs, []) == qs
  {
  }

  lemma UrgentIsReady(qs: seq<CommandQueue>, k: nat)
    requires MostUrgent(qs, k)
    ensures k < |qs| && qs[k].ready != []
  {
  }

  lemma UrgentNext(qs: seq<CommandQueue>, taken: seq<(nat, Message)>, k: nat)
    requires ByUrgency(qs, taken) && MostUrgent(AfterTaking(qs, taken), k)
    ensures var now := AfterTaking(qs, taken);
      var more := taken + [(k, now[k].ready[0])];
      ByUrgency(qs, more) && AfterTaking(qs, more) == now[k := now[k].(ready := now[k].ready[1..])]
  {
    assert (taken + [(k, AfterTaking(qs, taken)[k].ready[0])])[..|taken|] == taken;
  }

  // The block is as full as it gets: nothing is ready, or the most urgent message does not fit.
  ghost predicate IsFull(qs: seq<CommandQueue>, readyBytes: int, len: int) {
    || readyBytes == 0
    || exists k :: MostUrgent(qs, k) && len + |qs[k].ready[0].payload| > MESSAGE_MAX - MESSAGE_TRAILER_SIZE
  }

  predicate Empty(q: CommandQueue) { q.upcoming == [] && q.ready == [] }

  // pending_queues lists exactly the queues with messages, each once.
  predicate PendingOk(pending: seq<nat>, qs: seq<CommandQueue>) {
    && (forall k :: 0 <= k < |pending| ==> pending[k] < |qs| && !Empty(qs[pending[k]]))
    && (forall i :: 0 <= i < |qs| && !Empty(qs[i]) ==> i in pending)
    && Distinct(pending)
  }

  predicate Distinct(s: seq<nat>) { forall j, k :: 0 <= j < k < |s| ==> s[j] != s[k] }

  function Without(pending: seq<nat>, i: nat): (r: seq<nat>)
    ensures forall x :: x in r <==> x in pending && x != i
  {
    if pending == [] then []
    else if pending[0] == i then Without(pending[1..], i) else [pending[0]] + Without(pending[1..], i)
  }

  lemma {:induction false} WithoutDistinct(pending: seq<nat>, i: nat)
    requires Distinct(pending)
    ensures Distinct(Without(pending, i))
  {
    if pending != [] {
      WithoutDistinct(pending[1..], i);
      assert pending[0] !in pending[1..];
      assert forall k :: 0 <= k < |Without(pending[1..], i)| ==> Without(pending[1..], i)[k] in pending[1..];
    }
  }

  // What the clocks say when check_send_command runs.
  datatype Times = Times(ackClock: int, bgClock: int)

  /* ----- FIFO order of every command queue ----- */

  // The messages of queue i within a list of (queue, message) pairs.
  function Of(out: seq<(nat, Message)>, i: nat): seq<Message> {
    if out == [] then []
    else
      var (k, m) := out[|out| - 1];
      Of(out[..|out| - 1], i) + if k == i then [m] else []
  }

  lemma OfAppend(out: seq<(nat, Message)>, k: nat, m: Message)
    ensures forall i: nat :: Of(out + [(k, m)], i) == Of(out, i) + if k == i then [m] else []
  {
    assert (out + [(k, m)])[..|out|] == out;
  }

  // For every queue: sent, ready and upcoming messages are what was queued, in order.
  predicate Fifo(out: seq<(nat, Message)>, qs: seq<CommandQueue>, queued: seq<seq<Message>>) {
    |qs| == |queued| && forall i :: 0 <= i < |qs| ==> Of(out, i) + qs[i].ready + qs[i].upcoming == queued[i]
  }

  lemma PendingAdd(pending: seq<nat>, qs: seq<CommandQueue>, k: nat, q: CommandQueue)
    requires PendingOk(pending, qs) && k < |qs| && !Empty(q)
    ensures PendingOk(if Empty(qs[k]) then pending + [k] else pending, qs[k := q])
  {
    var more := if Empty(qs[k]) then pending + [k] else pending;
    assert Empty(qs[k]) ==> k !in pending;
    forall i | 0 <= i < |qs| && !Empty(qs[k := q][i]) ensures i in more {
      if i == k {
        assert Empty(qs[k]) ==> more[|pending|] == k;
      } else {
        assert i in pending;
      }
    }
  }

  lemma PendingRemove(pending: seq<nat>, qs: seq<CommandQueue>, k: nat, q: CommandQueue)
    requires PendingOk(pending, qs) && k < |qs| && Empty(q)
    ensures PendingOk(Without(pending, k), qs[k := q])
  {
    WithoutDistinct(pending, k);
    var r, after := Without(pending, k), qs[k := q];
    forall j | 0 <= j < |r| ensures r[j] < |after| && !Empty(after[r[j]]) {
      assert r[j] in r;
      var i :| 0 <= i < |pending| && pending[i] == r[j];
    }
    forall i | 0 <= i < |after| && !Empty(after[i]) ensures i in r {
      assert i != k && i in pending;
    }
  }

  lemma PendingKeep(pending: seq<nat>, qs: seq<CommandQueue>, k: nat, q: CommandQueue)
    requires PendingOk(pending, qs) && k < |qs| && Empty(q) == Empty(qs[k])
    ensures PendingOk(pending, qs[k := q])
  {
  }

  lemma FifoMove(out: seq<(nat, Message)>, qs: seq<CommandQueue>, queued: seq<seq<Message>>, k: nat, q: CommandQueue)
    requires Fifo(out, qs, queued) && k < |qs| && q.ready + q.upcoming == qs[k].ready + qs[k].upcoming
    ensures Fifo(out, qs[k := q], queued)
  {
    assert Of(out, k) + (q.ready + q.upcoming) == Of(out, k) + q.ready + q.upcoming;
    assert Of(out, k) + (qs[k].ready + qs[k].upcoming) == Of(out, k) + qs[k].ready + qs[k].upcoming;
  }

  lemma FifoPop(out: seq<(nat, Message)>, qs: seq<CommandQueue>, queued: seq<seq<Message>>, k: nat)
    requires Fifo(out, qs, queued) && k < |qs| && qs[k].ready != []
    ensures Fifo(out + [(k, qs[k].ready[0])], qs[k := qs[k].(ready := qs[k].ready[1..])], queued)
  {
    var m := qs[k].ready[0];
    OfAppend(out, k, m);
    var more, after := out + [(k, m)], qs[k := qs[k].(ready := qs[k].ready[1..])];
    forall i | 0 <= i < |after| ensures Of(more, i) + after[i].ready + after[i].upcoming == queued[i] {
      assert qs[k].ready == [m] + qs[k].ready[1..];
      assert Of(out, i) + [m] + qs[k].ready[1..] == Of(out, i) + ([m] + qs[k].ready[1..]);
    }
  }

  // Commands bound for the distant future are held back until 2^31 ticks before; no minimum clock is
  // lowered.
  function Raise(m: Message): (r: Message)
    ensures m.minClock <= r.minClock && r == m.(minClock := r.minClock)
  {
    if m.minClock + 0x8000_0000 < m.reqClock && m.reqClock != BACKGROUND_PRIORITY_CLOCK
    then m.(minClock := m.reqClock - 0x8000_0000) else m
  }

  // A message with a clock of its own leaves no earlier than 2^31 ticks before that clock, so that 32 bits
  // tell the clock when it arrives, and no later than that requires; background messages are not held back.
  lemma RaisedJustEnough(m: Message, c: int)
    ensures m.reqClock != BACKGROUND_PRIORITY_CLOCK ==> m.reqClock - Raise(m).minClock <= 0x8000_0000
    ensures m.minClock <= c && m.reqClock - c <= 0x8000_0000 ==> Raise(m).minClock <= c
    ensures m.reqClock == BACKGROUND_PRIORITY_CLOCK ==> Raise(m) == m
  {
  }

  function RaiseAll(ms: seq<Message>): (r: seq<Message>)
    ensures |r| == |ms|
  {
    seq(|ms|, i requires 0 <= i < |ms| => Raise(ms[i]))
  }

  lemma {:induction false} RaiseBytes(ms: seq<Message>)
    ensures Bytes(RaiseAll(ms)) == Bytes(ms)
  {
    if ms != [] {
      RaiseBytes(ms[..|ms| - 1]);
      assert RaiseAll(ms)[..|ms| - 1] == RaiseAll(ms[..|ms| - 1]);
    }
  }

  function NoQueues(n: nat): (qs: seq<CommandQueue>)
    ensures |qs| == n && forall i :: 0 <= i < n ==> qs[i] == CommandQueue([], [])
    ensures ReadyBytes(qs) == 0 && UpcomingBytes(qs) == 0
  {
    var qs := seq(n, _ => CommandQueue([], []));
    NoBytes(qs);
    qs
  }

  lemma FreshIsOk(qs: seq<CommandQueue>, queued: seq<seq<Message>>)
    requires |qs| == |queued| && forall i :: 0 <= i < |qs| ==> qs[i] == CommandQueue([], []) && queued[i] == []
    ensures PendingOk([], qs) && Fifo([], qs, queued) && forall i :: 0 <= i < |qs| ==> AllOk(qs[i])
    ensures BlockBytes([]) == 0 && SentOk([], 1)
  {
  }

  // Exactly what is due has become ready, in order: nothing that did may only be sent after
  // ackClock, and what is upcoming must wait.
  predicate Settled(q: CommandQueue, before: CommandQueue, ackClock: int) {
    && q.ready + q.upcoming == before.ready + before.upcoming && |before.ready| <= |q.ready|
    && (forall i :: |before.ready| <= i < |q.ready| ==> q.ready[i].minClock <= ackClock)
    && (q.upcoming != [] ==> ackClock < q.upcoming[0].minClock)
  }

  // No ready message was to wait beyond the clock.
  predicate ReadyDue(q: CommandQueue, clock: int) { forall m :: m in q.ready ==> m.minClock <= clock }

  // Each message left at a clock not before its minimum clock, and they left in order.
  predicate LeftOk(out: seq<(nat, Message)>, leftAt: seq<int>, clock: int) {
    && |leftAt| == |out|
    && (forall i :: 0 <= i < |out| ==> out[i].1.minClock <= leftAt[i] <= clock)
    && forall i, j :: 0 <= i < j < |leftAt| ==> leftAt[i] <= leftAt[j]
  }

  // The rest left at the given clock.
  predicate LeftNow(before: seq<int>, leftAt: seq<int>, clock: int) {
    before <= leftAt && forall i :: |before| <= i < |leftAt| ==> leftAt[i] == clock
  }

  lemma LeftAppend(out: seq<(nat, Message)>, leftAt: seq<int>, clock: int, k: nat, m: Message)
    requires LeftOk(out, leftAt, clock) && m.minClock <= clock
    ensures LeftOk(out + [(k, m)], leftAt + [clock], clock)
  {
  }

  lemma LaterClock(q: CommandQueue, clock: int, clock': int)
    requires ReadyDue(q, clock) && clock <= clock'
    ensures ReadyDue(q, clock')
  {
  }

  predicate AllSettled(qs: seq<CommandQueue>, before: seq<CommandQueue>, ackClock: int) {
    |qs| == |before| && forall k :: 0 <= k < |qs| ==> Settled(qs[k], before[k], ackClock)
  }

  // When a ready message is wanted; background messages whenever bgClock is.
  function WantedAt(m: Message, bgClock: int): int {
    if m.reqClock == BACKGROUND_PRIORITY_CLOCK then bgClock else m.reqClock
  }

  // The head of ready queue k is wanted by the clock.
  predicate ReadyBy(qs: seq<CommandQueue>, k: int, bgClock: int, clock: int) {
    && 0 <= k < |qs| && qs[k].ready != []
    && (qs[k].ready[0].reqClock != BACKGROUND_PRIORITY_CLOCK ==> qs[k].ready[0].reqClock <= clock)
    && (qs[k].ready[0].reqClock == BACKGROUND_PRIORITY_CLOCK ==> bgClock <= clock)
  }

  ghost predicate SomeReadyBy(qs: seq<CommandQueue>, bgClock: int, clock: int) {
    exists k :: ReadyBy(qs, k, bgClock, clock)
  }

  // A full block is ready, or a message whose time is near; while the clock is unknown, any message.
  ghost predicate WantsToSend(qs: seq<CommandQueue>, readyBytes: int, times: Times, reqclockDelta: Option<int>) {
    || readyBytes >= MESSAGE_PAYLOAD_MAX
    || (if reqclockDelta == None then readyBytes != 0
        else SomeReadyBy(qs, times.bgClock, times.ackClock + reqclockDelta.value))
  }

  // What is due is ready, and what is ready need not be sent yet.
  ghost predicate NothingToSend(qs: seq<CommandQueue>, readyBytes: int, times: Times, reqclockDelta: Option<int>) {
    && !WantsToSend(qs, readyBytes, times, reqclockDelta)
    && forall k :: 0 <= k < |qs| && qs[k].upcoming != [] ==> times.ackClock < qs[k].upcoming[0].minClock
  }

  lemma NothingLeft(qs: seq<CommandQueue>, before: seq<CommandQueue>, readyBytes: int, times: Times,
                    reqclockDelta: Option<int>)
    requires AllSettled(qs, before, times.ackClock) && !WantsToSend(qs, readyBytes, times, reqclockDelta)
    ensures NothingToSend(qs, readyBytes, times, reqclockDelta)
  {
    hide WantsToSend;
    forall k | 0 <= k < |qs| && qs[k].upcoming != [] ensures times.ackClock < qs[k].upcoming[0].minClock {
      assert Settled(qs[k], before[k], times.ackClock);
    }
  }

  // The heads of the queue are not before the given clocks.
  predicate ClocksFrom(q: CommandQueue, bgClock: int, stalled: int, ready: int) {
    && (q.upcoming != [] ==> stalled <= q.upcoming[0].minClock)
    && (q.ready != [] && q.ready[0].reqClock != BACKGROUND_PRIORITY_CLOCK ==> ready <= q.ready[0].reqClock)
    && (q.ready != [] && q.ready[0].reqClock == BACKGROUND_PRIORITY_CLOCK ==> ready <= bgClock)
  }

  // Before wantClock no ready message is within delta of its time and no upcoming one becomes due.
  predicate NothingBefore(qs: seq<CommandQueue>, bgClock: int, delta: int, wantClock: int) {
    forall k :: 0 <= k < |qs| ==> ClocksFrom(qs[k], bgClock, wantClock, wantClock + delta)
  }

  lemma LowerClocks(q: CommandQueue, bgClock: int, stalled: int, ready: int, stalled': int, ready': int)
    requires ClocksFrom(q, bgClock, stalled, ready) && stalled' <= stalled && ready' <= ready
    ensures ClocksFrom(q, bgClock, stalled', ready')
  {
  }

  lemma EmptySettled(q: CommandQueue, times: Times, stalled: int, ready: int)
    requires Empty(q)
    ensures Settled(q, q, times.ackClock) && ClocksFrom(q, times.bgClock, stalled, ready)
  {
  }

  // One round of the loop over the pending queues.
  lemma QueueSettled(before: seq<CommandQueue>, qs: seq<CommandQueue>, k: nat, times: Times,
                     stalled0: int, ready0: int, stalled: int, ready: int)
    requires k < |qs| == |before| && Settled(qs[k], before[k], times.ackClock)
    requires forall i :: 0 <= i < |qs| && i != k ==> qs[i] == before[i]
    requires stalled == if qs[k].upcoming != [] then IMin(stalled0, qs[k].upcoming[0].minClock) else stalled0
    requires ready == if qs[k].ready != [] then IMin(ready0, WantedAt(qs[k].ready[0], times.bgClock)) else ready0
    requires ready0 == MAX_CLOCK || exists i :: ReadyBy(before, i, times.bgClock, ready0)
    ensures ClocksFrom(qs[k], times.bgClock, stalled, ready) && stalled <= stalled0 && ready <= ready0
    ensures ready == MAX_CLOCK || exists i :: ReadyBy(qs, i, times.bgClock, ready)
  {
    if ready == ready0 && ready0 != MAX_CLOCK {
      var i :| ReadyBy(before, i, times.bgClock, ready0);
      if i != k {
        assert ReadyBy(qs, i, times.bgClock, ready);
      } else {
        assert before[k].ready[0] == (before[k].ready + before[k].upcoming)[0] == qs[k].ready[0];
        assert ReadyBy(qs, k, times.bgClock, ready);
      }
    } else if ready != MAX_CLOCK {
      assert ReadyBy(qs, k, times.bgClock, ready);
    }
  }

  class SerialQueue {
    const receiveWindow: nat
    var sendSeq: int
    var receiveSeq: int
    var lastAckSeq: int
    var sentQueue: seq<Sent>
    var needAckBytes: int
    var lastAckBytes: int
    var queues: seq<CommandQueue>
    var pending: seq<nat>           // pending_queues
    var readyBytes: int
    var upcomingBytes: int
    var notifyQueue: seq<Notify>
    var fired: seq<Notify>          // notifications put on receive_queue
    ghost var queued: seq<seq<Message>>       // everything sent to each command queue
    ghost var out: seq<(nat, Message)>        // everything that went into blocks, in order
    ghost var requested: seq<Notify>          // all notifications of built blocks, in order
    ghost var clock: int                      // the latest clock the mcu was estimated to have
    ghost var leftAt: seq<int>                // that clock when each message of out left

    ghost predicate WindowOk()
      reads `sendSeq, `receiveSeq, `sentQueue, `needAckBytes, `lastAckBytes
    {
      && 1 <= receiveSeq && |sentQueue| == sendSeq - receiveSeq <= MAX_PENDING_BLOCKS
      && 0 <= lastAckBytes && SentOk(sentQueue, receiveSeq) && needAckBytes == BlockBytes(sentQueue)
      && (receiveWindow != 0 ==> needAckBytes <= IMax(receiveWindow, MESSAGE_MAX))
    }

    ghost predicate QueuesOk()
      reads `queues, `pending, `readyBytes, `upcomingBytes, `queued, `out, `clock, `leftAt
    {
      && readyBytes == ReadyBytes(queues) && upcomingBytes == UpcomingBytes(queues)
      && PendingOk(pending, queues) && Fifo(out, queues, queued) && LeftOk(out, leftAt, clock)
      && forall i :: 0 <= i < |queues| ==> AllOk(queues[i]) && ReadyDue(queues[i], clock)
    }

    ghost predicate NotifyOk()
      reads `notifyQueue, `fired, `requested, `sendSeq
    {
      && NotifyOrdered(notifyQueue) && fired + notifyQueue == requested
      && forall n :: n in notifyQueue ==> n.sendSeq < sendSeq
    }

    ghost predicate Valid()
      reads this
    {
      WindowOk() && QueuesOk() && NotifyOk()
    }

    // serialqueue_alloc for a serial port
    constructor (receiveWindow: nat, commandQueues: nat)
      ensures Valid() && sendSeq == receiveSeq == 1 && fired == [] && out == []
      ensures |queues| == commandQueues && queued == seq(commandQueues, _ => [])
    {
      hide ReadyBytes, UpcomingBytes, PendingOk, Fifo, AllOk, BlockBytes, SentOk;
      FreshIsOk(NoQueues(commandQueues), seq(commandQueues, _ => []));
      this.receiveWindow := receiveWindow;
      sendSeq, receiveSeq, lastAckSeq, sentQueue, needAckBytes, lastAckBytes := 1, 1, 0, [], 0, 0;
      queues, pending := NoQueues(commandQueues), [];
      readyBytes, upcomingBytes, notifyQueue, fired := 0, 0, [], [];
      queued, out, requested := seq(commandQueues, _ => []), [], [];
      clock, leftAt := 0, [];
    }

    // serialqueue_send_batch; a batch without any bytes is not queued.
    method SendBatch(k: nat, msgs: seq<Message>)
      requires Valid() && k < |queues| && forall m :: m in msgs ==> MessageOk(m)
      modifies `queues, `pending, `upcomingBytes, `queued
      ensures Valid()
      ensures queued == if Bytes(msgs) == 0 then old(queued) else old(queued)[k := old(queued)[k] + RaiseAll(msgs)]
    {
      hide PendingOk, Fifo, ReadyBytes, UpcomingBytes, Bytes, AllOk, RaiseAll, NotifyOk, WindowOk;
      var batch := RaiseAll(msgs);
      RaiseBytes(msgs);
      var len := Bytes(batch);
      if len == 0 {
        return;
      }
      var q := queues[k].(upcoming := queues[k].upcoming + batch);
      BytesJoin(queues[k].upcoming, batch);
      UpdateBytes(queues, k, q);
      PendingAdd(pending, queues, k, q);
      FifoQueue(out, queues, queued, k, batch);
      FifoLength(out, queues, queued);
      BatchOk(queues[k], msgs);
      if |queues[k].ready| == 0 && |queues[k].upcoming| == 0 {
        pending := pending + [k];
      }
      queues := queues[k := q];
      queued := queued[k := queued[k] + batch];
      upcomingBytes := upcomingBytes + len;
    }

    // The inner loop of check_send_command: move what is due to the ready queue.
    method MoveReady(k: nat, ackClock: int)
      requires QueuesOk() && k < |queues| && ackClock <= clock
      modifies `queues, `readyBytes, `upcomingBytes
      ensures QueuesOk() && |queues| == |old(queues)|
      ensures forall i :: 0 <= i < |queues| && i != k ==> queues[i] == old(queues)[i]
      ensures Settled(queues[k], old(queues)[k], ackClock)
    {
      hide PendingOk, Fifo, ReadyBytes, UpcomingBytes;
      while |queues[k].upcoming| > 0
        invariant QueuesOk() && |queues| == |old(queues)|
        invariant forall i :: 0 <= i < |queues| && i != k ==> queues[i] == old(queues)[i]
        invariant queues[k].ready + queues[k].upcoming == old(queues)[k].ready + old(queues)[k].upcoming
        invariant |old(queues)[k].ready| <= |queues[k].ready|
        invariant forall i :: |old(queues)[k].ready| <= i < |queues[k].ready| ==>
          queues[k].ready[i].minClock <= ackClock
        decreases |queues[k].upcoming|
      {
        var qm := queues[k].upcoming[0];
        if ackClock < qm.minClock {
          break;
        }
        MoveOne(k);
      }
    }

    // Move one message from the upcoming to the ready queue.
    method MoveOne(k: nat)
      requires QueuesOk() && k < |queues| && queues[k].upcoming != [] && queues[k].upcoming[0].minClock <= clock
      modifies `queues, `readyBytes, `upcomingBytes
      ensures QueuesOk()
      ensures queues == old(queues)[k := CommandQueue(old(queues)[k].upcoming[1..],
                                                      old(queues)[k].ready + [old(queues)[k].upcoming[0]])]
      ensures queues[k].ready + queues[k].upcoming == old(queues)[k].ready + old(queues)[k].upcoming
    {
      hide PendingOk, Fifo, ReadyBytes, UpcomingBytes;
      var qm := queues[k].upcoming[0];
      var q := CommandQueue(queues[k].upcoming[1..], queues[k].ready + [qm]);
      assert q.ready + q.upcoming == queues[k].ready + queues[k].upcoming by {
        assert queues[k].upcoming == [qm] + queues[k].upcoming[1..];
      }
      BytesAppend(queues[k].ready, qm);
      BytesHead(queues[k].upcoming);
      UpdateBytes(queues, k, q);
      PendingKeep(pending, queues, k, q);
      FifoMove(out, queues, queued, k, q);
      MoveKeepsOk(queues[k]);
      queues := queues[k := q];
      upcomingBytes := upcomingBytes - |qm.payload|;
      readyBytes := readyBytes + |qm.payload|;
    }

    // The tests of check_send_command for the window and for the receive buffer of the mcu.
    predicate HasRoom()
      reads `sendSeq, `receiveSeq, `needAckBytes, `lastAckSeq, `lastAckBytes
    {
      && sendSeq - receiveSeq < MAX_PENDING_BLOCKS
      && (sendSeq > receiveSeq && receiveWindow != 0 ==>
            needAckBytes + MESSAGE_MAX + (if lastAckSeq < receiveSeq then lastAckBytes else 0) <= receiveWindow)
    }

    // There is room exactly when fewer than MAX_PENDING_BLOCKS are unacknowledged, and the mcu's receive
    // buffer holds them and one more of any size, with the last acknowledged one while only a data message
    // has acknowledged it.
    lemma RoomIs()
      requires WindowOk()
      ensures HasRoom() <==>
        && |sentQueue| < MAX_PENDING_BLOCKS
        && (sentQueue == [] || receiveWindow == 0
            || BlockBytes(sentQueue) + MESSAGE_MAX + (if receiveSeq <= lastAckSeq then 0 else lastAckBytes)
               <= receiveWindow)
      ensures sentQueue == [] ==> HasRoom()
    {
    }

    // check_send_command: whether a block is to be sent now, and if not, the clock to look again.
    // reqclockDelta is None while the mcu frequency is unknown.
    method CheckSendCommand(times: Times, reqclockDelta: Option<int>) returns (now: bool, wantClock: int)
      requires Valid() && (reqclockDelta.Some? ==> times.ackClock + reqclockDelta.value < MAX_CLOCK)
      modifies `queues, `readyBytes, `upcomingBytes, `clock
      ensures Valid() && queued == old(queued) && out == old(out)
      ensures clock == if HasRoom() then IMax(old(clock), times.ackClock) else old(clock)
      ensures !HasRoom() ==> !now && queues == old(queues)
      ensures HasRoom() ==> AllSettled(queues, old(queues), times.ackClock)
      ensures HasRoom() ==> (now <==> WantsToSend(queues, readyBytes, times, reqclockDelta))
      ensures HasRoom() && !now && reqclockDelta.Some? ==>
        NothingBefore(queues, times.bgClock, reqclockDelta.value, wantClock)
    {
      hide QueuesOk, SentOk, NotifyOk, BlockBytes;
      now, wantClock := false, MAX_CLOCK;
      if sendSeq - receiveSeq >= MAX_PENDING_BLOCKS {
        return;
      }
      if sendSeq > receiveSeq && receiveWindow != 0 {
        var bytes := needAckBytes + MESSAGE_MAX;
        if lastAckSeq < receiveSeq {
          bytes := bytes + lastAckBytes;
        }
        if bytes > receiveWindow {
          return;
        }
      }
      var minStalledClock, minReadyClock := SettleQueues(times);
      if readyBytes >= MESSAGE_PAYLOAD_MAX {
        return true, MAX_CLOCK;
      }
      if reqclockDelta == None {
        return readyBytes != 0, MAX_CLOCK;
      }
      if minReadyClock <= times.ackClock + reqclockDelta.value {
        ghost var k :| ReadyBy(queues, k, times.bgClock, minReadyClock);
        assert ReadyBy(queues, k, times.bgClock, times.ackClock + reqclockDelta.value);
        return true, MAX_CLOCK;
      }
      wantClock := IMin(minReadyClock - reqclockDelta.value, minStalledClock);
    }

    // The loop of check_send_command over the pending queues.
    method SettleQueues(times: Times) returns (minStalledClock: int, minReadyClock: int)
      requires Valid()
      modifies `queues, `readyBytes, `upcomingBytes, `clock
      ensures Valid() && queued == old(queued) && out == old(out) && clock == IMax(old(clock), times.ackClock)
      ensures AllSettled(queues, old(queues), times.ackClock)
      ensures forall k :: 0 <= k < |queues| ==> ClocksFrom(queues[k], times.bgClock, minStalledClock, minReadyClock)
      ensures minReadyClock == MAX_CLOCK || exists k :: ReadyBy(queues, k, times.bgClock, minReadyClock)
    {
      hide QueuesOk, NotifyOk, WindowOk, Settled, ClocksFrom;
      ghost var before := queues;
      NoteClock(times.ackClock);
      minStalledClock, minReadyClock := MAX_CLOCK, MAX_CLOCK;
      var j := 0;
      while j < |pending|
        invariant 0 <= j <= |pending| && QueuesOk() && |queues| == |before|
        invariant clock == IMax(old(clock), times.ackClock)
        invariant forall i :: 0 <= i < |queues| && i !in pending[..j] ==> queues[i] == before[i]
        invariant forall i :: 0 <= i < |queues| && i in pending[..j] ==>
          && Settled(queues[i], before[i], times.ackClock)
          && ClocksFrom(queues[i], times.bgClock, minStalledClock, minReadyClock)
        invariant minReadyClock == MAX_CLOCK || exists k :: ReadyBy(queues, k, times.bgClock, minReadyClock)
      {
        var k := pending[j];
        PendingIndex(j);
        assert pending[..j+1] == pending[..j] + [k];
        ghost var stalled0, ready0 := minStalledClock, minReadyClock;
        label L:
        MoveReady(k, times.ackClock);
        if |queues[k].upcoming| > 0 {
          minStalledClock := IMin(minStalledClock, queues[k].upcoming[0].minClock);
        }
        if |queues[k].ready| > 0 {
          var reqClock := queues[k].ready[0].reqClock;
          if reqClock == BACKGROUND_PRIORITY_CLOCK {
            reqClock := times.bgClock;
          }
          minReadyClock := IMin(minReadyClock, reqClock);
        }
        QueueSettled(old@L(queues), queues, k, times, stalled0, ready0, minStalledClock, minReadyClock);
        forall i | 0 <= i < |queues| && i in pending[..j] && i != k
          ensures ClocksFrom(queues[i], times.bgClock, minStalledClock, minReadyClock)
        {
          LowerClocks(queues[i], times.bgClock, stalled0, ready0, minStalledClock, minReadyClock);
        }
        j := j + 1;
      }
      assert pending[..|pending|] == pending;
      forall i | 0 <= i < |queues| && i !in pending
        ensures Settled(queues[i], before[i], times.ackClock)
          && ClocksFrom(queues[i], times.bgClock, minStalledClock, minReadyClock)
      {
        NotPending(i);
        EmptySettled(queues[i], times, minStalledClock, minReadyClock);
      }
    }

    // The clock estimate may be corrected backwards; what is due stays due.
    ghost method NoteClock(ackClock: int)
      requires QueuesOk()
      modifies `clock
      ensures QueuesOk() && clock == IMax(old(clock), ackClock)
    {
      hide PendingOk, Fifo, ReadyBytes, UpcomingBytes, AllOk, ReadyDue;
      forall i | 0 <= i < |queues| ensures ReadyDue(queues[i], IMax(clock, ackClock)) {
        LaterClock(queues[i], clock, IMax(clock, ackClock));
      }
      clock := IMax(clock, ackClock);
    }

    lemma NotPending(i: nat)
      requires QueuesOk() && i < |queues| && i !in pending
      ensures Empty(queues[i])
    {
    }

    lemma ReadyNotNegative()
      requires QueuesOk()
      ensures readyBytes >= 0
    {
    }

    // There is room for one more block of any size.
    ghost predicate MaySend()
      reads `sendSeq, `receiveSeq, `needAckBytes
    {
      && sendSeq - receiveSeq < MAX_PENDING_BLOCKS
      && (sendSeq > receiveSeq && receiveWindow != 0 ==> needAckBytes + MESSAGE_MAX <= receiveWindow)
    }

    lemma PendingIndex(j: nat)
      requires QueuesOk() && j < |pending|
      ensures pending[j] < |queues| && pending[j] !in pending[..j]
    {
    }

    // The message that build_and_send_command takes next: lowest req_clock first.
    method PickMessage() returns (k: nat)
      requires QueuesOk() && readyBytes > 0
      ensures MostUrgent(queues, k)
    {
      hide Fifo, ReadyBytes, UpcomingBytes, Bytes, Distinct;
      SomeReady(queues);
      var minClock, found, j := MAX_CLOCK, false, 0;
      k := 0;
      while j < |pending|
        invariant 0 <= j <= |pending| && minClock <= MAX_CLOCK && (!found ==> minClock == MAX_CLOCK)
        invariant found ==> k < |queues| && queues[k].ready != [] && minClock == queues[k].ready[0].reqClock
        invariant forall i: nat :: i < j ==> HeadFrom(queues[pending[i]], minClock)
      {
        var q := pending[j];
        if |queues[q].ready| > 0 && queues[q].ready[0].reqClock < minClock {
          minClock, found, k := queues[q].ready[0].reqClock, true, q;
        }
        j := j + 1;
      }
      forall i | 0 <= i < |queues| ensures HeadFrom(queues[i], minClock) && HeadBelow(queues[i]) {
        if queues[i].ready != [] {
          assert i in pending;
          assert AllOk(queues[i]) && queues[i].ready[0] in queues[i].ready;
        }
      }
    }

    // The head of the ready queue, if any, is not before the clock.
    static predicate HeadFrom(q: CommandQueue, clock: int) { q.ready != [] ==> clock <= q.ready[0].reqClock }

    static predicate HeadBelow(q: CommandQueue) { q.ready != [] ==> q.ready[0].reqClock < MAX_CLOCK }

    // Take the head of ready queue k.
    method PopReady(k: nat) returns (qm: Message)
      requires QueuesOk() && k < |queues| && queues[k].ready != []
      modifies `queues, `pending, `readyBytes, `out, `leftAt
      ensures QueuesOk() && qm == old(queues)[k].ready[0] && leftAt == old(leftAt) + [clock]
      ensures queues == old(queues)[k := old(queues)[k].(ready := old(queues)[k].ready[1..])]
      ensures readyBytes == old(readyBytes) - |qm.payload| && out == old(out) + [(k, qm)]
      ensures MessageOk(qm) && ReadyCount(queues) == ReadyCount(old(queues)) - 1
    {
      hide PendingOk, Fifo, ReadyBytes, UpcomingBytes, ReadyCount, LeftOk;
      qm := queues[k].ready[0];
      LeftAppend(out, leftAt, clock, k, qm);
      var q := queues[k].(ready := queues[k].ready[1..]);
      BytesHead(queues[k].ready);
      UpdateBytes(queues, k, q);
      FifoPop(out, queues, queued, k);
      PopKeepsOk(queues[k]);
      UpdateCount(queues, k, q);
      assert !Empty(queues[k]);
      if |q.ready| == 0 && |q.upcoming| == 0 {
        PendingRemove(pending, queues, k, q);
        pending := Without(pending, k);
      } else {
        PendingKeep(pending, queues, k, q);
      }
      queues := queues[k := q];
      readyBytes := readyBytes - |qm.payload|;
      out := out + [(k, qm)];
      leftAt := leftAt + [clock];
    }

    // The first half of build_and_send_command: most urgent messages first, while they fit.
    method FillBlock() returns (len: int, messages: seq<Message>)
      requires QueuesOk() && NotifyOk()
      modifies `queues, `pending, `readyBytes, `notifyQueue, `out, `requested, `leftAt
      ensures QueuesOk() && queued == old(queued) && LeftNow(old(leftAt), leftAt, clock)
      ensures len == MESSAGE_HEADER_SIZE + Bytes(messages) <= MESSAGE_MAX - MESSAGE_TRAILER_SIZE
      ensures Noted(notifyQueue, fired, requested, sendSeq)
      ensures requested == old(requested) + NotifiesOf(messages, sendSeq)
      ensures Taken(old(out), out, messages) && old(out) <= out
      ensures ByUrgency(old(queues), out[|old(out)|..]) && queues == AfterTaking(old(queues), out[|old(out)|..])
      ensures IsFull(queues, readyBytes, len)
    {
      hide QueuesOk, NotifyOk, Noted, Taken, NotifiesOf, Bytes, ReadyCount, ByUrgency, AfterTaking, MostUrgent;
      len, messages := MESSAGE_HEADER_SIZE, [];
      ghost var taken: seq<(nat, Message)> := [];
      UrgentNone(queues);
      NotedFirst();
      NothingTaken(out, sendSeq);
      while readyBytes != 0
        invariant QueuesOk() && LeftNow(old(leftAt), leftAt, clock)
        invariant len == MESSAGE_HEADER_SIZE + Bytes(messages) <= MESSAGE_MAX - MESSAGE_TRAILER_SIZE
        invariant Noted(notifyQueue, fired, requested, sendSeq)
        invariant requested == old(requested) + NotifiesOf(messages, sendSeq)
        invariant Taken(old(out), out, messages)
        invariant out == old(out) + taken && ByUrgency(old(queues), taken) && queues == AfterTaking(old(queues), taken)
        decreases ReadyCount(queues)
      {
        ReadyNotNegative();
        var k := PickMessage();
        UrgentIsReady(queues, k);
        if len + |queues[k].ready[0].payload| > MESSAGE_MAX - MESSAGE_TRAILER_SIZE {
          assert IsFull(queues, readyBytes, len);
          break;
        }
        TakenAppend(old(out), out, messages, k, queues[k].ready[0]);
        UrgentNext(old(queues), taken, k);
        taken := taken + [(k, queues[k].ready[0])];
        var qm := PopReady(k);
        BytesAppend(messages, qm);
        NotifiesAppend(messages, qm, sendSeq);
        messages := messages + [qm];
        len := len + |qm.payload|;
        if qm.notifyId != 0 {
          NotedNext(notifyQueue, fired, requested, sendSeq, qm.notifyId);
          notifyQueue := notifyQueue + [Notify(qm.notifyId, sendSeq)];
          requested := requested + [Notify(qm.notifyId, sendSeq)];
        }
      }
      assert out[|old(out)|..] == taken;
    }

    lemma NotedFirst()
      requires NotifyOk()
      ensures Noted(notifyQueue, fired, requested, sendSeq)
    {
    }

    // build_and_send_command: fill one block and account for it.
    method BuildAndSendCommand() returns (len: int)
      requires Valid() && MaySend()
      modifies `sendSeq, `sentQueue, `needAckBytes, `queues, `pending, `readyBytes, `notifyQueue,
        `out, `requested, `leftAt
      ensures Valid() && LeftNow(old(leftAt), leftAt, clock) && old(out) <= out
      ensures MESSAGE_MIN <= len <= MESSAGE_MAX && sendSeq == old(sendSeq) + 1
      ensures |sentQueue| == |old(sentQueue)| + 1 && old(sentQueue) <= sentQueue
      ensures var b := sentQueue[|old(sentQueue)|];
        b.sendSeq == old(sendSeq) && len == BlockLen(b) && Taken(old(out), out, b.messages)
        && requested == old(requested) + NotifiesOf(b.messages, b.sendSeq)
      ensures queued == old(queued)
      ensures ByUrgency(old(queues), out[|old(out)|..]) && queues == AfterTaking(old(queues), out[|old(out)|..])
      ensures IsFull(queues, readyBytes, len - MESSAGE_TRAILER_SIZE)
    {
      hide QueuesOk, SentOk, BlockBytes, Taken, NotifiesOf, ByUrgency, AfterTaking, IsFull;
      var messages;
      len, messages := FillBlock();
      len := len + MESSAGE_TRAILER_SIZE;
      var block := Sent(sendSeq, messages);
      BlockBytesAppend(sentQueue, block);
      SentGrows(sentQueue, receiveSeq, block);
      sendSeq := sendSeq + 1;
      needAckBytes := needAckBytes + len;
      sentQueue := sentQueue + [block];
    }

    // command_event: build blocks as long as there is something to send and room for it, and write
    // them, at most a full write buffer at a time.
    method CommandEvent(times: nat -> Times, reqclockDelta: Option<int>) returns (written: seq<seq<Sent>>)
      requires Valid()
      requires reqclockDelta.Some? ==> forall n :: times(n).ackClock + reqclockDelta.value < MAX_CLOCK
      modifies `sendSeq, `sentQueue, `needAckBytes, `queues, `pending, `readyBytes, `upcomingBytes, `notifyQueue,
        `out, `requested, `clock, `leftAt
      ensures Valid() && old(leftAt) <= leftAt && old(out) <= out && queued == old(queued)
      ensures old(sendSeq) <= sendSeq && Written(old(sentQueue), sentQueue, written, [])
      ensures Taken(old(out), out, Contents(Joined(written)))
      ensures forall i :: 0 <= i < |written| ==> FitsBuffer(written[i])
      ensures HasRoom() ==> exists n: nat :: NothingToSend(queues, readyBytes, times(n), reqclockDelta)
    {
      hide QueuesOk, NotifyOk, SentOk, BlockBytes, BlockLen, Bytes, Joined, Contents;
      hide Written, Taken, NotifiesOf, AllSettled, ReadyBy;
      hide NothingBefore, ByUrgency, AfterTaking, IsFull, WantsToSend, NothingToSend, MostUrgent;
      var buflen, buf := 0, [];
      written := [];
      NothingWritten(sentQueue);
      NothingTaken(out, sendSeq);
      while true
        invariant Valid() && queued == old(queued) && old(leftAt) <= leftAt && old(out) <= out
        invariant 0 <= buflen == BlockBytes(buf) <= MESSAGE_MAX * MAX_PENDING_BLOCKS && (buflen == 0 <==> buf == [])
        invariant old(sendSeq) <= sendSeq && Written(old(sentQueue), sentQueue, written, buf)
        invariant forall i :: 0 <= i < |written| ==> FitsBuffer(written[i])
        invariant Taken(old(out), out, Contents(Joined(written) + buf))
        decreases MAX_PENDING_BLOCKS - (sendSeq - receiveSeq)
      {
        ghost var checked := buflen;
        ghost var before := queues;
        var now, _ := CheckSendCommand(times(buflen), reqclockDelta);
        if HasRoom() && !now {
          NothingLeft(queues, before, readyBytes, times(buflen), reqclockDelta);
        }
        if !now || buflen + MESSAGE_MAX > MESSAGE_MAX * MAX_PENDING_BLOCKS {
          if buflen != 0 {
            BufferWritten(old(sentQueue), sentQueue, written, buf);
            written := written + [buf];
            NothingWritten(sentQueue);
            buflen, buf := 0, [];
          }
          if !now {
            assert Joined(written) + [] == Joined(written);
            assert HasRoom() ==> NothingToSend(queues, readyBytes, times(checked), reqclockDelta);
            break;
          }
        }
        label L:
        var len := BuildAndSendCommand();
        var block := sentQueue[|sentQueue| - 1];
        BlockBytesAppend(buf, block);
        BufferGrows(old(sentQueue), old@L(sentQueue), written, buf, block);
        TakenMore(old(out), old@L(out), out, Contents(Joined(written) + buf), block.messages);
        buflen, buf := buflen + len, buf + [block];
        assert sentQueue == old@L(sentQueue) + [block];
      }
    }

    // retransmit_event: write everything not acknowledged, after one sync byte, within its buffer.
    method RetransmitEvent() returns (buf: seq<Sent>, buflen: int)
      requires Valid()
      ensures buf == sentQueue
      ensures buflen == 1 + BlockBytes(buf) == 1 + needAckBytes <= MESSAGE_MAX * MAX_PENDING_BLOCKS + 1
    {
      hide QueuesOk, NotifyOk, SentOk, BlockBytes;
      RetransmitFits(sentQueue, receiveSeq);
      NothingWritten([]);
      buf, buflen := [], 1;
      for i := 0 to |sentQueue|
        invariant buf == sentQueue[..i] && buflen == 1 + BlockBytes(buf)
      {
        BlockBytesAppend(buf, sentQueue[i]);
        buf, buflen := buf + [sentQueue[i]], buflen + BlockLen(sentQueue[i]);
      }
    }

    // update_receive_seq: drop everything up to the acknowledged block.
    method UpdateReceiveSeq(rseq: int)
      requires WindowOk() && NotifyOk() && receiveSeq < rseq
      modifies `sendSeq, `receiveSeq, `sentQueue, `needAckBytes, `lastAckBytes
      ensures WindowOk() && NotifyOk() && receiveSeq == rseq
      ensures rseq <= old(sendSeq) ==> sendSeq == old(sendSeq) && sentQueue == old(sentQueue)[rseq - old(receiveSeq)..]
      ensures rseq <= old(sendSeq) ==> lastAckBytes == BlockLen(old(sentQueue)[rseq - old(receiveSeq) - 1])
      ensures rseq > old(sendSeq) ==> sendSeq == rseq && sentQueue == [] && lastAckBytes == old(lastAckBytes)
    {
      hide NotifyOrdered;
      var sentSeq := receiveSeq;
      while true
        modifies `sentQueue, `needAckBytes, `lastAckBytes, `sendSeq
        invariant receiveSeq <= sentSeq < rseq && |sentQueue| == sendSeq - sentSeq && sendSeq == old(sendSeq)
        invariant sentQueue == old(sentQueue)[sentSeq - receiveSeq..]
        invariant SentOk(sentQueue, sentSeq) && needAckBytes == BlockBytes(sentQueue) && 0 <= lastAckBytes
        invariant needAckBytes <= old(needAckBytes) && lastAckBytes == old(lastAckBytes)
        decreases |sentQueue|
      {
        if |sentQueue| == 0 {
          // More is acknowledged than this side ever sent.
          sendSeq := rseq;
          break;
        }
        var sent := sentQueue[0];
        SentTail(sentQueue, sentSeq);
        needAckBytes := needAckBytes - BlockLen(sent);
        sentQueue := sentQueue[1..];
        sentSeq := sentSeq + 1;
        if rseq == sentSeq {
          lastAckBytes := BlockLen(sent);
          break;
        }
      }
      receiveSeq := rseq;
    }

    lemma ReceiveInWindow()
      requires WindowOk()
      ensures 1 <= receiveSeq <= sendSeq
    {
    }

    // The block number that the sequence bits of a received message stand for.
    function Acked(nibble: nat): int
      requires receiveSeq >= 0
      reads `receiveSeq
    {
      SerialLink.DecodeAck(nibble, receiveSeq)
    }

    // After a message that acknowledges nothing at all every notification is below the wrapped number.
    lemma AllReleased(len: int)
      requires WindowOk() && NotifyOk() && receiveSeq == 1 && len > MESSAGE_MIN
      requires forall n :: n in notifyQueue ==> n.sendSeq > WakeSeq(receiveSeq, len)
      ensures notifyQueue == [] && fired == requested
    {
      WakeSeqOnlyAcked(receiveSeq, len);
      FirstOf(notifyQueue);
    }

    // handle_message, for a message with the given sequence bits and length.  The result tells
    // whether it was taken into account.
    method HandleMessage(nibble: nat, len: int) returns (ok: bool)
      requires Valid() && MESSAGE_MIN <= len <= MESSAGE_MAX && receiveSeq + SerialLink.SEQ_NUMBERS < TWO64
      modifies `sendSeq, `receiveSeq, `lastAckSeq, `sentQueue, `needAckBytes, `lastAckBytes, `notifyQueue, `fired
      ensures Valid() && requested == old(requested) && old(fired) <= fired
      ensures ok == !(old(Acked(nibble)) > old(sendSeq) && old(receiveSeq) != 1) && (!ok ==> unchanged(this))
      ensures ok ==> receiveSeq == old(Acked(nibble))
      ensures ok && len == MESSAGE_MIN ==>
        && (forall n :: n in notifyQueue ==> n.sendSeq >= receiveSeq)
        && forall i :: |old(fired)| <= i < |fired| ==> fired[i].sendSeq < receiveSeq
      ensures ok && len > MESSAGE_MIN && receiveSeq >= 2 ==>
        && (forall n :: n in notifyQueue ==> n.sendSeq >= receiveSeq - 1)
        && forall i :: |old(fired)| <= i < |fired| ==> fired[i].sendSeq < receiveSeq - 1
      ensures ok && receiveSeq == 1 && len > MESSAGE_MIN ==> fired == requested && notifyQueue == []
      ensures ok ==> lastAckSeq == if len == MESSAGE_MIN then IMax(old(lastAckSeq), receiveSeq) else old(lastAckSeq)
      ensures ok && receiveSeq <= old(sendSeq) ==>
        sendSeq == old(sendSeq) && sentQueue == old(sentQueue)[receiveSeq - old(receiveSeq)..]
      ensures ok && receiveSeq > old(sendSeq) ==> sendSeq == receiveSeq && sentQueue == []
      ensures ok ==> lastAckBytes == if old(receiveSeq) < receiveSeq <= old(sendSeq)
        then BlockLen(old(sentQueue)[receiveSeq - old(receiveSeq) - 1]) else old(lastAckBytes)
    {
      hide QueuesOk, WindowOk, NotifyOk, WakeSeq, BlockLen, NotifyOrdered, SentOk, BlockBytes, SerialLink.DecodeAck;
      ReceiveInWindow();
      ok := true;
      var rseq := SerialLink.DecodeAck(nibble, receiveSeq);
      if rseq != receiveSeq {
        if rseq > sendSeq && receiveSeq != 1 {
          return false;
        }
        UpdateReceiveSeq(rseq);
      }
      WakeSeqOnlyAcked(rseq, len);
      Wake(WakeSeq(rseq, len));
      if receiveSeq == 1 && len > MESSAGE_MIN {
        AllReleased(len);
      }
      if len == MESSAGE_MIN && lastAckSeq < rseq {
        lastAckSeq := rseq;
      }
    }

    // The notify loop of handle_message.
    method Wake(wakeSeq: int)
      requires NotifyOk()
      modifies `notifyQueue, `fired
      ensures NotifyOk() && old(fired) <= fired
      ensures forall n :: n in notifyQueue ==> n.sendSeq > wakeSeq
      ensures forall i :: |old(fired)| <= i < |fired| ==> fired[i].sendSeq <= wakeSeq
    {
      while |notifyQueue| > 0
        invariant NotifyOk() && old(fired) <= fired
        invariant forall i :: |old(fired)| <= i < |fired| ==> fired[i].sendSeq <= wakeSeq
        decreases |notifyQueue|
      {
        var qm := notifyQueue[0];
        if qm.sendSeq > wakeSeq {
          break;
        }
        assert fired + notifyQueue == (fired + [qm]) + notifyQueue[1..];
        notifyQueue := notifyQueue[1..];
        fired := fired + [qm];
      }
    }
  }

  lemma SentTail(bs: seq<Sent>, first: int)
    requires SentOk(bs, first) && bs != []
    ensures SentOk(bs[1..], first + 1) && BlockBytes(bs) == BlockLen(bs[0]) + BlockBytes(bs[1..])
  {
  }

  // The messages of a block are those that left the command queues meanwhile, in order.
  predicate Taken(before: seq<(nat, Message)>, after: seq<(nat, Message)>, messages: seq<Message>) {
    && before <= after && |after| == |before| + |messages|
    && forall i :: 0 <= i < |messages| ==> after[|before| + i].1 == messages[i]
  }

  lemma NothingTaken(out: seq<(nat, Message)>, sendSeq: int)
    ensures Taken(out, out, []) && NotifiesOf([], sendSeq) == [] && Bytes([]) == 0
  {
  }

  lemma TakenMore(before: seq<(nat, Message)>, mid: seq<(nat, Message)>, after: seq<(nat, Message)>,
                  first: seq<Message>, second: seq<Message>)
    requires Taken(before, mid, first) && Taken(mid, after, second)
    ensures Taken(before, after, first + second)
  {
    forall i | 0 <= i < |first + second| ensures after[|before| + i].1 == (first + second)[i] {
      if i < |first| {
        assert after[|before| + i] == mid[|before| + i];
      } else {
        assert after[|before| + i] == after[|mid| + (i - |first|)];
      }
    }
  }

  lemma TakenAppend(before: seq<(nat, Message)>, after: seq<(nat, Message)>, messages: seq<Message>, k: nat, m: Message)
    requires Taken(before, after, messages)
    ensures Taken(before, after + [(k, m)], messages + [m])
  {
  }

  predicate AllOk(q: CommandQueue) {
    (forall m :: m in q.upcoming ==> MessageOk(m)) && (forall m :: m in q.ready ==> MessageOk(m))
  }

  lemma BatchOk(q: CommandQueue, msgs: seq<Message>)
    requires AllOk(q) && forall m :: m in msgs ==> MessageOk(m)
    ensures AllOk(q.(upcoming := q.upcoming + RaiseAll(msgs)))
  {
    forall m | m in RaiseAll(msgs) ensures MessageOk(m) {
      var i :| 0 <= i < |msgs| && m == RaiseAll(msgs)[i];
      assert m == Raise(msgs[i]) && MessageOk(msgs[i]);
    }
  }

  lemma MoveKeepsOk(q: CommandQueue)
    requires AllOk(q) && q.upcoming != []
    ensures AllOk(CommandQueue(q.upcoming[1..], q.ready + [q.upcoming[0]]))
  {
  }

  lemma PopKeepsOk(q: CommandQueue)
    requires AllOk(q) && q.ready != []
    ensures AllOk(q.(ready := q.ready[1..])) && MessageOk(q.ready[0])
  {
    assert q.ready[0] in q.ready;
  }

  lemma FifoQueue(out: seq<(nat, Message)>, qs: seq<CommandQueue>, queued: seq<seq<Message>>, k: nat,
                  batch: seq<Message>)
    requires Fifo(out, qs, queued) && k < |qs|
    ensures Fifo(out, qs[k := qs[k].(upcoming := qs[k].upcoming + batch)], queued[k := queued[k] + batch])
  {
    assert Of(out, k) + qs[k].ready + (qs[k].upcoming + batch) == Of(out, k) + qs[k].ready + qs[k].upcoming + batch;
  }

  lemma FifoLength(out: seq<(nat, Message)>, qs: seq<CommandQueue>, queued: seq<seq<Message>>)
    requires Fifo(out, qs, queued)
    ensures |qs| == |queued|
  {
  }

  lemma {:induction false} NoBytes(qs: seq<CommandQueue>)
    requires forall i :: 0 <= i < |qs| ==> Empty(qs[i])
    ensures ReadyBytes(qs) == 0 && UpcomingBytes(qs) == 0
  {
    if qs != [] {
      NoBytes(qs[..|qs| - 1]);
    }
  }
}
