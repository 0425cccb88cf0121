/**
 The go-back-N protocol between host and mcu (serialqueue.c), as a state machine over a lossy
 first-in-first-out link.

 Host steps are those of build_and_send_command, retransmit_event and handle_message.  The wire
 may lose any block or acknowledgement but keeps their order.  The mcu accepts a block if and
 only if its four-bit sequence number is the next one it expects, and answers with the four-bit
 number it expects next.  The model starts synchronised: both sides at sequence number 1.
 */
module SerialLink {
  import opened Protocol

  const SEQ_NUMBERS := 16  // sequence numbers are taken modulo this

  // A block as it was built; only its sequence number modulo 16 is transmitted.
  datatype Block = Block(sendSeq: nat, payload: seq<int>)

  datatype Link = Link(
    sendSeq: nat, receiveSeq: nat,      // host
    built: seq<seq<int>>,               // payloads of all blocks built so far
    wire: seq<Block>,                   // towards the mcu
    accepted: seq<seq<int>>,            // what the mcu accepted
    acks: seq<nat>)                     // towards the host: the mcu's next sequence number

  function NextSeq(s: Link): nat { 1 + |s.accepted| }

  // The block with sequence number n.
  function BlockNo(s: Link, n: nat): Block
    requires 1 <= n <= |s.built|
  {
    Block(n, s.built[n - 1])
  }

  predicate Synced(s: Link) { 1 <= s.receiveSeq <= s.sendSeq == 1 + |s.built| }

  // sent_queue: the blocks that are not acknowledged yet.
  function SentQueue(s: Link): (q: seq<Block>)
    requires Synced(s)
    ensures |q| == s.sendSeq - s.receiveSeq
  {
    seq(s.sendSeq - s.receiveSeq, i requires 0 <= i < s.sendSeq - s.receiveSeq => BlockNo(s, s.receiveSeq + i))
  }

  lemma SentQueueAt(s: Link, i: nat)
    requires Synced(s) && i < s.sendSeq - s.receiveSeq
    ensures SentQueue(s)[i] == BlockNo(s, s.receiveSeq + i)
  {
  }

  // The sequence number that handle_message reconstructs from four bits.
  function DecodeAck(nibble: nat, receiveSeq: nat): (rseq: nat)
    ensures receiveSeq <= rseq < receiveSeq + SEQ_NUMBERS
  {
    receiveSeq + (nibble - receiveSeq) % SEQ_NUMBERS
  }

  datatype Op =
    | Build(payload: seq<int>)   // a new block is built and sent
    | Retransmit                 // all unacknowledged blocks are sent again
    | LoseBlock(i: nat)
    | Deliver                    // the first block on the wire reaches the mcu, which answers
    | Answer                     // the mcu sends some other message
    | LoseAck(i: nat)
    | ReceiveAck                 // the first message towards the host arrives

  const START := Link(1, 1, [], [], [], [])

  // An operation that cannot happen in a state leaves it unchanged.
  function Step(s: Link, op: Op): Link
    requires Synced(s)
  {
    match op
    case Build(payload) =>
      if s.sendSeq - s.receiveSeq >= MAX_PENDING_BLOCKS then s
      else s.(sendSeq := s.sendSeq + 1, built := s.built + [payload], wire := s.wire + [Block(s.sendSeq, payload)])
    case Retransmit => s.(wire := s.wire + SentQueue(s))
    case LoseBlock(i) => if i < |s.wire| then s.(wire := s.wire[..i] + s.wire[i + 1..]) else s
    case Deliver =>
      if s.wire == [] then s
      else
        var s1 := McuReceive(s, s.wire[0]).(wire := s.wire[1..]);
        s1.(acks := s1.acks + [NextSeq(s1)])
    case Answer => s.(acks := s.acks + [NextSeq(s)])
    case LoseAck(i) => if i < |s.acks| then s.(acks := s.acks[..i] + s.acks[i + 1..]) else s
    case ReceiveAck =>
      if s.acks == [] then s
      else HandleAck(s.(acks := s.acks[1..]), s.acks[0] % SEQ_NUMBERS)
  }

  function McuReceive(s: Link, b: Block): Link {
    if b.sendSeq % SEQ_NUMBERS == NextSeq(s) % SEQ_NUMBERS then s.(accepted := s.accepted + [b.payload]) else s
  }

  // handle_message, once receive_seq != 1 or no unknown acknowledgement can arrive
  function HandleAck(s: Link, nibble: nat): Link {
    var rseq := DecodeAck(nibble, s.receiveSeq);
    if rseq > s.sendSeq then s else s.(receiveSeq := rseq)
  }

  /* ----- The invariant ----- */

  predicate HostOk(s: Link) {
    Synced(s) && s.sendSeq - s.receiveSeq <= MAX_PENDING_BLOCKS && s.receiveSeq <= NextSeq(s) <= s.sendSeq
  }

  // Blocks on the wire are genuine, and none is so old that its four bits could be mistaken.
  predicate WireOk(s: Link) {
    && (forall k :: 0 <= k < |s.wire| ==> WireBlockOk(s, s.wire[k]))
    && (forall j, k :: 0 <= j < k < |s.wire| ==> s.wire[j].sendSeq < s.wire[k].sendSeq + MAX_PENDING_BLOCKS)
  }

  predicate WireBlockOk(s: Link, b: Block) {
    && 1 <= b.sendSeq < s.sendSeq && b.sendSeq <= |s.built| && b.payload == s.built[b.sendSeq - 1]
    && NextSeq(s) <= b.sendSeq + MAX_PENDING_BLOCKS
  }

  predicate AcksOk(s: Link) {
    && (forall k :: 0 <= k < |s.acks| ==> s.receiveSeq <= s.acks[k] <= NextSeq(s))
    && (forall j, k :: 0 <= j < k < |s.acks| ==> s.acks[j] <= s.acks[k])
  }

  // The accepted blocks are a prefix of the built ones, each once and in order.
  predicate InOrder(s: Link) { s.accepted <= s.built }

  predicate Inv(s: Link) { HostOk(s) && WireOk(s) && AcksOk(s) && InOrder(s) }

  // Four bits identify a number within a window of less than sixteen.
  lemma NibbleExact(a: int, b: int)
    requires -SEQ_NUMBERS < a - b < SEQ_NUMBERS && a % SEQ_NUMBERS == b % SEQ_NUMBERS
    ensures a == b
  {
  }

  lemma DecodeExact(n: nat, receiveSeq: nat)
    requires receiveSeq <= n < receiveSeq + SEQ_NUMBERS
    ensures DecodeAck(n % SEQ_NUMBERS, receiveSeq) == n
  {
    NibbleExact(DecodeAck(n % SEQ_NUMBERS, receiveSeq), n);
  }

  // Every acknowledgement that arrives is decoded to the number the mcu meant.
  lemma AckDecodesExactly(s: Link, k: nat)
    requires Inv(s) && k < |s.acks|
    ensures DecodeAck(s.acks[k] % SEQ_NUMBERS, s.receiveSeq) == s.acks[k] <= s.sendSeq
  {
    DecodeExact(s.acks[k], s.receiveSeq);
  }

  // The mcu's comparison of four bits tells any block on the wire from the one it waits for.
  lemma AcceptsExactly(s: Link, k: nat)
    requires Inv(s) && k < |s.wire|
    ensures s.wire[k].sendSeq % SEQ_NUMBERS == NextSeq(s) % SEQ_NUMBERS <==> s.wire[k].sendSeq == NextSeq(s)
  {
    var b := s.wire[k];
    assert WireBlockOk(s, b);
    if b.sendSeq % SEQ_NUMBERS == NextSeq(s) % SEQ_NUMBERS {
      NibbleExact(b.sendSeq, NextSeq(s));
    }
  }

  lemma BuildKeepsInv(s: Link, payload: seq<int>)
    requires Inv(s)
    ensures Inv(Step(s, Build(payload)))
  {
    var t := Step(s, Build(payload));
    forall k | 0 <= k < |t.wire| ensures WireBlockOk(t, t.wire[k]) {
      assert k < |s.wire| ==> WireBlockOk(s, s.wire[k]);
    }
  }

  lemma RetransmitKeepsInv(s: Link)
    requires Inv(s)
    ensures Inv(Step(s, Retransmit))
  {
    var t, q, n := Step(s, Retransmit), SentQueue(s), |s.wire|;
    forall k | 0 <= k < |t.wire| ensures WireBlockOk(t, t.wire[k]) {
      if k < n {
        assert WireBlockOk(s, s.wire[k]);
      } else {
        SentQueueAt(s, k - n);
      }
    }
    forall j, k | 0 <= j < k < |t.wire| ensures t.wire[j].sendSeq < t.wire[k].sendSeq + MAX_PENDING_BLOCKS {
      if k >= n {
        SentQueueAt(s, k - n);
        assert WireBlockOk(t, t.wire[j]);
      }
    }
  }

  lemma LoseBlockKeepsInv(s: Link, i: nat)
    requires Inv(s)
    ensures Inv(Step(s, LoseBlock(i)))
  {
    if i < |s.wire| {
      var t := Step(s, LoseBlock(i));
      forall k | 0 <= k < |t.wire| ensures WireBlockOk(t, t.wire[k]) {
        assert WireBlockOk(s, s.wire[if k < i then k else k + 1]);
      }
    }
  }

  lemma DeliverKeepsInv(s: Link)
    requires Inv(s)
    ensures Inv(Step(s, Deliver))
  {
    if s.wire != [] {
      AcceptsExactly(s, 0);
      var t := Step(s, Deliver);
      assert WireBlockOk(s, s.wire[0]);
      forall k | 0 <= k < |t.wire| ensures WireBlockOk(t, t.wire[k]) {
        assert t.wire[k] == s.wire[k + 1] && WireBlockOk(s, s.wire[k + 1]);
        assert s.wire[0].sendSeq < s.wire[k + 1].sendSeq + MAX_PENDING_BLOCKS;
      }
    }
  }

  lemma ReceiveAckKeepsInv(s: Link)
    requires Inv(s)
    ensures Inv(Step(s, ReceiveAck))
    ensures s.acks != [] ==> Step(s, ReceiveAck).receiveSeq == s.acks[0]
  {
    if s.acks != [] {
      AckDecodesExactly(s, 0);
      var t := Step(s, ReceiveAck);
      assert t.wire == s.wire && t.acks == s.acks[1..];
      forall k | 0 <= k < |t.wire| ensures WireBlockOk(t, t.wire[k]) {
        assert WireBlockOk(s, s.wire[k]);
      }
    }
  }

  lemma AckQueueKeepsInv(s: Link, op: Op)
    requires Inv(s) && (op.Answer? || op.LoseAck?)
    ensures Inv(Step(s, op))
  {
    var t := Step(s, op);
    forall k | 0 <= k < |t.wire| ensures WireBlockOk(t, t.wire[k]) {
      assert WireBlockOk(s, s.wire[k]);
    }
  }

  lemma StepKeepsInv(s: Link, op: Op)
    requires Inv(s)
    ensures Inv(Step(s, op))
    ensures s.built <= Step(s, op).built && s.accepted <= Step(s, op).accepted
  {
    match op
    case Build(payload) => BuildKeepsInv(s, payload);
    case Retransmit => RetransmitKeepsInv(s);
    case LoseBlock(i) => LoseBlockKeepsInv(s, i);
    case Deliver => DeliverKeepsInv(s);
    case Answer => AckQueueKeepsInv(s, op);
    case LoseAck(i) => AckQueueKeepsInv(s, op);
    case ReceiveAck => ReceiveAckKeepsInv(s);
  }

  function Run(s: Link, ops: seq<Op>): Link
    requires Inv(s)
    decreases |ops|
  {
    if ops == [] then s
    else
      StepKeepsInv(s, ops[0]);
      Run(Step(s, ops[0]), ops[1..])
  }

  // Main theorem: in every run of losses, retransmissions and acknowledgements, what the mcu
  // accepted is a prefix of what the host built, and at most twelve blocks are unacknowledged.
  lemma {:induction false} RunInOrder(s: Link, ops: seq<Op>)
    requires Inv(s)
    ensures Inv(Run(s, ops))
    ensures s.accepted <= Run(s, ops).accepted && s.built <= Run(s, ops).built
    decreases |ops|
  {
    if ops != [] {
      StepKeepsInv(s, ops[0]);
      RunInOrder(Step(s, ops[0]), ops[1..]);
    }
  }

  lemma StartInOrder(ops: seq<Op>)
    ensures Inv(START) && Run(START, ops).accepted <= Run(START, ops).built
  {
    RunInOrder(START, ops);
  }

  /* ----- Nothing is lost for good ----- */

  function DeliverAll(s: Link): Link
    requires Inv(s)
    decreases |s.wire|
  {
    if s.wire == [] then s
    else
      DeliverKeepsInv(s);
      DeliverAll(Step(s, Deliver))
  }

  // The last blocks on the wire are numbers n .. sendSeq, in order.
  predicate EndsWithRest(s: Link, n: nat) {
    && 1 <= n <= s.sendSeq && |s.wire| >= s.sendSeq - n
    && forall k :: |s.wire| - (s.sendSeq - n) <= k < |s.wire| ==> s.wire[k].sendSeq == s.sendSeq - (|s.wire| - k)
  }

  lemma {:induction false} RestArrives(s: Link, n: nat)
    requires Inv(s) && EndsWithRest(s, n) && n <= NextSeq(s)
    ensures NextSeq(DeliverAll(s)) == s.sendSeq && DeliverAll(s).built == s.built && DeliverAll(s).sendSeq == s.sendSeq
    decreases |s.wire|
  {
    if s.wire != [] {
      DeliverKeepsInv(s);
      AcceptsExactly(s, 0);
      var t := Step(s, Deliver);
      if |s.wire| > s.sendSeq - n {
        assert EndsWithRest(t, n);
        RestArrives(t, n);
      } else {
        assert s.wire[0].sendSeq == n;
        assert EndsWithRest(t, n + 1);
        RestArrives(t, n + 1);
      }
    }
  }

  // From any reachable state, one retransmission that gets through completes the transfer.
  lemma RetransmitRecovers(s: Link)
    requires Inv(s)
    ensures Inv(Step(s, Retransmit)) && DeliverAll(Step(s, Retransmit)).accepted == s.built
  {
    var t := Step(s, Retransmit);
    RetransmitKeepsInv(s);
    forall k | |s.wire| <= k < |t.wire| ensures t.wire[k].sendSeq == s.sendSeq - (|t.wire| - k) {
      SentQueueAt(s, k - |s.wire|);
    }
    RestArrives(t, s.receiveSeq);
    DeliverAllKeepsInv(t);
  }

  lemma {:induction false} DeliverAllKeepsInv(s: Link)
    requires Inv(s)
    ensures Inv(DeliverAll(s))
    decreases |s.wire|
  {
    if s.wire != [] {
      DeliverKeepsInv(s);
      DeliverAllKeepsInv(Step(s, Deliver));
    }
  }
}
