/**
 Sharing the mcu's move queue between steppers (stepcompress.c): heap_replace and
 steppersync_flush.

 The mcu has a fixed number of move-queue slots.  The heap holds, for every slot, the clock at
 which it becomes free.  A command that takes a slot is given the earliest such clock as its
 minimum transmit time.
 */
module StepperSync {
  import opened Basics
  import opened Protocol

  /* ----- The heap ----- */

  function Parent(i: int): int
    requires i >= 1
  {
    (i - 1) / 2
  }

  predicate HeapAt(s: seq<int>, i: int) { 1 <= i < |s| ==> s[Parent(i)] <= s[i] }

  predicate MinHeap(s: seq<int>) {
    forall i :: 1 <= i < |s| ==> HeapAt(s, i)
  }

  lemma {:induction false} RootIsLeast(s: seq<int>, i: nat)
    requires MinHeap(s) && i < |s|
    ensures s[0] <= s[i]
  {
    if i > 0 {
      assert HeapAt(s, i);
      RootIsLeast(s, Parent(i));
    }
  }

  // Moving the hole from pos to its child changes nothing but the position of the hole.
  lemma HoleMoves(s: seq<int>, pos: nat, child: nat, x: int)
    requires pos < |s| && child < |s| && pos != child
    ensures multiset(s[pos := s[child]][child := x]) == multiset(s[pos := x])
  {
    assert s[pos := s[child]][child := x] == s[pos := x][pos := s[child]][child := x];
  }

  // heap_replace: exactly one root is swapped for the new clock, in a heap that stays a heap.
  method HeapReplace(mc: array<int>, reqClock: int)
    requires mc.Length > 0 && MinHeap(mc[..]) && Bounded(mc[..]) && reqClock <= UINT64_MAX
    modifies mc
    ensures MinHeap(mc[..]) && Bounded(mc[..])
    ensures multiset(mc[..]) == multiset(old(mc[..])) - multiset{old(mc[0])} + multiset{reqClock}
  {
    hide MinHeap, AboveOk, Bounded;
    ghost var s := mc[..];
    RootSwap(s, reqClock);
    AtRoot(s, reqClock);
    ghost var target := multiset(s[0 := reqClock]);
    var nmc, pos := mc.Length, 0;
    while true
      invariant 0 <= pos < nmc == |s| && s == mc[..] && MinHeap(s) && Bounded(s)
      invariant AboveOk(s, pos, reqClock)
      invariant multiset(s[pos := reqClock]) == target
      decreases nmc - pos
    {
      var child1Pos, child2Pos := 2 * pos + 1, 2 * pos + 2;
      var child2Clock := if child2Pos < nmc then mc[child2Pos] else UINT64_MAX;
      var child1Clock := if child1Pos < nmc then mc[child1Pos] else UINT64_MAX;
      BoundedGet(s, child2Pos);
      if reqClock <= child1Clock && reqClock <= child2Clock {
        HeapSet(s, pos, reqClock);
        BoundedSet(s, pos, reqClock);
        mc[pos] := reqClock;
        s := s[pos := reqClock];
        break;
      }
      var childPos, childClock := child2Pos, child2Clock;
      if child1Clock < child2Clock {
        childPos, childClock := child1Pos, child1Clock;
      }
      HeapDown(s, pos, childPos, reqClock);
      BoundedSet(s, pos, childClock);
      mc[pos] := childClock;
      s := s[pos := childClock];
      pos := childPos;
    }
  }

  predicate Bounded(s: seq<int>) { forall i :: 0 <= i < |s| ==> s[i] <= UINT64_MAX }

  lemma BoundedGet(s: seq<int>, i: nat)
    requires Bounded(s)
    ensures i < |s| ==> s[i] <= UINT64_MAX
  {
  }

  lemma BoundedSet(s: seq<int>, i: nat, x: int)
    requires Bounded(s) && i < |s| && x <= UINT64_MAX
    ensures Bounded(s[i := x])
  {
  }

  lemma RootSwap(s: seq<int>, x: int)
    requires |s| > 0
    ensures multiset(s[0 := x]) == multiset(s) - multiset{s[0]} + multiset{x}
  {
  }

  // x may stand at pos as far as its parent is concerned.
  predicate AboveOk(s: seq<int>, pos: nat, x: int) { 0 < pos < |s| ==> s[Parent(pos)] <= x }

  lemma AtRoot(s: seq<int>, x: int)
    ensures AboveOk(s, 0, x)
  {
  }

  // A value between its parent and its children can be stored.
  lemma HeapSet(s: seq<int>, pos: nat, x: int)
    requires MinHeap(s) && pos < |s|
    requires AboveOk(s, pos, x)
    requires 2 * pos + 1 < |s| ==> x <= s[2 * pos + 1]
    requires 2 * pos + 2 < |s| ==> x <= s[2 * pos + 2]
    ensures MinHeap(s[pos := x])
  {
    var t := s[pos := x];
    forall i | 1 <= i < |t| ensures HeapAt(t, i) {
      assert HeapAt(s, i);
      assert Parent(i) == pos ==> i == 2 * pos + 1 || i == 2 * pos + 2;
    }
  }

  // Pulling the smaller child up.
  lemma HeapDown(s: seq<int>, pos: nat, child: nat, x: int)
    requires MinHeap(s) && pos < |s| && child < |s|
    requires child == 2 * pos + 1 || child == 2 * pos + 2
    requires 2 * pos + 1 < |s| ==> s[child] <= s[2 * pos + 1]
    requires 2 * pos + 2 < |s| ==> s[child] <= s[2 * pos + 2]
    requires s[child] <= x
    ensures MinHeap(s[pos := s[child]]) && AboveOk(s[pos := s[child]], child, x)
    ensures multiset(s[pos := s[child]][child := x]) == multiset(s[pos := x])
  {
    if pos > 0 {
      assert HeapAt(s, pos) && HeapAt(s, child);
    }
    HeapSet(s, pos, s[child]);
    HoleMoves(s, pos, child, x);
  }

  /* ----- Slots ----- */

  // One command that takes a slot: the minimum transmit time it was given, and the clock at which
  // the mcu gives the slot back.
  datatype Use = Use(avail: int, free: int)

  function Zeros(n: nat): (s: multiset<int>)
    ensures |s| == n && forall x :: x in s ==> x == 0
  {
    multiset{}[0 := n]
  }

  // When the n slots become free, after the given uses.
  function Slots(n: nat, uses: seq<Use>): multiset<int> {
    if uses == [] then Zeros(n)
    else
      var u := uses[|uses| - 1];
      Slots(n, uses[..|uses| - 1]) - multiset{u.avail} + multiset{u.free}
  }

  // Every use takes over a slot that exists.
  ghost predicate Legal(n: nat, uses: seq<Use>) {
    forall i :: 0 <= i < |uses| ==> uses[i].avail in Slots(n, uses[..i])
  }

  lemma {:induction false} SlotCount(n: nat, uses: seq<Use>)
    requires Legal(n, uses)
    ensures |Slots(n, uses)| == n
  {
    if uses != [] {
      var k := |uses| - 1;
      LegalPrefix(n, uses, k);
      SlotCount(n, uses[..k]);
      assert uses[k].avail in Slots(n, uses[..k]);
    }
  }

  lemma LegalPrefix(n: nat, uses: seq<Use>, k: nat)
    requires Legal(n, uses) && k <= |uses|
    ensures Legal(n, uses[..k])
  {
    hide Slots;
    forall i | 0 <= i < k ensures uses[i].avail in Slots(n, uses[..k][..i]) {
      assert uses[..k][..i] == uses[..i];
    }
  }

  // The slots still taken after time t.
  function Late(uses: seq<Use>, t: int): multiset<int> {
    if uses == [] then multiset{}
    else
      var u := uses[|uses| - 1];
      Late(uses[..|uses| - 1], t) + if u.free > t then multiset{u.free} else multiset{}
  }

  lemma {:induction false} LateIsLate(uses: seq<Use>, t: int, x: int)
    requires x in Late(uses, t)
    ensures x > t
  {
    var u := uses[|uses| - 1];
    if x in Late(uses[..|uses| - 1], t) {
      LateIsLate(uses[..|uses| - 1], t, x);
    }
  }

  lemma {:induction false} LateIsTaken(n: nat, uses: seq<Use>, t: int)
    requires forall i :: 0 <= i < |uses| ==> uses[i].avail <= t
    ensures Late(uses, t) <= Slots(n, uses)
  {
    if uses != [] {
      var k := |uses| - 1;
      LateIsTaken(n, uses[..k], t);
      if uses[k].avail in Late(uses[..k], t) {
        LateIsLate(uses[..k], t, uses[k].avail);
        assert false;
      }
      SwapKeeps(Late(uses[..k], t), Slots(n, uses[..k]), uses[k].avail, uses[k].free);
    }
  }

  // Taking a foreign element out of the larger multiset and adding the same to both.
  lemma SwapKeeps(a: multiset<int>, b: multiset<int>, x: int, y: int)
    requires a <= b && x !in a
    ensures a + multiset{y} <= b - multiset{x} + multiset{y}
    ensures a <= b - multiset{x} + multiset{y}
  {
    assert a <= b - multiset{x};
  }

  // Slots in use at clock t, when command i reaches the mcu at tx[i].
  function InUse(uses: seq<Use>, tx: seq<int>, t: int): nat
    requires |tx| == |uses|
  {
    if uses == [] then 0
    else
      var k := |uses| - 1;
      InUse(uses[..k], tx[..k], t) + if tx[k] <= t < uses[k].free then 1 else 0
  }

  // A command holds a slot from when it reaches the mcu until the clock at which it is done.
  lemma {:induction false} InUseIs(uses: seq<Use>, tx: seq<int>, t: int)
    requires |tx| == |uses|
    ensures InUse(uses, tx, t) == |set k | 0 <= k < |uses| && tx[k] <= t < uses[k].free|
  {
    if uses != [] {
      var n := |uses| - 1;
      InUseIs(uses[..n], tx[..n], t);
      var held := set k | 0 <= k < n && tx[k] <= t < uses[k].free;
      assert held == set k | 0 <= k < n && tx[..n][k] <= t < uses[..n][k].free;
      if tx[n] <= t < uses[n].free {
        assert (set k | 0 <= k < |uses| && tx[k] <= t < uses[k].free) == held + {n};
      } else {
        assert (set k | 0 <= k < |uses| && tx[k] <= t < uses[k].free) == held;
      }
    }
  }

  lemma {:induction false} InUseIsLate(uses: seq<Use>, tx: seq<int>, t: int)
    requires |tx| == |uses|
    ensures InUse(uses, tx, t) <= |Late(uses, t)|
  {
    if uses != [] {
      InUseIsLate(uses[..|uses| - 1], tx[..|uses| - 1], t);
    }
  }

  lemma SubsetSize(a: multiset<int>, b: multiset<int>)
    requires a <= b
    ensures |a| <= |b|
  {
    assert b == a + (b - a);
  }

  // Main theorem: with transmission in order and never before the given minimum time, no more
  // slots are ever in use than the mcu has.
  lemma {:induction false} SlotsSuffice(n: nat, uses: seq<Use>, tx: seq<int>, t: int)
    requires Legal(n, uses) && |tx| == |uses|
    requires forall i :: 0 <= i < |tx| ==> uses[i].avail <= tx[i]
    requires forall i, j :: 0 <= i < j < |tx| ==> tx[i] <= tx[j]
    ensures InUse(uses, tx, t) <= n
  {
    hide Slots, Late;
    if uses != [] {
      var k := |uses| - 1;
      if tx[k] > t {
        LegalPrefix(n, uses, k);
        SlotsSuffice(n, uses[..k], tx[..k], t);
      } else {
        SlotCount(n, uses);
        LateIsTaken(n, uses, t);
        InUseIsLate(uses, tx, t);
        SubsetSize(Late(uses, t), Slots(n, uses));
      }
    }
  }

  /* ----- steppersync_flush ----- */

  // A queued command.  A non-zero minClock marks a command that takes a slot until that clock.
  datatype Command = Command(minClock: int, reqClock: int, payload: seq<int>)

  // A command on its way: the original, and its minimum transmit time.
  datatype Batched = Batched(original: Command, stepper: nat, minClock: int)

  // The commands of one stepper within a batch, in order.
  function Of(batch: seq<Batched>, stepper: nat): seq<Command> {
    if batch == [] then []
    else
      var b := batch[|batch| - 1];
      Of(batch[..|batch| - 1], stepper) + if b.stepper == stepper then [b.original] else []
  }

  // The slot uses of a batch, in order.
  function UsesOf(batch: seq<Batched>): seq<Use> {
    if batch == [] then []
    else
      var b := batch[|batch| - 1];
      UsesOf(batch[..|batch| - 1]) + if b.original.minClock != 0 then [Use(b.minClock, b.original.minClock)] else []
  }

  lemma BatchAppend(batch: seq<Batched>, b: Batched)
    ensures UsesOf(batch + [b])
      == UsesOf(batch) + if b.original.minClock != 0 then [Use(b.minClock, b.original.minClock)] else []
    ensures forall i :: Of(batch + [b], i) == Of(batch, i) + if b.stepper == i then [b.original] else []
  {
    assert (batch + [b])[..|batch|] == batch;
  }

  lemma SlotsAppend(n: nat, uses: seq<Use>, u: Use)
    ensures Slots(n, uses + [u]) == Slots(n, uses) - multiset{u.avail} + multiset{u.free}
  {
    assert (uses + [u])[..|uses|] == uses;
  }

  lemma LegalAppend(n: nat, uses: seq<Use>, u: Use)
    requires Legal(n, uses) && u.avail in Slots(n, uses)
    ensures Legal(n, uses + [u])
    ensures Slots(n, uses + [u]) == Slots(n, uses) - multiset{u.avail} + multiset{u.free}
  {
    hide Slots;
    SlotsAppend(n, uses, u);
    var more := uses + [u];
    forall i | 0 <= i < |more| ensures more[i].avail in Slots(n, more[..i]) {
      assert more[..i] == uses[..i];
    }
  }

  // The head of queue i, if it may be chosen at all.
  predicate Head(queues: seq<seq<Command>>, i: int) {
    0 <= i < |queues| && queues[i] != [] && queues[i][0].reqClock < MAX_CLOCK
  }

  // Nothing in the queues may be sent for moveClock: the most urgent head is a step command that
  // is not due.
  ghost predicate Drained(queues: seq<seq<Command>>, moveClock: int) {
    || (forall i :: !Head(queues, i))
    || exists k :: Head(queues, k) && queues[k][0].minClock != 0 && queues[k][0].reqClock > moveClock
         && forall i :: Head(queues, i) ==> queues[k][0].reqClock <= queues[i][0].reqClock
  }

  function Total(queues: seq<seq<Command>>): nat {
    if queues == [] then 0 else |queues[0]| + Total(queues[1..])
  }

  lemma {:induction false} TotalDrops(queues: seq<seq<Command>>, k: nat)
    requires k < |queues| && queues[k] != []
    ensures Total(queues[k := queues[k][1..]]) == Total(queues) - 1
  {
    if k > 0 {
      TotalDrops(queues[1..], k - 1);
      assert queues[k := queues[k][1..]][1..] == queues[1..][k - 1 := queues[k][1..]];
    }
  }

  lemma EmptyBatch(queues: seq<seq<Command>>)
    ensures Fifo([], queues, queues) && UsesOf([]) == []
  {
  }

  lemma DrainedIf(queues: seq<seq<Command>>, moveClock: int, found: bool, k: nat)
    requires !found ==> forall i :: !Head(queues, i)
    requires found ==> Head(queues, k) && queues[k][0].minClock != 0 && queues[k][0].reqClock > moveClock
    requires found ==> forall i :: Head(queues, i) ==> queues[k][0].reqClock <= queues[i][0].reqClock
    ensures Drained(queues, moveClock)
  {
  }

  // What was queued is either in the batch or still queued, in order, for every stepper.
  predicate Fifo(batch: seq<Batched>, queues: seq<seq<Command>>, before: seq<seq<Command>>) {
    |queues| == |before| && forall i :: 0 <= i < |queues| ==> Of(batch, i) + queues[i] == before[i]
  }

  lemma FifoStep(batch: seq<Batched>, queues: seq<seq<Command>>, before: seq<seq<Command>>, b: Batched)
    requires Fifo(batch, queues, before)
    requires b.stepper < |queues| && queues[b.stepper] != [] && queues[b.stepper][0] == b.original
    ensures Fifo(batch + [b], queues[b.stepper := queues[b.stepper][1..]], before)
  {
    var k := b.stepper;
    var after := queues[k := queues[k][1..]];
    BatchAppend(batch, b);
    forall i | 0 <= i < |after| ensures Of(batch + [b], i) + after[i] == before[i] {
      assert queues[k] == [b.original] + queues[k][1..];
      assert i == k ==> Of(batch, i) + [b.original] + after[i] == Of(batch, i) + queues[i];
    }
  }

  // The queues after the heads of a batch were taken, and whether each of them had the least clock
  // at its turn.
  function Left(queues: seq<seq<Command>>, batch: seq<Batched>): seq<seq<Command>> {
    if batch == [] then queues
    else
      var k, rest := batch[|batch| - 1].stepper, Left(queues, batch[..|batch| - 1]);
      if k < |rest| && rest[k] != [] then rest[k := rest[k][1..]] else rest
  }

  ghost predicate IsLeast(queues: seq<seq<Command>>, k: int) {
    Head(queues, k) && forall i :: Head(queues, i) ==> queues[k][0].reqClock <= queues[i][0].reqClock
  }

  ghost predicate LeastFirst(queues: seq<seq<Command>>, batch: seq<Batched>) {
    batch != [] ==>
      var b, rest := batch[|batch| - 1], Left(queues, batch[..|batch| - 1]);
      LeastFirst(queues, batch[..|batch| - 1]) && IsLeast(rest, b.stepper) && rest[b.stepper][0] == b.original
  }

  lemma LeastNext(queues: seq<seq<Command>>, batch: seq<Batched>, b: Batched)
    requires LeastFirst(queues, batch) && IsLeast(Left(queues, batch), b.stepper)
    requires Left(queues, batch)[b.stepper][0] == b.original
    ensures var now := Left(queues, batch);
      LeastFirst(queues, batch + [b]) && Left(queues, batch + [b]) == now[b.stepper := now[b.stepper][1..]]
  {
    assert (batch + [b])[..|batch|] == batch;
  }

  lemma LeastNone(queues: seq<seq<Command>>)
    ensures LeastFirst(queues, []) && Left(queues, []) == queues
  {
  }

  // What message_alloc_and_encode makes of a command that is not refused.
  predicate CommandOk(c: Command) { c.minClock <= UINT64_MAX && 0 < |c.payload| <= MESSAGE_PAYLOAD_MAX }

  ghost predicate QueuedOk(queues: seq<seq<Command>>) {
    forall i :: 0 <= i < |queues| ==> forall m :: m in queues[i] ==> CommandOk(m)
  }

  lemma HeadTaken(queues: seq<seq<Command>>, k: nat)
    requires QueuedOk(queues) && Head(queues, k)
    ensures CommandOk(queues[k][0]) && QueuedOk(queues[k := queues[k][1..]])
  {
  }

  class StepperSync {
    const moveClocks: array<int>
    var queues: seq<seq<Command>>   // msg_queue of every stepper
    ghost var sent: seq<Batched>    // everything batched so far

    ghost predicate Valid()
      reads this, moveClocks
    {
      && moveClocks.Length > 0 && MinHeap(moveClocks[..]) && Bounded(moveClocks[..])
      && QueuedOk(queues)
      && Legal(moveClocks.Length, UsesOf(sent))
      && multiset(moveClocks[..]) == Slots(moveClocks.Length, UsesOf(sent))
    }

    // steppersync_alloc
    constructor (moveNum: nat, steppers: nat)
      requires moveNum > 0
      ensures Valid() && sent == [] && moveClocks.Length == moveNum && fresh(moveClocks)
      ensures queues == seq(steppers, _ => [])
    {
      moveClocks := new int[moveNum](_ => 0);
      queues := seq(steppers, _ => []);
      sent := [];
      new;
      AllZeros(moveClocks[..]);
    }

    // A command at the end of a stepper's list: a step command from add_move, or one that is to go
    // out in order with the steps.
    method Enqueue(k: nat, c: Command)
      requires Valid() && k < |queues| && CommandOk(c)
      modifies `queues
      ensures Valid() && queues == old(queues)[k := old(queues)[k] + [c]]
    {
      queues := queues[k := queues[k] + [c]];
    }

    // The stepper with the most urgent head, if any.
    method FindLowest() returns (found: bool, k: nat)
      ensures found ==> Head(queues, k)
      ensures found ==> forall i :: Head(queues, i) ==> queues[k][0].reqClock <= queues[i][0].reqClock
      ensures !found ==> forall i :: !Head(queues, i)
    {
      var reqClock := MAX_CLOCK;
      found, k := false, 0;
      for i := 0 to |queues|
        invariant !found ==> reqClock == MAX_CLOCK && forall j :: 0 <= j < i ==> !Head(queues, j)
        invariant found ==> Head(queues, k) && reqClock == queues[k][0].reqClock
        invariant found ==> forall j :: 0 <= j < i && Head(queues, j) ==> reqClock <= queues[j][0].reqClock
      {
        if |queues[i]| > 0 && queues[i][0].reqClock < reqClock {
          found, k := true, i;
          reqClock := queues[i][0].reqClock;
        }
      }
    }

    // steppersync_flush, after every stepper has flushed its steps up to moveClock.
    method Flush(moveClock: int) returns (batch: seq<Batched>)
      requires Valid()
      modifies this, moveClocks
      ensures Valid() && sent == old(sent) + batch
      ensures forall b :: b in batch ==> CommandOk(b.original) && b.original.reqClock < MAX_CLOCK
      ensures Fifo(batch, queues, old(queues))
      ensures LeastFirst(old(queues), batch) && queues == Left(old(queues), batch)
      ensures Drained(queues, moveClock)
    {
      hide LeastFirst, Left, Fifo, Slots, Legal, MinHeap, Of, UsesOf, Drained, Total, QueuedOk, CommandOk, Bounded;
      batch := [];
      EmptyBatch(queues);
      LeastNone(queues);
      while true
        invariant Valid() && sent == old(sent) + batch
        invariant forall b :: b in batch ==> CommandOk(b.original) && b.original.reqClock < MAX_CLOCK
        invariant Fifo(batch, queues, old(queues))
        invariant LeastFirst(old(queues), batch) && queues == Left(old(queues), batch)
        decreases Total(queues)
      {
        var found, k := FindLowest();
        if !found || (queues[k][0].minClock != 0 && queues[k][0].reqClock > moveClock) {
          DrainedIf(queues, moveClock, found, k);
          break;
        }
        var qm := queues[k][0];
        HeadTaken(queues, k);
        var b := TakeSlot(qm, k);
        BatchAppend(batch, b);
        LeastNext(old(queues), batch, b);
        FifoStep(batch, queues, old(queues), b);
        TotalDrops(queues, k);
        batch := batch + [b];
        queues := queues[k := queues[k][1..]];
      }
    }

    // A command that needs a slot takes over the one that is free first.
    method TakeSlot(qm: Command, k: nat) returns (b: Batched)
      requires Valid() && CommandOk(qm)
      modifies this`sent, moveClocks
      ensures Valid() && sent == old(sent) + [b] && b == Batched(qm, k, old(moveClocks[0]))
    {
      hide Slots, Legal, MinHeap, Bounded, Zeros, QueuedOk, UsesOf;
      b := Batched(qm, k, moveClocks[0]);
      BatchAppend(sent, b);
      if qm.minClock != 0 {
        assert moveClocks[0] in moveClocks[..];
        LegalAppend(moveClocks.Length, UsesOf(sent), Use(moveClocks[0], qm.minClock));
        HeapReplace(moveClocks, qm.minClock);
      } else {
        assert UsesOf(sent) + [] == UsesOf(sent);
      }
      sent := sent + [b];
    }

    // Whenever the commands sent so far reach the mcu, in order and not too early, it has slots for them.
    lemma NeverTooMany(tx: seq<int>, t: int)
      requires Valid() && |tx| == |UsesOf(sent)|
      requires forall i :: 0 <= i < |tx| ==> UsesOf(sent)[i].avail <= tx[i]
      requires forall i, j :: 0 <= i < j < |tx| ==> tx[i] <= tx[j]
      ensures InUse(UsesOf(sent), tx, t) <= moveClocks.Length
    {
      SlotsSuffice(moveClocks.Length, UsesOf(sent), tx, t);
    }
  }

  lemma AllZeros(s: seq<int>)
    requires forall i :: 0 <= i < |s| ==> s[i] == 0
    ensures multiset(s) == Zeros(|s|)
  {
    if s != [] {
      var k := |s| - 1;
      AllZeros(s[..k]);
      assert s == s[..k] + [s[k]];
    }
  }
}
