/**
 The mutex between greenlets (reactor.py, class ReactorMutex) under any interleaving of their steps.

 A greenlet that has to wait pauses inside __enter__; being woken, for whatever reason, is a step of
 its own.  An update_timer to NOW puts a greenlet among those the dispatch loop will wake.
 */
module ReactorMutex {
  import opened Basics

  type Greenlet = nat

  // One step of some greenlet.
  datatype Step = Enter(g: Greenlet) | Wake(g: Greenlet) | Exit(g: Greenlet)

  // The fields of the mutex, and what the greenlets have done: who is between taking the lock and
  // releasing it, and the order of all calls of __enter__ and of all times the lock was taken.
  datatype Lock = Lock(
    isLocked: bool, nextPending: bool, queue: seq<Greenlet>, due: set<Greenlet>,
    holders: seq<Greenlet>, arrived: seq<Greenlet>, granted: seq<Greenlet>)

  predicate Ok(s: Lock) {
    // never two holders, and none while the lock is being handed over
    && |s.holders| <= 1 && (s.nextPending ==> s.holders == [])
    && (s.isLocked <==> s.holders != [] || s.nextPending)
    // a hand-over waits for the head, which will be woken
    && (s.nextPending ==> s.queue != [] && s.queue[0] in s.due)
    && (s.queue != [] ==> s.isLocked)
    // first come, first served
    && s.arrived == s.granted + s.queue
    && (s.holders != [] ==> s.granted != [] && s.holders[0] == s.granted[|s.granted| - 1])
    && (forall i, j :: 0 <= i < j < |s.queue| ==> s.queue[i] != s.queue[j])
    && (forall h :: h in s.holders ==> h !in s.queue)
  }

  function Entered(s: Lock, g: Greenlet): Lock {
    var t := s.(arrived := s.arrived + [g]);
    if s.isLocked then t.(queue := s.queue + [g], due := s.due - {g})
    else t.(isLocked := true, holders := [g], granted := s.granted + [g])
  }

  function Woken(s: Lock, g: Greenlet): Lock {
    var t := s.(due := s.due - {g});
    if s.nextPending && s.queue != [] && s.queue[0] == g then
      t.(nextPending := false, queue := s.queue[1..], holders := [g], granted := s.granted + [g])
    else t
  }

  function Released(s: Lock): Lock {
    if s.queue == [] then s.(holders := [], isLocked := false)
    else s.(holders := [], nextPending := true, due := s.due + {s.queue[0]})
  }

  // A greenlet enters when it neither waits nor holds the lock, is woken while it waits, and leaves
  // while it holds the lock.
  predicate Possible(s: Lock, step: Step) {
    match step
    case Enter(g) => g !in s.queue && g !in s.holders
    case Wake(g) => g in s.queue
    case Exit(g) => g in s.holders
  }

  // Steps that cannot happen are passed over.
  function Stepped(s: Lock, step: Step): Lock {
    if !Possible(s, step) then s
    else
      match step
      case Enter(g) => Entered(s, g)
      case Wake(g) => Woken(s, g)
      case Exit(g) => Released(s)
  }

  function AfterAll(s: Lock, steps: seq<Step>): Lock {
    if steps == [] then s else Stepped(AfterAll(s, steps[..|steps| - 1]), steps[|steps| - 1])
  }

  lemma StepKeeps(s: Lock, step: Step)
    requires Ok(s)
    ensures var t := Stepped(s, step);
      && Ok(t) && s.arrived <= t.arrived && s.granted <= t.granted
      && (t.arrived != s.arrived <==> step.Enter? && Possible(s, step))
  {
    if Possible(s, step) {
      match step
      case Enter(g) =>
        assert s.granted + (s.queue + [g]) == s.granted + s.queue + [g];
      case Wake(g) =>
        assert s.queue == [s.queue[0]] + s.queue[1..];
      case Exit(g) =>
    }
  }

  // Main theorem: under any interleaving there are never two holders, a lock that is wanted is held or
  // being handed to a greenlet that will be woken, and the lock goes round in the order of arrival.
  lemma {:induction false} RunKeeps(s: Lock, steps: seq<Step>)
    requires Ok(s)
    ensures var t := AfterAll(s, steps);
      Ok(t) && s.arrived <= t.arrived && s.granted <= t.granted <= t.arrived
  {
    hide Stepped;
    if steps != [] {
      RunKeeps(s, steps[..|steps| - 1]);
      StepKeeps(AfterAll(s, steps[..|steps| - 1]), steps[|steps| - 1]);
    }
  }

  class Mutex {
    var isLocked: bool
    var nextPending: bool
    var queue: seq<Greenlet>
    var due: set<Greenlet>  // greenlets whose timer is set to NOW
    var holders: seq<Greenlet>
    var arrived: seq<Greenlet>
    var granted: seq<Greenlet>

    ghost function View(): Lock
      reads this
    {
      Lock(isLocked, nextPending, queue, due, holders, arrived, granted)
    }

    ghost predicate Valid()
      reads this
    {
      Ok(View())
    }

    // A mutex can be created locked by its owner.
    constructor (owner: Option<Greenlet>)
      ensures Valid() && isLocked == owner.Some? && queue == []
      ensures arrived == holders == if owner.Some? then [owner.value] else []
    {
      isLocked, nextPending, queue, due := owner.Some?, false, [], {};
      holders := if owner.Some? then [owner.value] else [];
      arrived := if owner.Some? then [owner.value] else [];
      granted := if owner.Some? then [owner.value] else [];
    }

    // __enter__ up to its return or its first pause.
    method EnterStep(g: Greenlet) returns (taken: bool)
      requires Valid() && g !in queue && g !in holders
      modifies this
      ensures View() == Entered(old(View()), g)
      ensures Valid() && arrived == old(arrived) + [g] && granted == old(granted) + if taken then [g] else []
      ensures taken <==> !old(isLocked)
      ensures if taken then holders == [g] && queue == old(queue)
              else holders == old(holders) && queue == old(queue) + [g]
      ensures nextPending == old(nextPending)
    {
      arrived := arrived + [g];
      if !isLocked {
        isLocked := true;
        holders, granted := [g], granted + [g];
        return true;
      }
      queue := queue + [g];
      due := due - {g};
      return false;
    }

    // A paused greenlet is woken and looks whether it is its turn.
    method WakeStep(g: Greenlet) returns (taken: bool)
      requires Valid() && g in queue
      modifies this
      ensures View() == Woken(old(View()), g)
      ensures Valid() && isLocked && arrived == old(arrived) && granted == old(granted) + if taken then [g] else []
      ensures taken <==> old(nextPending) && g == old(queue)[0]
      ensures if taken then holders == [g] && queue == old(queue)[1..] && !nextPending
              else holders == old(holders) && queue == old(queue) && nextPending == old(nextPending)
    {
      due := due - {g};
      if nextPending && queue[0] == g {
        nextPending := false;
        queue := queue[1..];
        holders, granted := [g], granted + [g];
        return true;
      }
      return false;
    }

    // __exit__
    method ExitStep(g: Greenlet)
      requires Valid() && holders == [g]
      modifies this
      ensures View() == Released(old(View()))
      ensures Valid() && holders == [] && queue == old(queue) && arrived == old(arrived) && granted == old(granted)
      ensures isLocked == nextPending == (queue != [])
    {
      holders := [];
      if queue == [] {
        isLocked := false;
        return;
      }
      nextPending := true;
      due := due + {queue[0]};
    }

    // Any interleaving.
    method Run(steps: seq<Step>)
      requires Valid()
      modifies this
      ensures Valid() && View() == AfterAll(old(View()), steps)
    {
      hide Ok, Entered, Woken, Released;
      assert steps[..0] == [];
      for i := 0 to |steps|
        invariant Valid() && View() == AfterAll(old(View()), steps[..i])
      {
        assert steps[..i+1][..i] == steps[..i];
        match steps[i] {
          case Enter(g) =>
            if g !in queue && g !in holders {
              var _ := EnterStep(g);
            }
          case Wake(g) =>
            if g in queue {
              var _ := WakeStep(g);
            }
          case Exit(g) =>
            if g in holders {
              HoldersOne(View(), g);
              ExitStep(g);
            }
        }
      }
      assert steps[..|steps|] == steps;
    }
  }

  lemma HoldersOne(s: Lock, g: Greenlet)
    requires Ok(s) && g in s.holders
    ensures s.holders == [g]
  {
  }
}
