/** A counting semaphore whose size can change; waiters are granted in arrival
    order. A call is known by its arrival number. */
module Semaphores {
  import opened Queues

  /** used is the counter; held are the calls that have a slot, waiters those
      that wait for one, next the number the next call gets. */
  datatype Slots = Slots(size: int, used: int, waiters: seq<nat>, held: set<nat>, next: nat)

  function New(size: int): Slots {
    Slots(size, 0, [], {}, 0)
  }

  /** Free slots go to the first waiters. */
  function Grant(s: Slots): Slots
    decreases |s.waiters|
  {
    if s.used < s.size && s.waiters != [] then
      Grant(s.(used := s.used + 1, waiters := s.waiters[1..], held := s.held + {s.waiters[0]}))
    else s
  }

  predicate Free(s: Slots) {
    s.used < s.size && s.waiters == []
  }

  function Take(s: Slots): Slots {
    s.(used := s.used + 1, held := s.held + {s.next}, next := s.next + 1)
  }

  function Wait(s: Slots): Slots {
    s.(waiters := s.waiters + [s.next], next := s.next + 1)
  }

  function Freed(s: Slots, call: nat): Slots {
    Grant(s.(used := s.used - 1, held := s.held - {call}))
  }

  /** What one locked section does. */
  datatype Step = Resize(size: int) | TryAcquire | Acquire | Cancel(call: nat) | Release(call: nat)

  /** A step no call can take leaves s as it is. */
  function After(s: Slots, step: Step): Slots {
    match step
    case Resize(size) => Grant(s.(size := size))
    case TryAcquire => if Free(s) then Take(s) else s
    case Acquire => if Free(s) then Take(s) else Wait(s)
    case Cancel(call) =>
      if call in s.waiters then s.(waiters := Without(s.waiters, call))
      else if call in s.held then Freed(s, call)
      else s
    case Release(call) => if call in s.held then Freed(s, call) else s
  }

  // --- what every step keeps ---

  ghost predicate Increasing(xs: seq<nat>) {
    forall i, j :: 0 <= i < j < |xs| ==> xs[i] < xs[j]
  }

  /** used counts the holders, and no holder came after a waiter. */
  ghost predicate Ordered(s: Slots) {
    && s.used == |s.held|
    && Increasing(s.waiters)
    && (forall x :: x in s.waiters || x in s.held ==> x < s.next)
    && forall x, y :: x in s.held && y in s.waiters ==> x < y
  }

  /** Nobody waits while a slot is free. */
  ghost predicate Busy(s: Slots) {
    s.waiters != [] ==> s.used >= s.size
  }

  lemma {:induction false} GrantKeeps(s: Slots)
    requires Ordered(s)
    ensures Ordered(Grant(s)) && Busy(Grant(s))
    ensures Grant(s).used > s.used ==> Grant(s).used <= s.size
    ensures Grant(s).size == s.size && Grant(s).next == s.next && s.held <= Grant(s).held
    decreases |s.waiters|
  {
    if s.used < s.size && s.waiters != [] {
      var first := s.waiters[0];
      assert first in s.waiters && forall y :: y in s.waiters[1..] ==> y in s.waiters && first < y;
      GrantKeeps(s.(used := s.used + 1, waiters := s.waiters[1..], held := s.held + {first}));
    }
  }

  lemma {:induction false} WithoutIncreasing(waiters: seq<nat>, call: nat)
    requires Increasing(waiters)
    ensures Increasing(Without(waiters, call)) && call !in Without(waiters, call)
  {
    if waiters != [] && waiters[0] != call {
      var first, rest := waiters[0], Without(waiters[1..], call);
      WithoutIncreasing(waiters[1..], call);
      assert Without(waiters, call) == [first] + rest;
      forall j | 0 <= j < |rest| ensures first < rest[j] {
        assert rest[j] in waiters[1..];
      }
      ConsIncreasing(first, rest);
    }
  }

  lemma ConsIncreasing(first: nat, rest: seq<nat>)
    requires Increasing(rest) && forall j :: 0 <= j < |rest| ==> first < rest[j]
    ensures Increasing([first] + rest)
  {
  }

  lemma WaitKeeps(s: Slots)
    requires Ordered(s) && !Free(s) && Busy(s)
    ensures Ordered(Wait(s)) && Busy(Wait(s))
  {
    assert forall x :: x in Wait(s).waiters ==> x in s.waiters || x == s.next;
    assert forall i :: 0 <= i < |s.waiters| ==> s.waiters[i] in s.waiters;
  }

  lemma FreedKeeps(s: Slots, call: nat)
    requires Ordered(s) && call in s.held
    ensures var t := Freed(s, call);
            Ordered(t) && Busy(t) && t.size == s.size && s.held - {call} <= t.held &&
                (t.used > s.used ==> t.used <= t.size)
  {
    GrantKeeps(s.(used := s.used - 1, held := s.held - {call}));
  }

  lemma WithoutKeeps(s: Slots, call: nat)
    requires Ordered(s) && Busy(s)
    ensures var t := s.(waiters := Without(s.waiters, call)); Ordered(t) && Busy(t)
  {
    WithoutIncreasing(s.waiters, call);
    if s.waiters == [] {
      assert Without(s.waiters, call) == [];
    }
  }

  /** Every step keeps the order and leaves nobody waiting for a free slot, and
      grants no more slots than there are. */
  lemma StepKeeps(s: Slots, step: Step)
    requires Ordered(s) && Busy(s)
    ensures Ordered(After(s, step)) && Busy(After(s, step))
    ensures After(s, step).used > s.used ==> After(s, step).used <= After(s, step).size
    ensures !step.Resize? ==> After(s, step).size == s.size
    ensures forall a :: a in s.held && (step.Cancel? || step.Release? ==> a != step.call) ==> a in After(s, step).held
  {
    match step
    case Resize(size) => GrantKeeps(s.(size := size));
    case TryAcquire =>
    case Acquire => if !Free(s) { WaitKeeps(s); }
    case Cancel(call) =>
      WithoutKeeps(s, call);
      if call in s.held { FreedKeeps(s, call); }
    case Release(call) => if call in s.held { FreedKeeps(s, call); }
  }

  function Run(s: Slots, steps: seq<Step>): Slots {
    if steps == [] then s else After(Run(s, steps[..|steps|-1]), steps[|steps|-1])
  }

  /** In every run the used slots are those held, nobody waits while one is
      free, and nobody holds one who came after somebody still waiting. */
  lemma {:induction false} RunKeeps(size: int, steps: seq<Step>)
    ensures Ordered(Run(New(size), steps)) && Busy(Run(New(size), steps))
  {
    if steps != [] {
      RunKeeps(size, steps[..|steps|-1]);
      StepKeeps(Run(New(size), steps[..|steps|-1]), steps[|steps|-1]);
    }
  }

  ghost predicate Unresized(steps: seq<Step>) {
    forall i :: 0 <= i < |steps| ==> !steps[i].Resize?
  }

  /** Without a resize, no more slots are held than there are. */
  lemma {:induction false} RunFits(size: nat, steps: seq<Step>)
    requires Unresized(steps)
    ensures Run(New(size), steps).size == size && |Run(New(size), steps).held| <= size
  {
    if steps != [] {
      var front := steps[..|steps|-1];
      RunFits(size, front);
      RunKeeps(size, front);
      StepKeeps(Run(New(size), front), steps[|steps|-1]);
    }
  }

  class Semaphore {
    var size: int
    var used: int
    var waiters: seq<nat>
    ghost var held: set<nat>
    var next: nat

    ghost function Now(): Slots
      reads this
    {
      Slots(size, used, waiters, held, next)
    }

    constructor (n: int)
      ensures Now() == New(n)
    {
      size, used, waiters, held, next := n, 0, [], {}, 0;
    }

    method GrantLocked()
      modifies this
      ensures Now() == Grant(old(Now()))
    {
      while used < size && |waiters| > 0
        invariant Grant(Now()) == Grant(old(Now()))
        decreases |waiters|
      {
        used := used + 1;
        held := held + {waiters[0]};
        waiters := waiters[1..];
      }
    }

    method Resize(n: int)
      modifies this
      ensures Now() == After(old(Now()), Step.Resize(n))
    {
      size := n;
      GrantLocked();
    }

    method TryAcquire() returns (ok: bool)
      modifies this
      ensures Now() == After(old(Now()), Step.TryAcquire)
      ensures ok <==> old(Free(Now()))
    {
      if used < size && |waiters| == 0 {
        used := used + 1;
        held := held + {next};
        next := next + 1;
        return true;
      }
      return false;
    }

    /** Takes a slot, or a place among the waiters. */
    method Acquire() returns (call: nat, granted: bool)
      modifies this
      ensures Now() == After(old(Now()), Step.Acquire)
      ensures call == old(next) && (granted <==> old(Free(Now())))
    {
      call := next;
      next := next + 1;
      if used < size && |waiters| == 0 {
        used := used + 1;
        held := held + {call};
        return call, true;
      }
      waiters := waiters + [call];
      return call, false;
    }

    /** The context of a waiting call ended: it leaves the waiters or, granted
        meanwhile, hands the slot back. */
    method Cancel(call: nat)
      requires call in waiters || call in held
      modifies this
      ensures Now() == After(old(Now()), Step.Cancel(call))
    {
      for i := 0 to |waiters|
        invariant call !in waiters[..i] && Now() == old(Now())
      {
        if waiters[i] == call {
          WithoutAt(waiters, i);
          waiters := waiters[..i] + waiters[i+1..];
          return;
        }
      }
      used := used - 1;
      held := held - {call};
      GrantLocked();
    }

    method Release(ghost call: nat)
      requires call in held
      modifies this
      ensures Now() == After(old(Now()), Step.Release(call))
    {
      used := used - 1;
      held := held - {call};
      GrantLocked();
    }
  }

  lemma {:induction false} WithoutAt(waiters: seq<nat>, i: nat)
    requires i < |waiters| && waiters[i] !in waiters[..i]
    ensures Without(waiters, waiters[i]) == waiters[..i] + waiters[i+1..]
  {
    if i > 0 {
      assert waiters[1..][..i-1] == waiters[1..i];
      WithoutAt(waiters[1..], i - 1);
      assert waiters[..i] == [waiters[0]] + waiters[1..i];
    }
  }
}
