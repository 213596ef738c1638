/** A lane's tickets, in every interleaving of the single counter steps of
    Queue, Acquire, Cancel and release. */
module Lanes {
  import opened Counts

  /** Where a ticket is. Asking holds the sum Queue has read so far and, of the
      tickets before it, those the sum may not cover yet. */
  datatype Ticket =
    | Asking(read: Counter, sum: int, uncovered: set<nat>)
    | Held
    | Leaving
    | Won
    | Waiting
    | Entering
    | Running
    | Left
    | Gone

  /** The counter Queue read last. */
  datatype Counter = Queued | IoWait

  /** An Acquire call before it leaves the queue, or after it lost that to
      another call. */
  datatype Call = Trying(ticket: nat) | Slotted(ticket: nat) | Counted(ticket: nat) | Lost | Unslotting

  datatype Lane = Lane(
    slots: nat, maxQueue: nat, used: int, queued: int, ioWait: int, inflight: int,
    tickets: map<nat, Ticket>, next: nat, calls: map<nat, Call>)

  function Fresh(slots: nat, maxQueue: nat): Lane {
    Lane(slots, maxQueue, 0, 0, 0, 0, map[], 0, map[])
  }

  predicate InQueue(t: Ticket) {
    t.Asking? || t.Held? || t.Leaving? || t.Won?
  }

  predicate InIo(t: Ticket) {
    t.Won? || t.Waiting? || t.Entering?
  }

  predicate InFlight(t: Ticket) {
    t.Entering? || t.Running?
  }

  predicate HoldsSlot(t: Ticket) {
    InIo(t) || InFlight(t) || t.Left?
  }

  predicate CallInIo(c: Call) {
    c.Counted? || c.Lost?
  }

  predicate CallHoldsSlot(c: Call) {
    !c.Trying?
  }

  /** Accepted and neither given up nor released. */
  predicate Live(t: Ticket) {
    t.Held? || t.Won? || t.Waiting? || t.Entering? || t.Running?
  }

  /** Live, or asking to be. */
  predicate Active(t: Ticket) {
    t.Asking? || Live(t)
  }

  /** One atomic step each. */
  datatype Step =
    | Ask
    | ReadIoWait(t: nat)
    | Decide(t: nat)
    | Try(c: nat, t: nat)
    | TakeSlot(c: nat)
    | GiveUp(c: nat)
    | AddIoWait(c: nat)
    | LeaveQueue(c: nat)
    | DropIoWait(c: nat)
    | DropSlot(c: nat)
    | Cancel(t: nat)
    | DropQueued(t: nat)
    | FailIo(t: nat)
    | AddInflight(t: nat)
    | EndWait(t: nat)
    | Finish(t: nat)
    | FreeSlot(t: nat)

  function Put(l: Lane, t: nat, ticket: Ticket): Lane {
    l.(tickets := l.tickets[t := ticket])
  }

  /** The step on a call: Acquire up to the compare-and-swap of left. */
  function CallStep(l: Lane, s: Step): Lane {
    match s
    case Try(c, t) =>
      if c !in l.calls && t in l.tickets && l.tickets[t].Held? then l.(calls := l.calls[c := Trying(t)]) else l
    case TakeSlot(c) =>
      if c in l.calls && l.calls[c].Trying? && l.used < l.slots then
        l.(calls := l.calls[c := Slotted(l.calls[c].ticket)], used := l.used + 1)
      else l
    case GiveUp(c) =>
      if c in l.calls && l.calls[c].Trying? then
        var l1 := l.(calls := l.calls - {c});
        if l.calls[c].ticket in l.tickets && l.tickets[l.calls[c].ticket].Held? then Put(l1, l.calls[c].ticket, Leaving)
            else l1
      else l
    case AddIoWait(c) =>
      if c in l.calls && l.calls[c].Slotted? then
        l.(calls := l.calls[c := Counted(l.calls[c].ticket)], ioWait := l.ioWait + 1)
      else l
    case LeaveQueue(c) =>
      if c in l.calls && l.calls[c].Counted? then
        if l.calls[c].ticket in l.tickets && l.tickets[l.calls[c].ticket].Held? then
          Put(l.(calls := l.calls - {c}), l.calls[c].ticket, Won)
        else l.(calls := l.calls[c := Lost])
      else l
    case DropIoWait(c) =>
      if c in l.calls && l.calls[c].Lost? then l.(calls := l.calls[c := Unslotting], ioWait := l.ioWait - 1) else l
    case DropSlot(c) =>
      if c in l.calls && l.calls[c].Unslotting? then l.(calls := l.calls - {c}, used := l.used - 1) else l
    case _ => l
  }

  /** The tickets past the queue that satisfy p. */
  function Past(l: Lane, p: Ticket -> bool): set<nat> {
    set t | t in l.tickets && p(l.tickets[t])
  }

  function TicketStep(l: Lane, s: Step): Lane {
    match s
    case Ask =>
      Put(l.(queued := l.queued + 1, next := l.next + 1), l.next,
          Asking(Queued, l.queued + 1, Past(l, (t: Ticket) => t.Waiting? || InFlight(t))))
    case ReadIoWait(t) =>
      if t in l.tickets && l.tickets[t].Asking? && l.tickets[t].read.Queued? then
        var a := l.tickets[t];
        Put(l, t, Asking(IoWait, a.sum + l.ioWait, a.uncovered * Past(l, (u: Ticket) => u.Running?)))
      else l
    case Decide(t) =>
      if t in l.tickets && l.tickets[t].Asking? && l.tickets[t].read.IoWait? then
        Put(l, t, if l.tickets[t].sum + l.inflight > l.slots + l.maxQueue then Leaving else Held)
      else l
    case Cancel(t) => if t in l.tickets && l.tickets[t].Held? then Put(l, t, Leaving) else l
    case DropQueued(t) =>
      if t in l.tickets && l.tickets[t].Leaving? then Put(l.(queued := l.queued - 1), t, Gone)
      else if t in l.tickets && l.tickets[t].Won? then Put(l.(queued := l.queued - 1), t, Waiting)
      else l
    case FailIo(t) => if t in l.tickets && l.tickets[t].Waiting? then Put(l.(ioWait := l.ioWait - 1), t, Left) else l
    case AddInflight(t) => if t in l.tickets && l.tickets[t].Waiting?
        then Put(l.(inflight := l.inflight + 1), t, Entering) else l
    case EndWait(t) => if t in l.tickets && l.tickets[t].Entering? then Put(l.(ioWait := l.ioWait - 1), t, Running)
        else l
    case Finish(t) => if t in l.tickets && l.tickets[t].Running? then Put(l.(inflight := l.inflight - 1), t, Left)
        else l
    case FreeSlot(t) => if t in l.tickets && l.tickets[t].Left? then Put(l.(used := l.used - 1), t, Gone) else l
    case _ => l
  }

  function After(l: Lane, s: Step): Lane {
    TicketStep(CallStep(l, s), s)
  }

  function Run(l: Lane, steps: seq<Step>): Lane {
    if steps == [] then l else After(Run(l, steps[..|steps|-1]), steps[|steps|-1])
  }

  // --- the counters count ---

  ghost predicate Counting(l: Lane) {
    && l.queued == Count(InQueue, l.tickets)
    && l.ioWait == Count(InIo, l.tickets) + Count(CallInIo, l.calls)
    && l.inflight == Count(InFlight, l.tickets)
    && l.used == Count(HoldsSlot, l.tickets) + Count(CallHoldsSlot, l.calls)
    && l.used <= l.slots
    && forall t :: t in l.tickets ==> t < l.next
  }

  lemma CountTickets(l: Lane, t: nat, ticket: Ticket)
    ensures Count(InQueue, l.tickets[t := ticket]) ==
            Count(InQueue, l.tickets) - One(t in l.tickets && InQueue(l.tickets[t])) + One(InQueue(ticket))
    ensures Count(InIo, l.tickets[t := ticket]) ==
            Count(InIo, l.tickets) - One(t in l.tickets && InIo(l.tickets[t])) + One(InIo(ticket))
    ensures Count(InFlight, l.tickets[t := ticket]) ==
            Count(InFlight, l.tickets) - One(t in l.tickets && InFlight(l.tickets[t])) + One(InFlight(ticket))
    ensures Count(HoldsSlot, l.tickets[t := ticket]) ==
            Count(HoldsSlot, l.tickets) - One(t in l.tickets && HoldsSlot(l.tickets[t])) + One(HoldsSlot(ticket))
  {
    CountUpdate(InQueue, l.tickets, t, ticket);
    CountUpdate(InIo, l.tickets, t, ticket);
    CountUpdate(InFlight, l.tickets, t, ticket);
    CountUpdate(HoldsSlot, l.tickets, t, ticket);
  }

  lemma CountCall(l: Lane, c: nat, call: Call)
    ensures Count(CallInIo, l.calls[c := call]) ==
            Count(CallInIo, l.calls) - One(c in l.calls && CallInIo(l.calls[c])) + One(CallInIo(call))
    ensures Count(CallHoldsSlot, l.calls[c := call]) ==
            Count(CallHoldsSlot, l.calls) - One(c in l.calls && CallHoldsSlot(l.calls[c])) + One(CallHoldsSlot(call))
  {
    CountUpdate(CallInIo, l.calls, c, call);
    CountUpdate(CallHoldsSlot, l.calls, c, call);
  }

  lemma CountCallGone(l: Lane, c: nat)
    ensures Count(CallInIo, l.calls - {c}) == Count(CallInIo, l.calls) - One(c in l.calls && CallInIo(l.calls[c]))
    ensures Count(CallHoldsSlot, l.calls - {c}) ==
            Count(CallHoldsSlot, l.calls) - One(c in l.calls && CallHoldsSlot(l.calls[c]))
  {
    CountRemove(CallInIo, l.calls, c);
    CountRemove(CallHoldsSlot, l.calls, c);
  }

  lemma CallStepCounts(l: Lane, s: Step)
    requires Counting(l)
    ensures Counting(CallStep(l, s))
  {
    if s.Try? || s.TakeSlot? || s.GiveUp? || s.AddIoWait? || s.LeaveQueue? || s.DropIoWait? || s.DropSlot? {
      var after := CallStep(l, s);
      CountCallGone(l, s.c);
      if s.c in after.calls {
        CountCall(l, s.c, after.calls[s.c]);
      }
      if (s.GiveUp? || s.LeaveQueue?) && s.c in l.calls && !l.calls[s.c].Lost? && !l.calls[s.c].Unslotting? {
        CountTickets(l, l.calls[s.c].ticket, Leaving);
        CountTickets(l, l.calls[s.c].ticket, Won);
      }
    }
  }

  lemma QueueStepCounts(l: Lane, s: Step)
    requires Counting(l) && (s.Ask? || s.ReadIoWait? || s.Decide? || s.Cancel? || s.DropQueued?)
    ensures Counting(TicketStep(l, s))
  {
    var t, after := if s.Ask? then l.next else s.t, TicketStep(l, s);
    if t in after.tickets {
      CountTickets(l, t, after.tickets[t]);
    }
  }

  lemma WorkStepCounts(l: Lane, s: Step)
    requires Counting(l) && (s.FailIo? || s.AddInflight? || s.EndWait? || s.Finish? || s.FreeSlot?)
    ensures Counting(TicketStep(l, s))
  {
    if s.t in l.tickets {
      CountTickets(l, s.t, TicketStep(l, s).tickets[s.t]);
    }
  }

  lemma TicketStepCounts(l: Lane, s: Step)
    requires Counting(l)
    ensures Counting(TicketStep(l, s))
  {
    if s.Ask? || s.ReadIoWait? || s.Decide? || s.Cancel? || s.DropQueued? {
      QueueStepCounts(l, s);
    } else if s.FailIo? || s.AddInflight? || s.EndWait? || s.Finish? || s.FreeSlot? {
      WorkStepCounts(l, s);
    }
  }

  // --- what a ticket's sum covers ---

  /** The active tickets up to m. */
  ghost function UpTo(l: Lane, m: nat): set<nat> {
    set t | t in l.tickets && t <= m && Active(l.tickets[t])
  }

  /** Before Queue decides, what it read covers every ticket active up to its
      own but the uncovered, which a counter it has yet to read counts; a
      ticket once accepted, those fit the lane. */
  ghost predicate Covered(l: Lane, m: nat)
    requires m in l.tickets
  {
    match l.tickets[m]
    case Asking(read, sum, uncovered) =>
      && |UpTo(l, m) - uncovered| <= sum
      && forall t :: t in UpTo(l, m) && t in uncovered ==>
         l.tickets[t].Running? || (read.Queued? && (l.tickets[t].Waiting? || l.tickets[t].Entering?))
    case _ => Live(l.tickets[m]) ==> |UpTo(l, m)| <= l.slots + l.maxQueue
  }

  ghost predicate AllCovered(l: Lane) {
    forall m :: m in l.tickets ==> Covered(l, m)
  }

  /** One ticket moved on, none became active. */
  ghost predicate Moves(l: Lane, after: Lane) {
    && after.slots == l.slots && after.maxQueue == l.maxQueue
    && (forall t :: t in l.tickets ==> t in after.tickets && Onward(l.tickets[t], after.tickets[t]))
  }

  /** A ticket stays, or moves on. */
  predicate Onward(t: Ticket, u: Ticket) {
    || u == t
    || (t.Held? && (u.Leaving? || u.Won?))
    || (t.Leaving? && u.Gone?)
    || (t.Won? && u.Waiting?)
    || (t.Waiting? && (u.Left? || u.Entering?))
    || (t.Entering? && u.Running?)
    || (t.Running? && u.Left?)
    || (t.Left? && u.Gone?)
  }

  lemma MovesKeepCovered(l: Lane, after: Lane, m: nat)
    requires Moves(l, after) && m in l.tickets && Covered(l, m)
    requires forall t :: t in after.tickets && t <= m ==> t in l.tickets
    ensures Covered(after, m)
  {
    assert UpTo(after, m) <= UpTo(l, m);
    Subset(UpTo(after, m), UpTo(l, m));
    if l.tickets[m].Asking? {
      var uncovered := l.tickets[m].uncovered;
      Subset(UpTo(after, m) - uncovered, UpTo(l, m) - uncovered);
    }
  }

  lemma AskCovers(l: Lane)
    requires Counting(l)
    ensures Covered(After(l, Ask), l.next)
  {
    var after := After(l, Ask);
    TicketStepCounts(l, Ask);
    Subset(UpTo(after, l.next) - after.tickets[l.next].uncovered, Matching(InQueue, after.tickets));
  }

  lemma AskKeepsCovered(l: Lane)
    requires Counting(l) && AllCovered(l)
    ensures AllCovered(After(l, Ask))
  {
    AskCovers(l);
    forall m | m in l.tickets ensures Covered(After(l, Ask), m) {
      MovesKeepCovered(l, After(l, Ask), m);
    }
  }

  lemma ReadIoWaitCovers(l: Lane, m: nat)
    requires Counting(l) && m in l.tickets && l.tickets[m].Asking? && l.tickets[m].read.Queued? && Covered(l, m)
    ensures Covered(After(l, ReadIoWait(m)), m)
  {
    var after := After(l, ReadIoWait(m));
    var before, io := UpTo(l, m) - l.tickets[m].uncovered, Matching(InIo, l.tickets);
    assert UpTo(after, m) == UpTo(l, m);
    Subset(UpTo(after, m) - after.tickets[m].uncovered, before + io);
  }

  lemma DecideCovers(l: Lane, m: nat)
    requires Counting(l) && m in l.tickets && l.tickets[m].Asking? && l.tickets[m].read.IoWait? && Covered(l, m)
    ensures Covered(After(l, Decide(m)), m)
  {
    var after := After(l, Decide(m));
    var before, running := UpTo(l, m) - l.tickets[m].uncovered, Matching(InFlight, l.tickets);
    assert UpTo(after, m) <= UpTo(l, m);
    Subset(UpTo(after, m), before + running);
  }

  lemma AskingKeepsCovered(l: Lane, s: Step)
    requires Counting(l) && AllCovered(l) && (s.ReadIoWait? || s.Decide?)
    ensures AllCovered(After(l, s))
  {
    var after := After(l, s);
    if after != l {
      forall m | m in l.tickets ensures Covered(after, m) {
        if m == s.t {
          if s.Decide? { DecideCovers(l, m); } else { ReadIoWaitCovers(l, m); }
        } else {
          OthersKeepCovered(l, after, s.t, m);
        }
      }
    }
  }

  /** A ticket that went on asking, or was decided, is covered as before. */
  lemma OthersKeepCovered(l: Lane, after: Lane, t: nat, m: nat)
    requires t in l.tickets && t in after.tickets && after == Put(l, t, after.tickets[t]) && l.tickets[t].Asking?
    requires after.tickets[t].Asking? || after.tickets[t].Held? || after.tickets[t].Leaving?
    requires m in l.tickets && m != t && Covered(l, m)
    ensures Covered(after, m)
  {
    assert UpTo(after, m) <= UpTo(l, m);
    Subset(UpTo(after, m), UpTo(l, m));
    if l.tickets[m].Asking? {
      var uncovered := l.tickets[m].uncovered;
      Subset(UpTo(after, m) - uncovered, UpTo(l, m) - uncovered);
    }
  }

  lemma StepMoves(l: Lane, s: Step)
    requires !s.Ask? && !s.ReadIoWait? && !s.Decide?
    ensures Moves(l, After(l, s)) && After(l, s).tickets.Keys == l.tickets.Keys
  {
  }

  lemma StepKeepsCovered(l: Lane, s: Step)
    requires Counting(l) && AllCovered(l)
    ensures AllCovered(After(l, s))
  {
    if s.Ask? {
      AskKeepsCovered(l);
    } else if s.ReadIoWait? || s.Decide? {
      AskingKeepsCovered(l, s);
    } else {
      StepMoves(l, s);
      forall m | m in l.tickets ensures Covered(After(l, s), m) {
        MovesKeepCovered(l, After(l, s), m);
      }
    }
  }

  // --- every run ---

  lemma StepKeepsLimits(l: Lane, s: Step)
    ensures After(l, s).slots == l.slots && After(l, s).maxQueue == l.maxQueue
  {
  }

  lemma {:induction false} RunKeeps(slots: nat, maxQueue: nat, steps: seq<Step>)
    ensures var l := Run(Fresh(slots, maxQueue), steps);
            Counting(l) && AllCovered(l) && l.slots == slots && l.maxQueue == maxQueue
  {
    if steps != [] {
      var n := |steps| - 1;
      RunKeeps(slots, maxQueue, steps[..n]);
      var l := Run(Fresh(slots, maxQueue), steps[..n]);
      CallStepCounts(l, steps[n]);
      TicketStepCounts(CallStep(l, steps[n]), steps[n]);
      StepKeepsCovered(l, steps[n]);
      StepKeepsLimits(l, steps[n]);
    }
  }

  lemma {:induction false} LastOf(ids: set<nat>) returns (m: nat)
    requires ids != {}
    ensures m in ids && forall t :: t in ids ==> t <= m
  {
    var x :| x in ids;
    if ids == {x} {
      m := x;
    } else {
      var y := LastOf(ids - {x});
      m := if x < y then y else x;
      assert forall t :: t in ids ==> t == x || t in ids - {x};
    }
  }

  /** In every run, the accepted tickets not yet given up or released fit the
      lane's slots and queue, and those running its slots. */
  lemma TicketsFit(slots: nat, maxQueue: nat, steps: seq<Step>)
    ensures var l := Run(Fresh(slots, maxQueue), steps);
            Count(Live, l.tickets) <= slots + maxQueue && Count(InFlight, l.tickets) <= slots
  {
    var l := Run(Fresh(slots, maxQueue), steps);
    RunKeeps(slots, maxQueue, steps);
    var live := Matching(Live, l.tickets);
    if live != {} {
      var m := LastOf(live);
      assert Covered(l, m);
      Subset(live, UpTo(l, m));
    }
    Subset(Matching(InFlight, l.tickets), Matching(HoldsSlot, l.tickets));
  }

  // --- a ticket is admitted at most once ---

  function Rank(t: Ticket): nat {
    match t
    case Asking(read, _, _) => if read.Queued? then 0 else 1
    case Held => 2
    case Leaving => 3
    case Won => 3
    case Waiting => 4
    case Entering => 5
    case Running => 6
    case Left => 7
    case Gone => 8
  }

  /** Tickets never go back. */
  lemma StepClimbs(l: Lane, s: Step, t: nat)
    requires t in l.tickets && forall u :: u in l.tickets ==> u < l.next
    ensures t in After(l, s).tickets && Rank(After(l, s).tickets[t]) >= Rank(l.tickets[t])
  {
  }

  /** s admits t: the step that counts it as running. */
  predicate Admits(l: Lane, s: Step, t: nat) {
    s == AddInflight(t) && t in l.tickets && l.tickets[t].Waiting?
  }

  lemma {:induction false} RunClimbs(l: Lane, slots: nat, maxQueue: nat, steps: seq<Step>, n: nat, t: nat)
    requires n <= |steps| && l == Fresh(slots, maxQueue) && t in Run(l, steps[..n]).tickets
    ensures t in Run(l, steps).tickets && Rank(Run(l, steps).tickets[t]) >= Rank(Run(l, steps[..n]).tickets[t])
  {
    if n < |steps| {
      var front := steps[..|steps|-1];
      assert front[..n] == steps[..n];
      RunClimbs(l, slots, maxQueue, front, n, t);
      RunKeeps(slots, maxQueue, front);
      StepClimbs(Run(l, front), steps[|steps|-1], t);
    } else {
      assert steps[..n] == steps;
    }
  }

  lemma AdmittedOnce(slots: nat, maxQueue: nat, steps: seq<Step>, i: nat, j: nat, t: nat)
    requires i < j < |steps|
    ensures var l := Fresh(slots, maxQueue);
            !(Admits(Run(l, steps[..i]), steps[i], t) && Admits(Run(l, steps[..j]), steps[j], t))
  {
    var l := Fresh(slots, maxQueue);
    if Admits(Run(l, steps[..i]), steps[i], t) {
      assert steps[..j][..i + 1] == steps[..i] + [steps[i]];
      assert Run(l, steps[..i + 1]) == After(Run(l, steps[..i]), steps[i]) by {
        assert steps[..i + 1][..i] == steps[..i];
      }
      assert steps[..j][..i + 1] == steps[..i + 1];
      RunClimbs(l, slots, maxQueue, steps[..j], i + 1, t);
    }
  }
}
