/** When a lane takes one more ticket, nobody else moving meanwhile. */
module LaneAdmits {
  import opened Counts
  import opened Lanes

  /** No ticket or call is between two steps that count it. */
  predicate Settled(l: Lane) {
    && (forall t :: t in l.tickets ==>
          var ticket := l.tickets[t]; !ticket.Asking? && !ticket.Leaving? && !ticket.Won? && !ticket.Entering?)
    && (forall c :: c in l.calls ==> !CallInIo(l.calls[c]))
  }

  lemma NoneMatch<K, V>(p: V -> bool, m: map<K, V>)
    requires forall k :: k in m ==> !p(m[k])
    ensures Count(p, m) == 0
  {
    assert Matching(p, m) == {};
  }

  /** What two predicates count apart, their union counts together. */
  lemma CountApart<K, V>(p: V -> bool, q: V -> bool, both: V -> bool, m: map<K, V>)
    requires forall k :: k in m ==> (both(m[k]) <==> p(m[k]) || q(m[k])) && !(p(m[k]) && q(m[k]))
    ensures Count(both, m) == Count(p, m) + Count(q, m)
  {
    assert Matching(both, m) == Matching(p, m) + Matching(q, m);
    assert Matching(p, m) !! Matching(q, m);
  }

  /** The live tickets are those the three counters count. */
  lemma LiveCounted(l: Lane)
    requires Settled(l)
    ensures Count(Live, l.tickets) == Count(InQueue, l.tickets) + Count(InIo, l.tickets) + Count(InFlight, l.tickets)
    ensures Count(CallInIo, l.calls) == 0
  {
    var past := (t: Ticket) => InIo(t) || InFlight(t);
    CountApart(InIo, InFlight, past, l.tickets);
    CountApart(InQueue, past, Live, l.tickets);
    NoneMatch(CallInIo, l.calls);
  }

  /** The lane after Queue's three steps, nobody else moving. */
  function Queued(l: Lane): Lane {
    After(After(After(l, Ask), ReadIoWait(l.next)), Step.Decide(l.next))
  }

  /** Undisturbed, a ticket is accepted exactly when fewer are live than the slots
      and the queue hold. */
  lemma AcceptedExactly(slots: nat, maxQueue: nat, steps: seq<Step>)
    requires Settled(Run(Fresh(slots, maxQueue), steps))
    ensures var l := Run(Fresh(slots, maxQueue), steps);
            && l.next in Queued(l).tickets
            && Queued(l).tickets[l.next] == (if Count(Live, l.tickets) < slots + maxQueue then Held else Leaving)
  {
    var l := Run(Fresh(slots, maxQueue), steps);
    RunKeeps(slots, maxQueue, steps);
    LiveCounted(l);
  }
}
