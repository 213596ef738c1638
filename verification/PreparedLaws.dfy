/** What callers of the prepared-statement cache hold: a statement prepared for the
    query they asked, and none that a Close came after. */
module PreparedLaws {
  import opened Prepared
  import opened PreparedRuns

  // --- what was asked ---

  /** The query each preparation was begun for, in the order they began. */
  ghost function Queries(max: nat, steps: seq<Step>): seq<string>
    requires max > 0
  {
    if steps == [] then []
    else
      var front, last := steps[..|steps| - 1], steps[|steps| - 1];
      if last.Enter? && |Run(max, steps).cache.calls| > |Run(max, front).cache.calls| then
        Queries(max, front) + [last.query]
      else Queries(max, front)
  }

  /** The query each thread asked for last. */
  ghost function Asked(max: nat, steps: seq<Step>): map<nat, string>
    requires max > 0
  {
    if steps == [] then map[]
    else
      var front, last := steps[..|steps| - 1], steps[|steps| - 1];
      if last.Enter? && last.t !in Run(max, front).threads then Asked(max, front)[last.t := last.query]
      else Asked(max, front)
  }

  // --- each is served its own ---

  /** The entry e was prepared for q. */
  ghost predicate For(c: Cache, qs: seq<string>, e: nat, q: string) {
    e < |c.entries| && c.entries[e].call < |qs| && qs[c.entries[e].call] == q
  }

  ghost predicate Serves(c: Cache, qs: seq<string>, thread: Thread, q: string) {
    match thread
    case Preparing(p, k) => p == q && k < |qs| && qs[k] == q
    case Waiting(k) => k < |qs| && qs[k] == q
    case Holding(e) => For(c, qs, e, q)
  }

  ghost predicate KeptFor(c: Cache, qs: seq<string>) {
    && |qs| == |c.calls|
    && (forall q :: q in c.preparing ==> c.preparing[q] < |qs| && qs[c.preparing[q]] == q)
    && (forall q :: q in c.items ==> For(c, qs, c.items[q], q))
    && (forall k :: 0 <= k < |c.calls| && c.calls[k].entry.Some? ==>
          c.calls[k].entry.value < |c.entries| && c.entries[c.calls[k].entry.value].call == k)
  }

  ghost predicate AllServed(s: State, qs: seq<string>, asked: map<nat, string>) {
    forall t :: t in s.threads ==> t in asked && Serves(s.cache, qs, s.threads[t], asked[t])
  }

  /** The entries there were are of the calls they were of. */
  ghost predicate SameCalls(c: Cache, after: Cache) {
    |c.entries| <= |after.entries| && forall e :: 0 <= e < |c.entries| ==> after.entries[e].call == c.entries[e].call
  }

  /** One thread moves; the others hold what they held. */
  lemma OneMoves(
    s: State, after: State, qs: seq<string>, more: seq<string>, asked: map<nat, string>, now: map<nat, string>, t: nat)
    requires AllServed(s, qs, asked) && SameCalls(s.cache, after.cache) && qs <= more
    requires forall u :: u in after.threads && u != t ==>
               u in s.threads && after.threads[u] == s.threads[u] && u in asked && u in now && now[u] == asked[u]
    requires t in after.threads ==> t in now && Serves(after.cache, more, after.threads[t], now[t])
    ensures AllServed(after, more, now)
  {
    forall u | u in after.threads ensures u in now && Serves(after.cache, more, after.threads[u], now[u]) {
      if u != t {
        assert Serves(s.cache, qs, s.threads[u], asked[u]);
      }
    }
  }

  ghost predicate Served(s: State, qs: seq<string>, asked: map<nat, string>) {
    KeptFor(s.cache, qs) && AllServed(s, qs, asked)
  }

  lemma EnterServes(s: State, t: nat, q: string, qs: seq<string>, asked: map<nat, string>)
    requires Sound(s) && Served(s, qs, asked) && t !in s.threads
    ensures var after := Entered(s, t, q);
            Served(after, if |after.cache.calls| > |s.cache.calls| then qs + [q] else qs, asked[t := q])
  {
    hide Sound;
    SoundItems(s);
    var after := Entered(s, t, q);
    var more := if |after.cache.calls| > |s.cache.calls| then qs + [q] else qs;
    OneMoves(s, after, qs, more, asked, asked[t := q], t);
  }

  lemma SoundItems(s: State)
    requires Sound(s)
    ensures forall q :: q in s.cache.items ==> s.cache.items[q] < |s.cache.entries|
    ensures forall q :: q in s.cache.preparing ==> s.cache.preparing[q] < |s.cache.calls|
    ensures forall t :: t in s.threads ==> ThreadRight(s, t)
  {
  }

  lemma EvictFor(c: Cache, qs: seq<string>)
    requires KeptFor(c, qs)
    ensures KeptFor(Evict(c), qs) && SameCalls(c, Evict(c)) && |Evict(c).entries| == |c.entries|
    ensures Evict(c).calls == c.calls && Evict(c).preparing == c.preparing
  {
  }

  lemma CompleteFor(c: Cache, qs: seq<string>, q: string, k: nat, entry: Entry, keep: bool)
    requires KeptFor(c, qs) && k < |c.calls| && qs[k] == q && entry.call == k
    ensures var done := Complete(c, q, k, entry);
            var after := if keep then done.(items := c.items[q := |c.entries|], order := c.order + [q]) else done;
            KeptFor(after, qs) && SameCalls(c, after) && For(after, qs, |c.entries|, q)
  {
  }

  lemma FinishFor(c: Cache, qs: seq<string>, q: string, k: nat)
    requires KeptFor(c, qs) && k < |c.calls| && qs[k] == q
    ensures var after := FinishSuccess(c, q, k);
            KeptFor(after, qs) && SameCalls(c, after) && For(after, qs, |c.entries|, q)
  {
    hide Evict, Complete, KeptFor;
    var entry := Entry(c.calls[k].waiters, false, 0, k);
    EvictFor(c, qs);
    KeptLengths(c, qs);
    if c.calls[k].generation == c.generation {
      CompleteFor(Evict(c), qs, q, k, entry, true);
      CallsStay(c, Evict(c), FinishSuccess(c, q, k));
    } else {
      CompleteFor(c, qs, q, k, entry.(retired := true), false);
    }
  }

  lemma KeptLengths(c: Cache, qs: seq<string>)
    requires KeptFor(c, qs)
    ensures |qs| == |c.calls|
  {
  }

  lemma CallsStay(c: Cache, mid: Cache, after: Cache)
    requires SameCalls(c, mid) && SameCalls(mid, after)
    ensures SameCalls(c, after)
  {
  }

  lemma PrepareServes(s: State, t: nat, step: Step, qs: seq<string>, asked: map<nat, string>)
    requires Sound(s) && Served(s, qs, asked) && t in s.threads && s.threads[t].Preparing?
    ensures Served(Acted(s, t, step), qs, asked)
  {
    hide Sound, FinishSuccess;
    SoundItems(s);
    assert ThreadRight(s, t) && Serves(s.cache, qs, s.threads[t], asked[t]);
    if step.PrepareSucceeds? {
      FinishFor(s.cache, qs, s.threads[t].query, s.threads[t].call);
    }
    OneMoves(s, Acted(s, t, step), qs, qs, asked, asked, t);
  }

  lemma WaitServes(s: State, t: nat, step: Step, qs: seq<string>, asked: map<nat, string>)
    requires Sound(s) && Served(s, qs, asked) && t in s.threads && s.threads[t].Waiting?
    ensures Served(Acted(s, t, step), qs, asked)
  {
    hide Sound, FinishSuccess;
    SoundItems(s);
    assert ThreadRight(s, t) && Serves(s.cache, qs, s.threads[t], asked[t]);
    OneMoves(s, Acted(s, t, step), qs, qs, asked, asked, t);
  }

  lemma HoldServes(s: State, t: nat, step: Step, qs: seq<string>, asked: map<nat, string>)
    requires Sound(s) && Served(s, qs, asked) && t in s.threads && s.threads[t].Holding?
    ensures Served(Acted(s, t, step), qs, asked)
  {
    hide Sound, FinishSuccess;
    SoundItems(s);
    assert ThreadRight(s, t) && Serves(s.cache, qs, s.threads[t], asked[t]);
    OneMoves(s, Acted(s, t, step), qs, qs, asked, asked, t);
  }

  lemma ActServes(s: State, t: nat, step: Step, qs: seq<string>, asked: map<nat, string>)
    requires Sound(s) && Served(s, qs, asked) && t in s.threads
    ensures Served(Acted(s, t, step), qs, asked)
  {
    hide Sound, Served, Acted;
    match s.threads[t]
    case Preparing(_, _) => PrepareServes(s, t, step, qs, asked);
    case Waiting(_) => WaitServes(s, t, step, qs, asked);
    case Holding(_) => HoldServes(s, t, step, qs, asked);
  }

  lemma CloseServes(s: State, qs: seq<string>, asked: map<nat, string>)
    requires Served(s, qs, asked)
    ensures Served(State(CloseAll(s.cache), s.threads), qs, asked)
  {
    var after := State(CloseAll(s.cache), s.threads);
    forall t | t in s.threads ensures Serves(after.cache, qs, s.threads[t], asked[t]) {
      assert Serves(s.cache, qs, s.threads[t], asked[t]);
    }
  }

  lemma StepServes(s: State, step: Step, qs: seq<string>, asked: map<nat, string>)
    requires Sound(s) && Served(s, qs, asked)
    ensures var after := Next(s, step);
            Served(after,
                   if step.Enter? && |after.cache.calls| > |s.cache.calls| then qs + [step.query] else qs,
                   if step.Enter? && step.t !in s.threads then asked[step.t := step.query] else asked)
  {
    hide Sound, Served, Acted, Entered;
    match step
    case CloseCache => CloseServes(s, qs, asked);
    case Enter(t, q) => if t !in s.threads { EnterServes(s, t, q, qs, asked); }
    case _ => if step.t in s.threads { ActServes(s, step.t, step, qs, asked); }
  }

  lemma {:induction false} RunServes(max: nat, steps: seq<Step>)
    requires max > 0
    ensures Served(Run(max, steps), Queries(max, steps), Asked(max, steps))
  {
    hide Sound, Served, Next;
    if steps == [] {
      NothingServed(max);
    } else {
      var front := steps[..|steps| - 1];
      RunServes(max, front);
      StepServes(Run(max, front), steps[|steps| - 1], Queries(max, front), Asked(max, front));
    }
  }

  lemma NothingServed(max: nat)
    ensures Served(State(New(max), map[]), [], map[])
  {
  }

  /** In every run a caller holds a statement whose preparation was begun for the
      query it asked, or waits for one; and one kept under a query was too. */
  lemma ServedItsQuery(max: nat, steps: seq<Step>, t: nat, q: string)
    requires max > 0
    ensures var s, qs := Run(max, steps), Queries(max, steps);
            && |qs| == |s.cache.calls|
            && (t in s.threads ==> t in Asked(max, steps) && Serves(s.cache, qs, s.threads[t], Asked(max, steps)[t]))
            && (q in s.cache.items ==> For(s.cache, qs, s.cache.items[q], q))
  {
    hide Sound;
    RunServes(max, steps);
  }

  // --- what a Close retires ---

  /** A kept statement's preparation began in this generation, and none in a
      later one. */
  ghost predicate Current(c: Cache) {
    && (forall k :: 0 <= k < |c.calls| ==> c.calls[k].generation <= c.generation)
    && (forall q :: q in c.items ==>
          && c.items[q] < |c.entries| && c.entries[c.items[q]].call < |c.calls|
          && c.calls[c.entries[c.items[q]].call].generation == c.generation)
  }

  /** What has begun stays in its generation. */
  ghost predicate Dated(c: Cache, after: Cache) {
    && |c.calls| <= |after.calls| && c.generation <= after.generation
    && forall k :: 0 <= k < |c.calls| ==> after.calls[k].generation == c.calls[k].generation
  }

  lemma EvictCurrent(c: Cache)
    requires Current(c)
    ensures Current(Evict(c)) && Dated(c, Evict(c)) && Evict(c).calls == c.calls &&
            |Evict(c).entries| == |c.entries| && Evict(c).generation == c.generation
  {
  }

  lemma FinishCurrent(c: Cache, q: string, k: nat)
    requires Current(c) && k < |c.calls|
    ensures Current(FinishSuccess(c, q, k)) && Dated(c, FinishSuccess(c, q, k))
  {
    hide Evict;
    EvictCurrent(c);
  }

  lemma ActCurrent(s: State, t: nat, step: Step)
    requires Sound(s) && Current(s.cache) && t in s.threads
    ensures Current(Acted(s, t, step).cache) && Dated(s.cache, Acted(s, t, step).cache)
  {
    hide Sound, FinishSuccess;
    SoundItems(s);
    assert ThreadRight(s, t);
    match s.threads[t] {
      case Preparing(q, k) =>
        if step.PrepareSucceeds? {
          FinishCurrent(s.cache, q, k);
        }
      case Waiting(k) =>
      case Holding(e) =>
    }
  }

  lemma EnterCurrent(s: State, t: nat, q: string)
    requires Sound(s) && Current(s.cache)
    ensures Current(Entered(s, t, q).cache) && Dated(s.cache, Entered(s, t, q).cache)
  {
    hide Sound;
    SoundItems(s);
  }

  lemma StepCurrent(s: State, step: Step)
    requires Sound(s) && Current(s.cache)
    ensures var after := Next(s, step).cache;
            && Current(after) && Dated(s.cache, after)
            && (step.CloseCache? ==> s.cache.generation < after.generation)
  {
    hide Sound, Acted, Entered;
    match step
    case CloseCache =>
    case Enter(t, q) => if t !in s.threads { EnterCurrent(s, t, q); }
    case _ => if step.t in s.threads { ActCurrent(s, step.t, step); }
  }

  lemma {:induction false} RunCurrent(max: nat, steps: seq<Step>)
    requires max > 0
    ensures Current(Run(max, steps).cache)
  {
    hide Sound, Current, Next;
    if steps == [] {
      NothingCurrent(max);
    } else {
      RunCurrent(max, steps[..|steps| - 1]);
      StepCurrent(Run(max, steps[..|steps| - 1]), steps[|steps| - 1]);
    }
  }

  lemma NothingCurrent(max: nat)
    ensures Current(New(max))
  {
  }

  lemma {:induction false} RunDated(max: nat, steps: seq<Step>, i: nat)
    requires max > 0 && i <= |steps|
    ensures Dated(Run(max, steps[..i]).cache, Run(max, steps).cache)
    decreases |steps| - i
  {
    hide Sound, Current, Next;
    if i == |steps| {
      assert steps[..i] == steps;
    } else {
      RunDated(max, steps, i + 1);
      assert steps[..i + 1][..i] == steps[..i];
      RunCurrent(max, steps[..i]);
      StepCurrent(Run(max, steps[..i]), steps[i]);
    }
  }

  /** In every run no statement whose preparation began before a Close is kept
      after it. */
  lemma NoneKeptPastClose(max: nat, steps: seq<Step>, i: nat, q: string)
    requires max > 0 && i < |steps| && steps[i] == CloseCache && q in Run(max, steps).cache.items
    ensures var c := Run(max, steps).cache;
            c.items[q] < |c.entries| && c.entries[c.items[q]].call >= |Run(max, steps[..i]).cache.calls|
  {
    hide Sound, Next;
    var before, after := Run(max, steps[..i]).cache, Run(max, steps[..i + 1]).cache;
    RunCurrent(max, steps);
    RunCurrent(max, steps[..i]);
    assert steps[..i + 1][..i] == steps[..i];
    StepCurrent(Run(max, steps[..i]), CloseCache);
    RunDated(max, steps, i + 1);
    RunDated(max, steps, i);
  }
}
