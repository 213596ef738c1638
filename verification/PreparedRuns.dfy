/** Every run of the prepared-statement cache: each statement is closed at most
    once, never while held or waited for, and once it is retired and free. */
module PreparedRuns {
  import opened Counts
  import opened Queues
  import opened Prepared

  // --- the order of use ---

  lemma HitOrder(c: Cache, query: string)
    requires OrderRight(c) && Kept(c) && query in c.items
    ensures OrderRight(Hit(c, query))
  {
    ListsWithout(c.order, c.items.Keys, query);
    ListsSnoc(Without(c.order, query), c.items.Keys - {query}, query);
    assert c.items.Keys - {query} + {query} == c.items.Keys;
  }

  lemma EvictOrder(c: Cache)
    requires OrderRight(c) && Kept(c)
    ensures OrderRight(Evict(c)) && |Evict(c).order| < c.max
  {
    if |c.order| >= c.max {
      assert Evict(c).items.Keys == c.items.Keys - {c.order[0]};
    }
  }

  lemma FailOrder(c: Cache, query: string, e: nat)
    requires OrderRight(c) && e < |c.entries|
    ensures OrderRight(Fail(c, query, e))
  {
    if query in c.items && c.items[query] == e {
      ListsWithout(c.order, c.items.Keys, query);
      assert Fail(c, query, e).items.Keys == c.items.Keys - {query};
    }
  }

  // --- one thread moves ---

  ghost function Moved(threads: map<nat, Thread>, t: nat, x: Option<Thread>): map<nat, Thread> {
    if x.Some? then threads[t := x.value] else threads - {t}
  }

  ghost function Delta(p: Thread -> bool, threads: map<nat, Thread>, t: nat, x: Option<Thread>): int {
    One(x.Some? && p(x.value)) - One(t in threads && p(threads[t]))
  }

  lemma CountMoved(p: Thread -> bool, threads: map<nat, Thread>, t: nat, x: Option<Thread>)
    ensures Count(p, Moved(threads, t, x)) == Count(p, threads) + Delta(p, threads, t, x)
  {
    if x.Some? {
      CountUpdate(p, threads, t, x.value);
    } else {
      CountRemove(p, threads, t);
    }
  }

  /** An entry counts a claim made and one given up, and stays closed right. */
  ghost predicate EntryFollows(c: Cache, after: Cache, e: nat, delta: int)
    requires e < |c.entries| == |after.entries|
  {
    && after.entries[e].call == c.entries[e].call && after.entries[e].refs == c.entries[e].refs + delta
    && (ClosedRight(c.entries[e]) && after.entries[e].refs >= 0 ==> ClosedRight(after.entries[e]))
  }

  /** No complete call changes its entry. */
  ghost predicate CallsStay(c: Cache, after: Cache) {
    |c.calls| <= |after.calls| &&
    forall k :: 0 <= k < |c.calls| && c.calls[k].complete ==>
        after.calls[k].complete && after.calls[k].entry == c.calls[k].entry
  }

  lemma EntriesMove(s: State, after: State, t: nat, x: Option<Thread>)
    requires EntriesRight(s) && CallsStay(s.cache, after.cache) && after.threads == Moved(s.threads, t, x)
    requires |s.cache.entries| == |after.cache.entries|
    requires forall e :: 0 <= e < |s.cache.entries| ==>
             EntryFollows(s.cache, after.cache, e, Delta(Claims(e, s.cache.entries[e].call), s.threads, t, x))
    ensures EntriesRight(after)
  {
    forall e | 0 <= e < |s.cache.entries| ensures EntryRight(after, e) {
      assert EntryRight(s, e);
      CountMoved(Claims(e, s.cache.entries[e].call), s.threads, t, x);
      assert EntryFollows(s.cache, after.cache, e, Delta(Claims(e, s.cache.entries[e].call), s.threads, t, x));
    }
  }

  /** A call under way counts a thread that came and one that left. */
  ghost predicate CallFollows(c: Cache, after: Cache, k: nat, delta: int)
    requires k < |c.calls| <= |after.calls|
  {
    && after.calls[k].complete == c.calls[k].complete && after.calls[k].entry == c.calls[k].entry
    && (!c.calls[k].complete ==> after.calls[k].waiters == c.calls[k].waiters + delta)
  }

  ghost predicate SameOwners(c: Cache, after: Cache) {
    |c.entries| == |after.entries| && forall e :: 0 <= e < |c.entries| ==> after.entries[e].call == c.entries[e].call
  }

  lemma CallsMove(s: State, after: State, t: nat, x: Option<Thread>, k: nat)
    requires CallsRight(s) && SameOwners(s.cache, after.cache) && after.threads == Moved(s.threads, t, x)
    requires k < |s.cache.calls| <= |after.cache.calls|
    requires CallFollows(s.cache, after.cache, k, Delta(OnCall(k), s.threads, t, x))
    ensures CallRight(after, k)
  {
    assert CallRight(s, k);
    CountMoved(OnCall(k), s.threads, t, x);
  }

  // --- entering ---

  lemma HitEntries(s: State, t: nat, q: string)
    requires EntriesRight(s) && Kept(s.cache) && t !in s.threads && q in s.cache.items
    ensures EntriesRight(Put(s, Hit(s.cache, q), t, Holding(s.cache.items[q])))
  {
    var x := Holding(s.cache.items[q]);
    EntriesMove(s, Put(s, Hit(s.cache, q), t, x), t, Some(x));
  }

  /** Threads on calls are where they were, but for t. */
  lemma CallsSame(s: State, after: State, t: nat, x: Option<Thread>)
    requires CallsRight(s) && SameOwners(s.cache, after.cache) && after.threads == Moved(s.threads, t, x)
    requires after.cache.calls == s.cache.calls
    requires t in s.threads && s.threads[t].Waiting? ==>
             s.threads[t].call < |s.cache.calls| && s.cache.calls[s.threads[t].call].complete
    requires x.Some? ==> x.value.Holding?
    requires t in s.threads ==> !s.threads[t].Preparing?
    ensures CallsRight(after)
  {
    forall k | 0 <= k < |s.cache.calls| ensures CallRight(after, k) {
      CallsMove(s, after, t, x, k);
    }
  }

  /** The threads but t are as right as before, and t is. */
  lemma ThreadsMove(s: State, after: State, t: nat, x: Option<Thread>)
    requires ThreadsRight(s) && after.threads == Moved(s.threads, t, x)
    requires |s.cache.calls| <= |after.cache.calls| && |s.cache.entries| <= |after.cache.entries|
    requires forall q ::
               q in s.cache.preparing && !(t in s.threads && s.threads[t] == Preparing(q, s.cache.preparing[q])) ==>
               q in after.cache.preparing && after.cache.preparing[q] == s.cache.preparing[q]
    requires x.Some? ==> !x.value.Preparing? && ThreadRight(after, t)
    ensures ThreadsRight(after)
  {
    forall u | u in after.threads ensures ThreadRight(after, u) {
      if u != t {
        assert ThreadRight(s, u);
        if s.threads[u].Preparing? && t in s.threads && s.threads[t].Preparing? {
          assert ThreadRight(s, t);
        }
      }
    }
  }

  lemma HitKeeps(s: State, t: nat, q: string)
    requires Sound(s) && t !in s.threads && q in s.cache.items
    ensures Sound(Put(s, Hit(s.cache, q), t, Holding(s.cache.items[q])))
  {
    var x := Holding(s.cache.items[q]);
    var after := Put(s, Hit(s.cache, q), t, x);
    HitOrder(s.cache, q);
    HitEntries(s, t, q);
    CallsSame(s, after, t, Some(x));
    ThreadsMove(s, after, t, Some(x));
  }

  lemma JoinEntries(s: State, t: nat, q: string)
    requires EntriesRight(s) && PreparingRight(s.cache) && t !in s.threads && q in s.cache.preparing
    ensures EntriesRight(Put(s, Join(s.cache, q), t, Waiting(s.cache.preparing[q])))
  {
    var x := Waiting(s.cache.preparing[q]);
    var after := Put(s, Join(s.cache, q), t, x);
    forall e | 0 <= e < |s.cache.entries|
      ensures EntryFollows(s.cache, after.cache, e, Delta(Claims(e, s.cache.entries[e].call), s.threads, t, Some(x)))
    {
      assert EntryRight(s, e);
    }
    EntriesMove(s, after, t, Some(x));
  }

  lemma JoinKeeps(s: State, t: nat, q: string)
    requires Sound(s) && t !in s.threads && q in s.cache.preparing
    ensures Sound(Put(s, Join(s.cache, q), t, Waiting(s.cache.preparing[q])))
  {
    var x := Waiting(s.cache.preparing[q]);
    var after := Put(s, Join(s.cache, q), t, x);
    JoinEntries(s, t, q);
    forall k | 0 <= k < |s.cache.calls| ensures CallRight(after, k) {
      CallsMove(s, after, t, Some(x), k);
    }
    ThreadsMove(s, after, t, Some(x));
  }

  lemma NobodyOn(s: State, k: nat)
    requires ThreadsRight(s) && PreparingRight(s.cache) && k == |s.cache.calls|
    ensures Count(OnCall(k), s.threads) == 0
  {
    assert forall u :: u in s.threads ==> ThreadRight(s, u);
    assert Matching(OnCall(k), s.threads) == {};
  }

  lemma StartThreads(s: State, t: nat, q: string)
    requires ThreadsRight(s) && PreparingRight(s.cache) && t !in s.threads && q !in s.cache.preparing
    ensures ThreadsRight(Put(s, Start(s.cache, q), t, Preparing(q, |s.cache.calls|)))
  {
    assert forall u :: u in s.threads ==> ThreadRight(s, u);
  }

  lemma StartCalls(s: State, t: nat, q: string)
    requires ThreadsRight(s) && PreparingRight(s.cache) && CallsRight(s) && t !in s.threads
    ensures CallsRight(Put(s, Start(s.cache, q), t, Preparing(q, |s.cache.calls|)))
  {
    var k0 := |s.cache.calls|;
    var x := Preparing(q, k0);
    var after := Put(s, Start(s.cache, q), t, x);
    NobodyOn(s, k0);
    CountMoved(OnCall(k0), s.threads, t, Some(x));
    forall k | 0 <= k < |after.cache.calls| ensures CallRight(after, k) {
      if k < k0 {
        CallsMove(s, after, t, Some(x), k);
      }
    }
  }

  lemma StartKeeps(s: State, t: nat, q: string)
    requires Sound(s) && t !in s.threads && q !in s.cache.items && q !in s.cache.preparing
    ensures Sound(Put(s, Start(s.cache, q), t, Preparing(q, |s.cache.calls|)))
  {
    var x := Preparing(q, |s.cache.calls|);
    StartThreads(s, t, q);
    StartCalls(s, t, q);
    EntriesMove(s, Put(s, Start(s.cache, q), t, x), t, Some(x));
  }

  // --- a preparation ends ---

  lemma ErrorCalls(s: State, t: nat, q: string, k: nat)
    requires CallsRight(s) && t in s.threads && s.threads[t] == Preparing(q, k) && k < |s.cache.calls| &&
             !s.cache.calls[k].complete
    ensures CallsRight(Drop(s, FinishError(s.cache, q, k), t))
  {
    var after := Drop(s, FinishError(s.cache, q, k), t);
    forall i | 0 <= i < |s.cache.calls| ensures CallRight(after, i) {
      if i == k {
        assert CallRight(s, k);
      } else {
        CallsMove(s, after, t, None, i);
      }
    }
  }

  lemma ErrorKeeps(s: State, t: nat, q: string, k: nat)
    requires Sound(s) && t in s.threads && s.threads[t] == Preparing(q, k) && k < |s.cache.calls|
    ensures Sound(Drop(s, FinishError(s.cache, q, k), t))
  {
    var after := Drop(s, FinishError(s.cache, q, k), t);
    assert ThreadRight(s, t);
    ErrorCalls(s, t, q, k);
    EntriesMove(s, after, t, None);
    ThreadsMove(s, after, t, None);
  }

  lemma EvictKept(c: Cache)
    requires OrderRight(c) && Kept(c)
    ensures Kept(Evict(c)) && |Evict(c).entries| == |c.entries|
  {
    var after := Evict(c);
    if after != c {
      forall e | 0 <= e < |c.entries| && !after.entries[e].retired ensures e in after.items.Values {
        var q :| q in c.items && c.items[q] == e;
        assert q in after.items && after.items[q] == e;
      }
    }
  }

  /** Retiring entries, threads staying, keeps entries right. */
  lemma RetireEntries(s: State, c: Cache)
    requires EntriesRight(s) && c.calls == s.cache.calls && |c.entries| == |s.cache.entries|
    requires forall e :: 0 <= e < |c.entries| ==>
             c.entries[e] == s.cache.entries[e] ||
             (!s.cache.entries[e].retired && c.entries[e] == Retired(s.cache.entries[e]))
    ensures EntriesRight(State(c, s.threads))
  {
    forall e | 0 <= e < |c.entries| ensures EntryRight(State(c, s.threads), e) {
      assert EntryRight(s, e);
    }
  }

  lemma CallsOwn(s: State, c: Cache)
    requires CallsRight(s) && c.calls == s.cache.calls && SameOwners(s.cache, c)
    ensures CallsRight(State(c, s.threads))
  {
    forall k | 0 <= k < |c.calls| ensures CallRight(State(c, s.threads), k) {
      assert CallRight(s, k);
    }
  }

  lemma ThreadsStay(s: State, c: Cache)
    requires ThreadsRight(s) && c.calls == s.cache.calls && |c.entries| == |s.cache.entries| &&
             c.preparing == s.cache.preparing
    ensures ThreadsRight(State(c, s.threads))
  {
    forall u | u in s.threads ensures ThreadRight(State(c, s.threads), u) {
      assert ThreadRight(s, u);
    }
  }

  lemma EvictCache(c: Cache)
    requires OrderRight(c) && Kept(c) && PreparingRight(c)
    ensures var after := Evict(c);
                OrderRight(after) && Kept(after) && PreparingRight(after) && Retires(c, after) && |after.order| < c.max
  {
    EvictOrder(c);
    EvictKept(c);
  }

  lemma EvictKeeps(s: State)
    requires Sound(s)
    ensures Sound(State(Evict(s.cache), s.threads)) && |Evict(s.cache).order| < s.cache.max
  {
    EvictCache(s.cache);
    RetiresKeeps(s, Evict(s.cache));
  }

  /** The cache with its new entry kept, or not. */
  ghost function Completed(c: Cache, q: string, k: nat, keep: bool): Cache
    requires k < |c.calls|
  {
    var after := Complete(c, q, k, Entry(c.calls[k].waiters, !keep, 0, k));
    if keep then after.(items := c.items[q := |c.entries|], order := c.order + [q]) else after
  }

  lemma CompletedKept(c: Cache, q: string, k: nat, keep: bool)
    requires Kept(c) && k < |c.calls| && q !in c.items
    ensures Kept(Completed(c, q, k, keep))
  {
    var after := Completed(c, q, k, keep);
    forall e | 0 <= e < |after.entries| && !after.entries[e].retired ensures e in after.items.Values {
      if e < |c.entries| {
        var r :| r in c.items && c.items[r] == e;
        assert r in after.items && after.items[r] == e;
      } else {
        assert q in after.items && after.items[q] == e;
      }
    }
  }

  lemma CompletedOrder(c: Cache, q: string, k: nat, keep: bool)
    requires OrderRight(c) && k < |c.calls| && q !in c.items && (keep ==> |c.order| < c.max)
    ensures OrderRight(Completed(c, q, k, keep))
  {
    if keep {
      ListsSnoc(c.order, c.items.Keys, q);
      assert Completed(c, q, k, keep).items.Keys == c.items.Keys + {q};
    }
  }

  /** Those on the call are those who claim its entry. */
  lemma PreparedFor(s: State, t: nat, q: string, k: nat)
    requires ThreadsRight(s) && t in s.threads && s.threads[t] == Preparing(q, k)
    ensures Count(OnCall(k), s.threads) ==
            Count(Claims(|s.cache.entries|, k), s.threads[t := Holding(|s.cache.entries|)])
  {
    var e := |s.cache.entries|;
    assert forall u :: u in s.threads ==> ThreadRight(s, u);
    assert Matching(OnCall(k), s.threads) == Matching(Claims(e, k), s.threads[t := Holding(e)]);
  }

  lemma CompletedEntries(s: State, t: nat, q: string, k: nat, keep: bool)
    requires ThreadsRight(s) && EntriesRight(s) && CallsRight(s) && t in s.threads && s.threads[t] == Preparing(q, k)
    requires k < |s.cache.calls| && !s.cache.calls[k].complete
    ensures EntriesRight(Put(s, Completed(s.cache, q, k, keep), t, Holding(|s.cache.entries|)))
  {
    var e0 := |s.cache.entries|;
    var after := Put(s, Completed(s.cache, q, k, keep), t, Holding(e0));
    assert CallRight(s, k);
    PreparedFor(s, t, q, k);
    Positive(s, t, k);
    forall e | 0 <= e < |after.cache.entries| ensures EntryRight(after, e) {
      if e < e0 {
        assert EntryRight(s, e);
        CountMoved(Claims(e, s.cache.entries[e].call), s.threads, t, Some(Holding(e0)));
      }
    }
  }

  lemma Positive(s: State, t: nat, k: nat)
    requires t in s.threads && s.threads[t].Preparing? && s.threads[t].call == k
    ensures Count(OnCall(k), s.threads) > 0
  {
    assert t in Matching(OnCall(k), s.threads);
  }

  lemma CompletedCalls(s: State, t: nat, q: string, k: nat, keep: bool)
    requires EntriesRight(s) && CallsRight(s) && t in s.threads && s.threads[t] == Preparing(q, k)
    requires k < |s.cache.calls| && !s.cache.calls[k].complete
    ensures CallsRight(Put(s, Completed(s.cache, q, k, keep), t, Holding(|s.cache.entries|)))
  {
    var after := Put(s, Completed(s.cache, q, k, keep), t, Holding(|s.cache.entries|));
    forall i | 0 <= i < |after.cache.calls| ensures CallRight(after, i) {
      assert CallRight(s, i);
      CountMoved(OnCall(i), s.threads, t, Some(Holding(|s.cache.entries|)));
    }
  }

  lemma CompletedKeeps(s: State, t: nat, q: string, k: nat, keep: bool)
    requires Sound(s) && t in s.threads && s.threads[t] == Preparing(q, k) && k < |s.cache.calls|
    requires keep ==> |s.cache.order| < s.cache.max
    ensures Sound(Put(s, Completed(s.cache, q, k, keep), t, Holding(|s.cache.entries|)))
  {
    var x := Holding(|s.cache.entries|);
    assert ThreadRight(s, t);
    CompletedOrder(s.cache, q, k, keep);
    CompletedKept(s.cache, q, k, keep);
    CompletedEntries(s, t, q, k, keep);
    CompletedCalls(s, t, q, k, keep);
    ThreadsMove(s, Put(s, Completed(s.cache, q, k, keep), t, x), t, Some(x));
  }

  lemma SuccessKeeps(s: State, t: nat, q: string, k: nat)
    requires Sound(s) && t in s.threads && s.threads[t] == Preparing(q, k) && k < |s.cache.calls|
    ensures Sound(Put(s, FinishSuccess(s.cache, q, k), t, Holding(|s.cache.entries|)))
  {
    if s.cache.calls[k].generation == s.cache.generation {
      EvictKeeps(s);
      CompletedKeeps(State(Evict(s.cache), s.threads), t, q, k, true);
    } else {
      CompletedKeeps(s, t, q, k, false);
    }
  }

  // --- waiting and holding ---

  lemma WakeEntries(s: State, t: nat, k: nat)
    requires EntriesRight(s) && CallsRight(s) && t in s.threads && s.threads[t] == Waiting(k) && k < |s.cache.calls| &&
             s.cache.calls[k].complete
    ensures EntriesRight(Woken(s, t, s.cache.calls[k]))
  {
    assert CallRight(s, k);
    var x := if s.cache.calls[k].entry.None? then None else Some(Holding(s.cache.calls[k].entry.value));
    forall e | 0 <= e < |s.cache.entries|
      ensures EntryFollows(s.cache, s.cache, e, Delta(Claims(e, s.cache.entries[e].call), s.threads, t, x))
    {
      assert EntryRight(s, e);
    }
    EntriesMove(s, Woken(s, t, s.cache.calls[k]), t, x);
  }

  lemma WakeKeeps(s: State, t: nat, k: nat)
    requires Sound(s) && t in s.threads && s.threads[t] == Waiting(k) && k < |s.cache.calls|
    ensures Sound(Woken(s, t, s.cache.calls[k]))
  {
    if s.cache.calls[k].complete {
      var x := if s.cache.calls[k].entry.None? then None else Some(Holding(s.cache.calls[k].entry.value));
      assert CallRight(s, k);
      WakeEntries(s, t, k);
      CallsSame(s, Woken(s, t, s.cache.calls[k]), t, x);
      ThreadsMove(s, Woken(s, t, s.cache.calls[k]), t, x);
    }
  }

  lemma CancelEntries(s: State, t: nat, k: nat)
    requires EntriesRight(s) && CallsRight(s) && t in s.threads && s.threads[t] == Waiting(k) && k < |s.cache.calls|
    ensures EntriesRight(Drop(s, Cancel(s.cache, k), t))
  {
    var after := Drop(s, Cancel(s.cache, k), t);
    assert CallRight(s, k);
    forall e | 0 <= e < |s.cache.entries|
      ensures EntryFollows(s.cache, after.cache, e, Delta(Claims(e, s.cache.entries[e].call), s.threads, t, None))
    {
      assert EntryRight(s, e);
    }
    EntriesMove(s, after, t, None);
  }

  lemma CancelKeeps(s: State, t: nat, k: nat)
    requires Sound(s) && t in s.threads && s.threads[t] == Waiting(k) && k < |s.cache.calls|
    ensures Sound(Drop(s, Cancel(s.cache, k), t))
  {
    var after := Drop(s, Cancel(s.cache, k), t);
    CancelEntries(s, t, k);
    forall i | 0 <= i < |s.cache.calls| ensures CallRight(after, i) {
      CallsMove(s, after, t, None, i);
    }
    ThreadsMove(s, after, t, None);
  }

  lemma ReleaseKeeps(s: State, t: nat, e: nat)
    requires Sound(s) && t in s.threads && s.threads[t] == Holding(e) && e < |s.cache.entries|
    ensures Sound(Drop(s, Release(s.cache, e), t))
  {
    var after := Drop(s, Release(s.cache, e), t);
    EntriesMove(s, after, t, None);
    CallsSame(s, after, t, None);
    ThreadsMove(s, after, t, None);
  }

  lemma FailKept(c: Cache, q: string, e: nat)
    requires Kept(c) && e < |c.entries|
    ensures Kept(Fail(c, q, e))
  {
    var after := Fail(c, q, e);
    if after != c {
      forall i | 0 <= i < |c.entries| && !after.entries[i].retired ensures i in after.items.Values {
        var r :| r in c.items && c.items[r] == i;
        assert r in after.items && after.items[r] == i;
      }
    }
  }

  /** after retires entries of c and changes no more than what it keeps. */
  ghost predicate Retires(c: Cache, after: Cache) {
    && after.calls == c.calls && after.preparing == c.preparing && |after.entries| == |c.entries|
    && forall e :: 0 <= e < |c.entries| ==>
       after.entries[e] == c.entries[e] || (!c.entries[e].retired && after.entries[e] == Retired(c.entries[e]))
  }

  lemma RetiresKeeps(s: State, after: Cache)
    requires ThreadsRight(s) && EntriesRight(s) && CallsRight(s) && Retires(s.cache, after)
    ensures ThreadsRight(State(after, s.threads)) && EntriesRight(State(after, s.threads)) &&
            CallsRight(State(after, s.threads))
  {
    RetireEntries(s, after);
    CallsOwn(s, after);
    ThreadsStay(s, after);
  }

  lemma FailCache(c: Cache, q: string, e: nat)
    requires OrderRight(c) && Kept(c) && PreparingRight(c) && e < |c.entries|
    ensures var after := Fail(c, q, e); OrderRight(after) && Kept(after) && PreparingRight(after) && Retires(c, after)
  {
    FailOrder(c, q, e);
    FailKept(c, q, e);
  }

  lemma FailKeeps(s: State, q: string, e: nat)
    requires Sound(s) && e < |s.cache.entries|
    ensures Sound(State(Fail(s.cache, q, e), s.threads))
  {
    FailCache(s.cache, q, e);
    RetiresKeeps(s, Fail(s.cache, q, e));
  }

  lemma CloseKeeps(s: State)
    requires Sound(s)
    ensures Sound(State(CloseAll(s.cache), s.threads))
  {
    RetiresKeeps(s, CloseAll(s.cache));
  }

  // --- every run ---

  lemma ActedKeeps(s: State, t: nat, step: Step)
    requires Sound(s) && t in s.threads
    ensures Sound(Acted(s, t, step))
  {
    assert ThreadRight(s, t);
    match s.threads[t]
    case Preparing(q, k) =>
      if step.PrepareFails? { ErrorKeeps(s, t, q, k); } else if step.PrepareSucceeds? { SuccessKeeps(s, t, q, k); }
    case Waiting(k) =>
      if step.Wake? { WakeKeeps(s, t, k); } else if step.Abandon? { CancelKeeps(s, t, k); }
    case Holding(e) =>
      if step.Leave? { ReleaseKeeps(s, t, e); } else if step.Stale? { FailKeeps(s, step.query, e); }
  }

  lemma EnteredKeeps(s: State, t: nat, q: string)
    requires Sound(s) && t !in s.threads
    ensures Sound(Entered(s, t, q))
  {
    if q in s.cache.items {
      HitKeeps(s, t, q);
    } else if q in s.cache.preparing {
      JoinKeeps(s, t, q);
    } else {
      StartKeeps(s, t, q);
    }
  }

  lemma NextKeeps(s: State, step: Step)
    requires Sound(s)
    ensures Sound(Next(s, step))
  {
    match step
    case CloseCache => CloseKeeps(s);
    case Enter(t, q) => if t !in s.threads { EnteredKeeps(s, t, q); }
    case _ => if step.t in s.threads { ActedKeeps(s, step.t, step); }
  }

  lemma NewSound(max: nat)
    requires max > 0
    ensures Sound(State(New(max), map[]))
  {
  }

  lemma NextMax(s: State, step: Step)
    requires Sound(s)
    ensures Next(s, step).cache.max == s.cache.max
  {
  }

  /** The next state, of a run that is sound so far. */
  ghost function Then(s: State, step: Step): (after: State)
    requires Sound(s)
    ensures Sound(after) && after.cache.max == s.cache.max
  {
    NextKeeps(s, step);
    NextMax(s, step);
    Next(s, step)
  }

  ghost function Run(max: nat, steps: seq<Step>): (s: State)
    requires max > 0
    ensures Sound(s) && s.cache.max == max
  {
    if steps == [] then
      NewSound(max);
      State(New(max), map[])
    else
      Then(Run(max, steps[..|steps|-1]), steps[|steps|-1])
  }

  /** A thread holds entry e, or waits for the call that prepared it. */
  ghost predicate Claimed(s: State, e: nat)
    requires e < |s.cache.entries|
  {
    exists t :: t in s.threads && (s.threads[t] == Holding(e) || s.threads[t] == Waiting(s.cache.entries[e].call))
  }

  /** In every run a statement is closed, and once, exactly when its entry is
      retired and unclaimed; one not retired is kept, and at most max are. */
  lemma ClosedOnce(max: nat, steps: seq<Step>, e: nat)
    requires max > 0 && e < |Run(max, steps).cache.entries|
    ensures var s := Run(max, steps);
            && s.cache.entries[e].closes == (if s.cache.entries[e].retired && !Claimed(s, e) then 1 else 0)
            && (s.cache.entries[e].retired <==> e !in s.cache.items.Values)
            && |s.cache.items| <= max
  {
    var s := Run(max, steps);
    var claims := Claims(e, s.cache.entries[e].call);
    assert EntryRight(s, e);
    assert Claimed(s, e) <==> Matching(claims, s.threads) != {} by {
      if t :| t in s.threads && claims(s.threads[t]) {
        assert t in Matching(claims, s.threads);
      }
    }
    ListsLength(s.cache.order, s.cache.items.Keys);
  }
}
