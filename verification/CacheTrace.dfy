/** The read cache takes the steps of the racing readers and writers: a cache
    that mirrors a world mirrors one the world comes to. */
module CacheTrace {
  import opened Expiries
  import opened TtlCache
  import R = CacheRaces

  /** w has what the cache has; seen is how many writes the query of a value had
      seen. */
  ghost predicate Mirrors<T(!new)>(w: R.World, m: Contents<T>, stamps: map<string, nat>, seen: T -> nat) {
    w.stamps == stamps && w.cached.Keys == m.Keys && forall k :: k in m ==> w.cached[k] == seen(m[k].value)
  }

  predicate Drops(steps: seq<R.Step>) {
    forall i :: 0 <= i < |steps| ==> steps[i].Drop?
  }

  lemma {:induction false} RunConcat(w: R.World, a: seq<R.Step>, b: seq<R.Step>)
    ensures R.Run(w, a + b) == R.Run(R.Run(w, a), b)
    decreases |b|
  {
    if b == [] {
      assert a + b == a;
    } else {
      var n := |b| - 1;
      RunConcat(w, a, b[..n]);
      assert (a + b)[..|a + b| - 1] == a + b[..n];
    }
  }

  lemma RunOne(w: R.World, s: R.Step)
    ensures R.Run(w, [s]) == R.After(w, s)
  {
    assert [s][..0] == [];
  }

  /** Entries that go are dropped one by one. */
  lemma {:induction false} LosesBySteps<T(!new)>(
    w: R.World, m: Contents<T>, n: Contents<T>, stamps: map<string, nat>, seen: T -> nat) returns (steps: seq<R.Step>)
    requires Mirrors(w, m, stamps, seen) && forall k :: k in n ==> k in m && m[k] == n[k]
    ensures Drops(steps) && Mirrors(R.Run(w, steps), n, stamps, seen)
    decreases |m|
  {
    if k :| k in m && k !in n {
      var rest := LosesBySteps(R.After(w, R.Drop(k)), m - {k}, n, stamps, seen);
      RunOne(w, R.Drop(k));
      RunConcat(w, [R.Drop(k)], rest);
      steps := [R.Drop(k)] + rest;
    } else {
      assert m.Keys == n.Keys;
      steps := [];
    }
  }

  /** Invalidating is the step of the write whose target it is. */
  lemma InvalidateSteps<T(!new)>(w: R.World, i: nat, m: Contents<T>, stamps: map<string, nat>, seen: T -> nat)
    requires Mirrors(w, m, stamps, seen) && i < |w.writes| && w.writes[i].done < |w.writes[i].targets|
    ensures var t := w.writes[i].targets[w.writes[i].done];
            var next := stamps[t.physical := (if t.physical in stamps then stamps[t.physical] else 0) + 1];
            Mirrors(R.After(w, R.Invalidate(i)), Untouched(m, t.physical, t.relation), next, seen)
  {
  }

  /** What storing leaves: what was stored before, without what expired or was
      evicted, and the entry. */
  ghost predicate Stored<T(!new)>(m: Contents<T>, n: Contents<T>, k: Key, v: T) {
    k in n && n[k].value == v && forall j :: j in n && j != k ==> j in m && m[j] == n[j]
  }

  lemma StoreSteps<T(!new)>(
    w: R.World, id: nat, m: Contents<T>, n: Contents<T>, k: Key, v: T, stamps: map<string, nat>, seen: T -> nat)
    returns (steps: seq<R.Step>)
    requires Mirrors(w, m, stamps, seen) && Stored(m, n, k, v)
    requires id in w.readers && w.readers[id] == R.Queried(k, R.StampOf(w, k.database), seen(v))
    ensures steps != [] && steps[0] == R.Store(id) && Drops(steps[1..]) && Mirrors(R.Run(w, steps), n, stamps, seen)
  {
    var stored := m[k := n[k]];
    var rest := LosesBySteps(R.After(w, R.Store(id)), stored, n, stamps, seen);
    RunOne(w, R.Store(id));
    RunConcat(w, [R.Store(id)], rest);
    steps := [R.Store(id)] + rest;
  }

  lemma StampsMirrored<T(!new)>(w: R.World, m: Contents<T>, stamps: map<string, nat>, seen: T -> nat)
    requires Mirrors(w, m, stamps, seen)
    ensures w.stamps == stamps
  {
  }

  // --- the operations ---

  /** A lookup drops its entry when it expired, and no more. */
  method Get<T(!new)>(c: Cache<T>, k: Key, now: int, ghost w: R.World, ghost seen: T -> nat)
    returns (r: Found<T>, ghost steps: seq<R.Step>)
    requires c.Valid() && Mirrors(w, c.store.entries, c.stamps, seen)
    modifies c`store
    ensures c.Valid() && Drops(steps) && Mirrors(R.Run(w, steps), c.store.entries, c.stamps, seen)
    ensures r.Hit? ==> k in w.cached && seen(r.value) == w.cached[k]
  {
    hide Sound, R.Run, Fits, Bytes;
    ghost var before := c.store.entries;
    r := c.GetSized(k, now);
    steps := LosesBySteps(w, before, c.store.entries, c.stamps, seen);
  }

  /** A reader that queried stores what it found, unless its stamp is past or the
      value does not fit: then nothing changes. */
  method Set<T(!new)>(
    c: Cache<T>, k: Key, v: T, stamp: nat, size: nat, now: int, ghost id: nat, ghost w: R.World, ghost seen: T -> nat)
    returns (ghost steps: seq<R.Step>)
    requires c.Valid() && Mirrors(w, c.store.entries, c.stamps, seen)
    requires id in w.readers && w.readers[id] == R.Queried(k, stamp, seen(v))
    modifies c`store
    ensures c.Valid() && Mirrors(R.Run(w, steps), c.store.entries, c.stamps, seen)
    ensures steps == [] || (steps[0] == R.Store(id) && Drops(steps[1..]))
    ensures steps != [] <==> R.StampOf(w, k.database) == stamp && !(c.maxBytes > 0 && size > c.maxBytes)
  {
    hide Sound, Mirrors, Needed, EvictedFirst, Live, Stored, Fits, Bytes;
    ghost var before := c.store.entries;
    StampsMirrored(w, before, c.stamps, seen);
    c.SetSized(k, v, stamp, size, now);
    steps := [];
    if c.StampOf(k.database) == stamp && !(c.maxBytes > 0 && size > c.maxBytes) {
      KeptStored(before, c.store.entries, k, v, now);
      steps := StoreSteps(w, id, before, c.store.entries, k, v, c.stamps, seen);
    }
  }

  lemma KeptStored<T(!new)>(m: Contents<T>, n: Contents<T>, k: Key, v: T, now: int)
    requires k in n && n[k].value == v && EvictedFirst(Live(m, now) - {k}, n - {k})
    ensures Stored(m, n, k, v)
  {
    forall j | j in n && j != k ensures j in m && m[j] == n[j] {
      assert j in n - {k};
    }
  }

  /** A writer invalidates its next target. */
  method Invalidate<T(!new)>(
    c: Cache<T>, database: string, relation: string, ghost i: nat, ghost w: R.World, ghost seen: T -> nat)
    requires c.Valid() && Mirrors(w, c.store.entries, c.stamps, seen)
    requires i < |w.writes| && w.writes[i].done < |w.writes[i].targets|
    requires w.writes[i].targets[w.writes[i].done] == R.Target(database, relation)
    modifies c`store, c`stamps
    ensures c.Valid() && Mirrors(R.After(w, R.Invalidate(i)), c.store.entries, c.stamps, seen)
  {
    hide Sound, Mirrors, Untouched, R.After, Fits, Bytes;
    InvalidateSteps(w, i, c.store.entries, c.stamps, seen);
    c.Invalidate(database, relation);
  }
}
