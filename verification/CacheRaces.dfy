/** Readers and writers racing over the read cache: a reader takes a stamp,
    queries, then stores; a writer writes, then invalidates each of its targets.
    Every step below is atomic; any number of calls interleave. */
module CacheRaces {
  import opened Expiries

  /** What a write invalidates: a relation, or all of a database ("") . */
  datatype Target = Target(physical: string, relation: string)

  /** Whether invalidating t drops what is cached under k. */
  predicate Touches(t: Target, k: Key) {
    k.database == t.physical && (t.relation == "" || k.relation == t.relation || k.relation == "")
  }

  /** A committed write, and how many of its targets it has invalidated. */
  datatype Write = Write(targets: seq<Target>, done: nat)

  /** seen counts the writes committed before the query. */
  datatype Read =
    | Stamped(key: Key, stamp: nat)
    | Queried(key: Key, stamp: nat, seen: nat)

  /** cached holds, for each entry, the writes its query had seen. */
  datatype World = World(writes: seq<Write>, stamps: map<string, nat>, cached: map<Key, nat>, readers: map<nat, Read>)

  function StampOf(w: World, database: string): nat {
    if database in w.stamps then w.stamps[database] else 0
  }

  predicate Init(w: World) {
    w == World([], map[], map[], map[])
  }

  datatype Step =
    | Commit(targets: seq<Target>)
    | Invalidate(write: nat)
    | TakeStamp(read: nat, key: Key)
    | Query(read: nat)
    | Store(read: nat)
    | Leave(read: nat)
    | Drop(key: Key)

  /** The state after a step; a step that cannot be taken changes nothing. */
  function After(w: World, s: Step): World {
    match s
    case Commit(targets) => w.(writes := w.writes + [Write(targets, 0)])
    case Invalidate(i) =>
      if i < |w.writes| && w.writes[i].done < |w.writes[i].targets| then
        var t := w.writes[i].targets[w.writes[i].done];
        w.(writes := w.writes[i := w.writes[i].(done := w.writes[i].done + 1)],
           stamps := w.stamps[t.physical := StampOf(w, t.physical) + 1],
           cached := map k | k in w.cached && !Touches(t, k) :: w.cached[k])
      else w
    case TakeStamp(id, key) => w.(readers := w.readers[id := Stamped(key, StampOf(w, key.database))])
    case Query(id) =>
      if id in w.readers && w.readers[id].Stamped? then
        w.(readers := w.readers[id := Queried(w.readers[id].key, w.readers[id].stamp, |w.writes|)])
      else w
    case Store(id) =>
      if id in w.readers && w.readers[id].Queried? && w.readers[id].stamp == StampOf(w, w.readers[id].key.database) then
        w.(cached := w.cached[w.readers[id].key := w.readers[id].seen], readers := w.readers - {id})
      else w
    case Leave(id) => w.(readers := w.readers - {id})
    case Drop(k) => w.(cached := w.cached - {k})
  }

  function Run(w: World, steps: seq<Step>): World {
    if steps == [] then w else After(Run(w, steps[..|steps|-1]), steps[|steps|-1])
  }

  // --- what every step keeps ---

  predicate Invalidated(w: World, i: nat, j: nat) {
    i < |w.writes| && j < w.writes[i].done && j < |w.writes[i].targets|
  }

  /** No entry a past invalidation touches was queried before its write. */
  ghost predicate CachedFresh(w: World) {
    forall k, i: nat, j: nat :: k in w.cached && Invalidated(w, i, j) && Touches(w.writes[i].targets[j], k) ==>
        i < w.cached[k]
  }

  /** r has queried, and its database was not invalidated since its stamp. */
  predicate Current(w: World, r: Read) {
    r.Queried? && r.stamp == StampOf(w, r.key.database)
  }

  /** A stamp still current was taken after every invalidation of its database. */
  ghost predicate ReadsFresh(w: World) {
    forall id, i: nat, j: nat :: id in w.readers && Current(w, w.readers[id]) && Invalidated(w, i, j) ==>
      (w.writes[i].targets[j].physical == w.readers[id].key.database ==> i < w.readers[id].seen)
  }

  ghost predicate StampsPast(w: World) {
    forall id :: id in w.readers ==> w.readers[id].stamp <= StampOf(w, w.readers[id].key.database)
  }

  ghost predicate Fresh(w: World) {
    CachedFresh(w) && ReadsFresh(w) && StampsPast(w)
  }

  lemma CommitKeeps(w: World, targets: seq<Target>)
    requires Fresh(w)
    ensures Fresh(After(w, Commit(targets)))
  {
    var b := After(w, Commit(targets));
    assert forall i :: 0 <= i < |w.writes| ==> b.writes[i] == w.writes[i];
    assert forall i: nat, j: nat :: Invalidated(b, i, j) ==> Invalidated(w, i, j);
  }

  lemma InvalidateKeeps(w: World, i: nat)
    requires Fresh(w)
    ensures Fresh(After(w, Invalidate(i)))
  {
    var b := After(w, Invalidate(i));
    if i < |w.writes| && w.writes[i].done < |w.writes[i].targets| {
      var n := w.writes[i].done;
      var t := w.writes[i].targets[n];
      forall m: nat, j: nat | Invalidated(b, m, j) ensures (m == i && j == n) || Invalidated(w, m, j) {
      }
    }
  }

  lemma QueryKeeps(w: World, id: nat)
    requires Fresh(w)
    ensures Fresh(After(w, Query(id)))
  {
    var b := After(w, Query(id));
    assert forall i: nat, j: nat :: Invalidated(b, i, j) ==> Invalidated(w, i, j);
  }

  lemma StoreKeeps(w: World, id: nat)
    requires Fresh(w)
    ensures Fresh(After(w, Store(id)))
  {
    var b := After(w, Store(id));
    assert forall i: nat, j: nat :: Invalidated(b, i, j) ==> Invalidated(w, i, j);
  }

  lemma StepKeeps(w: World, s: Step)
    requires Fresh(w)
    ensures Fresh(After(w, s))
  {
    match s
    case Commit(targets) => CommitKeeps(w, targets);
    case Invalidate(i) => InvalidateKeeps(w, i);
    case TakeStamp(_, _) => assert forall i: nat, j: nat :: Invalidated(After(w, s), i, j) ==> Invalidated(w, i, j);
    case Query(id) => QueryKeeps(w, id);
    case Store(id) => StoreKeeps(w, id);
    case Leave(_) => assert forall i: nat, j: nat :: Invalidated(After(w, s), i, j) ==> Invalidated(w, i, j);
    case Drop(_) => assert forall i: nat, j: nat :: Invalidated(After(w, s), i, j) ==> Invalidated(w, i, j);
  }

  lemma {:induction false} RunKeeps(w: World, steps: seq<Step>)
    requires Fresh(w)
    ensures Fresh(Run(w, steps))
  {
    if steps != [] {
      RunKeeps(w, steps[..|steps|-1]);
      StepKeeps(Run(w, steps[..|steps|-1]), steps[|steps|-1]);
    }
  }

  /** In every interleaving, once the invalidations of a write returned, nothing
      cached that one of its targets touches was queried before it. */
  lemma NoStaleEntry(w: World, steps: seq<Step>, i: nat, t: Target, k: Key)
    requires Init(w)
    requires var b := Run(w, steps);
             i < |b.writes| && b.writes[i].done == |b.writes[i].targets| && t in b.writes[i].targets &&
             k in b.cached && Touches(t, k)
    ensures i < Run(w, steps).cached[k]
  {
    var b := Run(w, steps);
    RunKeeps(w, steps);
    var j :| 0 <= j < |b.writes[i].targets| && b.writes[i].targets[j] == t;
    assert Invalidated(b, i, j);
  }
}
