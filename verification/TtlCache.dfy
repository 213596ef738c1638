/** The read cache: entries in a map, in a heap by expiry, and in an index by
    database and relation, within a cap of entries and one of bytes. */
module TtlCache {
  import opened Expiries

  type Contents<T> = map<Key, Entry<T>>

  type Index = map<string, map<string, set<Key>>>

  // --- the bytes of entries ---

  ghost function Bytes<T(!new)>(m: Contents<T>): nat
    decreases |m|
  {
    if m == map[] then 0
    else
      var k :| k in m;
      m[k].size + Bytes(m - {k})
  }

  lemma {:induction false} BytesWithout<T(!new)>(m: Contents<T>, k: Key)
    requires k in m
    ensures Bytes(m) == m[k].size + Bytes(m - {k})
    decreases |m|
  {
    var j :| j in m && Bytes(m) == m[j].size + Bytes(m - {j});
    if j != k {
      BytesWithout(m - {j}, k);
      BytesWithout(m - {k}, j);
      assert m - {j} - {k} == m - {k} - {j};
    }
  }

  lemma BytesWith<T(!new)>(m: Contents<T>, k: Key, e: Entry<T>)
    requires k !in m
    ensures Bytes(m[k := e]) == e.size + Bytes(m)
  {
    BytesWithout(m[k := e], k);
    assert m[k := e] - {k} == m;
  }

  // --- the index ---

  /** The index holds exactly keys, and nothing empty. */
  ghost predicate Indexed(index: Index, keys: set<Key>) {
    && (forall d, r, k :: d in index && r in index[d] && k in index[d][r] ==>
       k in keys && k.database == d && k.relation == r)
    && (forall k :: k in keys ==>
       k.database in index && k.relation in index[k.database] && k in index[k.database][k.relation])
    && (forall d, r :: d in index && r in index[d] ==> index[d][r] != {})
    && (forall d :: d in index ==> index[d] != map[])
  }

  function WithIndex(index: Index, k: Key): Index {
    var relations := if k.database in index then index[k.database] else map[];
    var keys := if k.relation in relations then relations[k.relation] else {};
    index[k.database := relations[k.relation := keys + {k}]]
  }

  function WithoutIndex(index: Index, k: Key): Index {
    if k.database !in index || k.relation !in index[k.database] then index
    else
      var relations := index[k.database];
      var keys := relations[k.relation] - {k};
      var left := if keys == {} then relations - {k.relation} else relations[k.relation := keys];
      if left == map[] then index - {k.database} else index[k.database := left]
  }

  lemma IndexAdds(index: Index, keys: set<Key>, k: Key)
    requires Indexed(index, keys)
    ensures Indexed(WithIndex(index, k), keys + {k})
  {
    var r := WithIndex(index, k);
    assert k in r[k.database][k.relation];
  }

  lemma IndexRemoves(index: Index, keys: set<Key>, k: Key)
    requires Indexed(index, keys) && k in keys
    ensures Indexed(WithoutIndex(index, k), keys - {k})
  {
    var relations := index[k.database];
    var set_ := relations[k.relation] - {k};
    var left := if set_ == {} then relations - {k.relation} else relations[k.relation := set_];
    forall j | j in keys - {k} && j.database == k.database
      ensures j.relation in left && j in left[j.relation]
    {
    }
    if left == map[] {
      assert forall j :: j in keys - {k} ==> j.database != k.database;
    }
  }

  /** The keys the index holds under a relation of a database. */
  function Under(index: Index, database: string, relation: string): set<Key> {
    if database in index && relation in index[database] then index[database][relation] else {}
  }

  // --- what eviction takes ---

  /** after keeps the entries of before but some that expire no later. */
  ghost predicate EvictedFirst<T(!new)>(before: Contents<T>, after: Contents<T>) {
    && (forall k :: k in after ==> k in before && before[k] == after[k])
    && (forall k, j :: k in before && k !in after && j in after ==> before[k].expires <= after[j].expires)
  }

  lemma EvictsFirst<T(!new)>(before: Contents<T>, now: Contents<T>, k: Key)
    requires EvictedFirst(before, now) && First(now, k)
    ensures EvictedFirst(before, now - {k})
  {
  }

  /** h holds exactly the entries of m. */
  ghost predicate Holds<T(!new)>(h: seq<Entry<T>>, at: map<Key, nat>, m: Contents<T>) {
    && Positioned(h, at) && Ordered(h) && at.Keys == m.Keys
    && (forall k :: k in m ==> m[k].key == k && m[k] in h)
    && (forall e :: e in h ==> e.key in m && m[e.key] == e)
  }

  lemma HeldCount<T(!new)>(h: seq<Entry<T>>, at: map<Key, nat>, m: Contents<T>)
    requires Holds(h, at, m)
    ensures |h| == |m|
    decreases |h|
  {
    if h == [] {
      assert m.Keys == {};
    } else {
      var k := h[|h|-1].key;
      KeysCount(h, m.Keys);
    }
  }

  /** Distinct keys, as many as entries. */
  lemma {:induction false} KeysCount<T(!new)>(h: seq<Entry<T>>, keys: set<Key>)
    requires forall i, j :: 0 <= i < j < |h| ==> h[i].key != h[j].key
    requires forall k :: k in keys <==> exists i :: 0 <= i < |h| && h[i].key == k
    ensures |h| == |keys|
  {
    if h == [] {
      assert keys == {};
    } else {
      var n := |h| - 1;
      var k := h[n].key;
      forall j ensures j in keys - {k} <==> exists i :: 0 <= i < n && h[..n][i].key == j {
        if j in keys - {k} {
          var i :| 0 <= i < |h| && h[i].key == j;
          assert h[..n][i].key == j;
        }
      }
      KeysCount(h[..n], keys - {k});
    }
  }

  /** The first entry of the heap expires first of all. */
  lemma FirstOfAll<T(!new)>(h: seq<Entry<T>>, at: map<Key, nat>, m: Contents<T>)
    requires Holds(h, at, m) && h != []
    ensures h[0].key in m && m[h[0].key] == h[0] && forall k :: k in m ==> h[0].expires <= m[k].expires
  {
    assert h[0] in h;
    forall k | k in m ensures h[0].expires <= m[k].expires {
      FirstExpires(h, at[k]);
    }
  }

  lemma RemovedHolds<T(!new)>(
    h: seq<Entry<T>>, at: map<Key, nat>, m: Contents<T>, g: seq<Entry<T>>, to: map<Key, nat>, k: Key)
    requires Holds(h, at, m) && k in m && Positioned(g, to) && Ordered(g)
    requires forall e :: e in g <==> e in h && e != m[k]
    ensures Holds(g, to, m - {k})
  {
    forall j ensures j in to <==> j in m && j != k {
      if j in to {
        assert g[to[j]] in g;
      }
      if j in m && j != k {
        assert m[j] in g;
      }
    }
  }

  lemma AddedHolds<T(!new)>(
    h: seq<Entry<T>>, at: map<Key, nat>, m: Contents<T>, g: seq<Entry<T>>, to: map<Key, nat>, e: Entry<T>)
    requires Holds(h, at, m) && e.key !in m && Positioned(g, to) && Ordered(g)
    requires forall x :: x in g <==> x in h || x == e
    ensures Holds(g, to, m[e.key := e])
  {
    forall j ensures j in to <==> j in m || j == e.key {
      if j in to {
        assert g[to[j]] in g;
      }
      if j in m {
        assert m[j] in g;
      }
      assert e in g;
    }
  }

  predicate Fits(count: nat, bytes: nat, maxSize: int, maxBytes: int) {
    count <= maxSize && (maxBytes > 0 ==> bytes <= maxBytes)
  }

  /** With one of the evicted back, more entries of size bytes would not fit. */
  ghost predicate Needed<T(!new)>(
    before: Contents<T>, after: Contents<T>, more: nat, size: nat, maxSize: int, maxBytes: int)
  {
    before != after ==>
      exists k :: k in before && k !in after &&
                  !Fits(|after| + 1 + more, Bytes(after) + before[k].size + size, maxSize, maxBytes)
  }

  datatype Found<T> = Miss | Hit(value: T, size: nat)

  /** The entries not expired by now. */
  function Live<T(!new)>(m: Contents<T>, now: int): Contents<T> {
    map k | k in m && now <= m[k].expires :: m[k]
  }

  /** The entries, by key, by database and relation, and by expiry. */
  datatype Store<T> = Store(
    entries: Contents<T>, byDatabase: Index, expiry: seq<Entry<T>>, at: map<Key, nat>, bytes: int)

  /** The map, the heap and the index hold the same entries, and bytes is the
      sum of their sizes. */
  ghost predicate Sound<T(!new)>(s: Store<T>) {
    Holds(s.expiry, s.at, s.entries) && Indexed(s.byDatabase, s.entries.Keys) && s.bytes == Bytes(s.entries)
  }

  /** Drops an entry from the map, the heap and the index. */
  method RemoveEntry<T(!new)>(s: Store<T>, k: Key) returns (r: Store<T>)
    requires Sound(s) && k in s.entries
    ensures Sound(r) && r.entries == s.entries - {k}
  {
    hide Indexed, Bytes;
    var e := s.entries[k];
    BytesWithout(s.entries, k);
    IndexRemoves(s.byDatabase, s.entries.Keys, k);
    PositionOf(s.expiry, s.at, s.entries, k);
    var h, to := Remove(s.expiry, s.at, s.at[k]);
    RemovedHolds(s.expiry, s.at, s.entries, h, to, k);
    r := Store(s.entries - {k}, WithoutIndex(s.byDatabase, k), h, to, s.bytes - e.size);
    assert r.entries.Keys == s.entries.Keys - {k};
  }

  lemma PositionOf<T(!new)>(h: seq<Entry<T>>, at: map<Key, nat>, m: Contents<T>, k: Key)
    requires Holds(h, at, m) && k in m
    ensures at[k] < |h| && h[at[k]] == m[k]
  {
    assert h[at[k]] in h;
  }

  method InsertEntry<T(!new)>(s: Store<T>, e: Entry<T>) returns (r: Store<T>)
    requires Sound(s) && e.key !in s.entries
    ensures Sound(r) && r.entries == s.entries[e.key := e]
  {
    hide Indexed, Bytes;
    BytesWith(s.entries, e.key, e);
    IndexAdds(s.byDatabase, s.entries.Keys, e.key);
    var h, to := Push(s.expiry, s.at, e);
    AddedHolds(s.expiry, s.at, s.entries, h, to, e);
    r := Store(s.entries[e.key := e], WithIndex(s.byDatabase, e.key), h, to, s.bytes + e.size);
    assert r.entries.Keys == s.entries.Keys + {e.key};
  }

  /** k expires first of m. */
  ghost predicate First<T(!new)>(m: Contents<T>, k: Key) {
    k in m && forall j :: j in m ==> m[k].expires <= m[j].expires
  }

  /** The heap has as many entries as the map, and the first expires first. */
  lemma Earliest<T(!new)>(s: Store<T>)
    requires Sound(s)
    ensures |s.expiry| == |s.entries| && s.bytes == Bytes(s.entries)
    ensures s.expiry != [] ==> First(s.entries, s.expiry[0].key) && s.entries[s.expiry[0].key] == s.expiry[0]
  {
    HeldCount(s.expiry, s.at, s.entries);
    if s.expiry != [] {
      FirstOfAll(s.expiry, s.at, s.entries);
    }
  }

  /** Drops the entries closest to expiry until more entries of size bytes fit,
      and no more of them than that takes. */
  method Evict<T(!new)>(s: Store<T>, more: nat, size: nat, maxSize: int, maxBytes: int) returns (r: Store<T>)
    requires Sound(s)
    ensures Sound(r) && EvictedFirst(s.entries, r.entries)
    ensures r.entries == map[] || Fits(|r.entries| + more, Bytes(r.entries) + size, maxSize, maxBytes)
    ensures Needed(s.entries, r.entries, more, size, maxSize, maxBytes)
  {
    hide Sound;
    r := s;
    Earliest(r);
    while |r.expiry| > 0 && (|r.entries| + more > maxSize || (maxBytes > 0 && r.bytes + size > maxBytes))
      invariant Sound(r) && EvictedFirst(s.entries, r.entries)
      invariant |r.expiry| == |r.entries| && r.bytes == Bytes(r.entries)
      invariant Needed(s.entries, r.entries, more, size, maxSize, maxBytes)
      decreases |r.entries|
    {
      var k := r.expiry[0].key;
      Earliest(r);
      EvictsFirst(s.entries, r.entries, k);
      BytesWithout(r.entries, k);
      r := RemoveEntry(r, k);
      Earliest(r);
    }
  }

  method DropExpired<T(!new)>(s: Store<T>, now: int) returns (r: Store<T>)
    requires Sound(s)
    ensures Sound(r) && r.entries == Live(s.entries, now)
  {
    hide Sound;
    r := s;
    Earliest(r);
    while |r.expiry| > 0 && now > r.expiry[0].expires
      invariant Sound(r) && Live(r.entries, now) == Live(s.entries, now)
      decreases |r.entries|
    {
      Earliest(r);
      r := RemoveEntry(r, r.expiry[0].key);
    }
    Earliest(r);
    assert Live(r.entries, now) == r.entries;
  }

  /** The store without what expired, and without k. */
  method Without<T(!new)>(s: Store<T>, k: Key, now: int) returns (r: Store<T>)
    requires Sound(s)
    ensures Sound(r) && r.entries == Live(s.entries, now) - {k}
  {
    hide Sound;
    r := DropExpired(s, now);
    if k in r.entries {
      r := RemoveEntry(r, k);
    } else {
      assert r.entries == r.entries - {k};
    }
  }

  /** Stores a new entry, evicting what it takes. */
  method Place<T(!new)>(s: Store<T>, e: Entry<T>, maxSize: int, maxBytes: int) returns (r: Store<T>)
    requires Sound(s) && e.key !in s.entries && maxSize >= 1 && (maxBytes > 0 ==> e.size <= maxBytes)
    ensures Sound(r) && e.key in r.entries && r.entries[e.key] == e
    ensures EvictedFirst(s.entries, r.entries - {e.key})
    ensures Needed(s.entries, r.entries - {e.key}, 1, e.size, maxSize, maxBytes)
    ensures Fits(|r.entries|, Bytes(r.entries), maxSize, maxBytes)
  {
    hide Sound;
    var kept := Evict(s, 1, e.size, maxSize, maxBytes);
    AddedFits(kept.entries, e, maxSize, maxBytes);
    r := InsertEntry(kept, e);
  }

  lemma AddedFits<T(!new)>(m: Contents<T>, e: Entry<T>, maxSize: int, maxBytes: int)
    requires e.key !in m && maxSize >= 1 && (maxBytes > 0 ==> e.size <= maxBytes)
    requires m == map[] || Fits(|m| + 1, Bytes(m) + e.size, maxSize, maxBytes)
    ensures m[e.key := e] - {e.key} == m
    ensures Fits(|m[e.key := e]|, Bytes(m[e.key := e]), maxSize, maxBytes)
  {
    BytesWith(m, e.key, e);
    assert m[e.key := e].Keys == m.Keys + {e.key};
  }

  /** Drops the entries of keys. */
  method RemoveKeys<T(!new)>(s: Store<T>, keys: set<Key>) returns (r: Store<T>)
    requires Sound(s) && keys <= s.entries.Keys
    ensures Sound(r) && r.entries == s.entries - keys
  {
    hide Sound;
    r := s;
    var left := keys;
    while left != {}
      invariant left <= keys && Sound(r) && r.entries == s.entries - (keys - left)
      decreases |left|
    {
      var k :| k in left;
      r := RemoveEntry(r, k);
      left := left - {k};
    }
  }

  lemma UnderMeans<T(!new)>(s: Store<T>, database: string, relation: string)
    requires Sound(s)
    ensures Under(s.byDatabase, database, relation) == Of(s.entries, database, {relation})
  {
  }

  lemma IndexedRelations<T(!new)>(s: Store<T>, database: string)
    requires Sound(s)
    ensures var all := if database in s.byDatabase then s.byDatabase[database].Keys else {};
            forall k :: k in s.entries && k.database == database ==> k.relation in all
  {
  }

  /** What a write to relation of database leaves: an empty relation is all of
      the database; derived data goes with any. */
  function Untouched<T(!new)>(m: Contents<T>, database: string, relation: string): Contents<T> {
    map k | k in m && !(k.database == database && (relation == "" || k.relation == relation || k.relation == "")) ::
        m[k]
  }

  method InvalidateStore<T(!new)>(s: Store<T>, database: string, relation: string) returns (r: Store<T>)
    requires Sound(s)
    ensures Sound(r) && r.entries == Untouched(s.entries, database, relation)
  {
    hide Sound;
    if relation == "" {
      r := InvalidateDatabase(s, database);
    } else {
      UnderMeans(s, database, relation);
      UnderMeans(s, database, "");
      r := RemoveKeys(s, Under(s.byDatabase, database, relation));
      r := RemoveKeys(r, Under(s.byDatabase, database, ""));
      assert r.entries == Untouched(s.entries, database, relation);
    }
  }

  /** The entries of database under relations. */
  ghost function Of<T(!new)>(m: Contents<T>, database: string, relations: set<string>): set<Key> {
    set k | k in m && k.database == database && k.relation in relations
  }

  method InvalidateDatabase<T(!new)>(s: Store<T>, database: string) returns (r: Store<T>)
    requires Sound(s)
    ensures Sound(r) && r.entries == Untouched(s.entries, database, "")
  {
    hide Sound;
    r := s;
    var all := if database in s.byDatabase then s.byDatabase[database].Keys else {};
    IndexedRelations(s, database);
    var left := all;
    while left != {}
      invariant left <= all && Sound(r) && r.entries == s.entries - Of(s.entries, database, all - left)
      decreases |left|
    {
      var relation :| relation in left;
      UnderMeans(s, database, relation);
      assert Of(s.entries, database, all - left) + Under(s.byDatabase, database, relation) ==
             Of(s.entries, database, all - (left - {relation}));
      r := RemoveKeys(r, Under(s.byDatabase, database, relation));
      left := left - {relation};
    }
    assert all - left == all;
    assert r.entries == Untouched(s.entries, database, "");
  }

  const DEFAULT_MAX_SIZE := 1024

  class Cache<T(!new)> {
    var ttl: int
    var maxSize: int
    var maxBytes: int
    var store: Store<T>
    var stamps: map<string, nat>

    ghost predicate Valid()
      reads this
    {
      Sound(store) && maxSize >= 1 && maxBytes >= 0 && Fits(|store.entries|, Bytes(store.entries), maxSize, maxBytes)
    }

    function StampOf(database: string): nat
      reads this`stamps
    {
      if database in stamps then stamps[database] else 0
    }

    constructor (ttl: int, maxSize: int)
      ensures Valid() && store.entries == map[] && stamps == map[]
      ensures this.ttl == ttl && this.maxBytes == 0
      ensures this.maxSize == if maxSize <= 0 then DEFAULT_MAX_SIZE else maxSize
    {
      this.ttl, this.maxBytes := ttl, 0;
      this.maxSize := if maxSize <= 0 then DEFAULT_MAX_SIZE else maxSize;
      var empty := Store(map[], map[], [], map[], 0);
      store, stamps := empty, map[];
    }

    method UpdateLimits(ttl: int, maxSize: int, maxBytes: int)
      requires Valid()
      modifies this
      ensures Valid() && stamps == old(stamps)
      ensures EvictedFirst(old(store.entries), store.entries)
      ensures Needed(old(store.entries), store.entries, 0, 0, this.maxSize, this.maxBytes)
      ensures this.ttl == ttl && this.maxSize == (if maxSize <= 0 then DEFAULT_MAX_SIZE else maxSize)
      ensures this.maxBytes == if maxBytes < 0 then 0 else maxBytes
    {
      hide Sound;
      this.ttl := ttl;
      this.maxSize := if maxSize <= 0 then DEFAULT_MAX_SIZE else maxSize;
      this.maxBytes := if maxBytes < 0 then 0 else maxBytes;
      store := Evict(store, 0, 0, this.maxSize, this.maxBytes);
    }

    /** The value of k, unless it expired, which drops it. */
    method GetSized(k: Key, now: int) returns (r: Found<T>)
      requires Valid()
      modifies this`store
      ensures Valid()
      ensures r == if k in old(store.entries) && now <= old(store.entries)[k].expires
                   then Hit(old(store.entries)[k].value, old(store.entries)[k].size) else Miss
      ensures store.entries == if k in old(store.entries) && now > old(store.entries)[k].expires
                               then old(store.entries) - {k} else old(store.entries)
    {
      hide Sound;
      if k !in store.entries {
        return Miss;
      }
      var e := store.entries[k];
      if now > e.expires {
        BytesWithout(store.entries, k);
        store := RemoveEntry(store, k);
        return Miss;
      }
      return Hit(e.value, e.size);
    }

    /** Stores a value, unless its database was invalidated since stamp or it is
        larger than the byte cap: expired entries go, then those closest to
        expiry while it does not fit. */
    method SetSized(k: Key, v: T, stamp: nat, size: nat, now: int)
      requires Valid()
      modifies this`store
      ensures Valid()
      ensures StampOf(k.database) != stamp || (maxBytes > 0 && size > maxBytes) ==> store == old(store)
      ensures StampOf(k.database) == stamp && !(maxBytes > 0 && size > maxBytes) ==>
                && k in store.entries && store.entries[k] == Entry(k, v, now + ttl, size)
                && EvictedFirst(Live(old(store.entries), now) - {k}, store.entries - {k})
                && Needed(Live(old(store.entries), now) - {k}, store.entries - {k}, 1, size, maxSize, maxBytes)
    {
      hide Sound;
      if StampOf(k.database) != stamp || (maxBytes > 0 && size > maxBytes) {
        return;
      }
      var s := Without(store, k, now);
      store := Place(s, Entry(k, v, now + ttl, size), maxSize, maxBytes);
    }

    /** Drops what a write to relation of database may change, and counts it. */
    method Invalidate(database: string, relation: string)
      requires Valid()
      modifies this`store, this`stamps
      ensures Valid() && store.entries == Untouched(old(store.entries), database, relation)
      ensures stamps == old(stamps)[database := old(StampOf(database)) + 1]
    {
      hide Sound;
      stamps := stamps[database := StampOf(database) + 1];
      ghost var before := store.entries;
      store := InvalidateStore(store, database, relation);
      FewerFit(before, store.entries, maxSize, maxBytes);
    }

    /** Drops the entries a configuration generation stored. */
    method DropGeneration(generation: nat)
      requires Valid()
      modifies this`store
      ensures Valid()
      ensures store.entries == map k | k in old(store.entries) && k.generation != generation :: old(store.entries)[k]
    {
      ghost var before := store.entries;
      var keys := set k | k in store.entries && k.generation == generation;
      store := RemoveKeys(store, keys);
      WithoutGeneration(before, keys, generation);
      FewerFit(before, store.entries, maxSize, maxBytes);
    }
  }

  lemma WithoutGeneration<T(!new)>(m: Contents<T>, keys: set<Key>, generation: nat)
    requires keys == set k | k in m && k.generation == generation
    ensures m - keys == map k | k in m && k.generation != generation :: m[k]
  {
  }

  /** Fewer entries fit where more did. */
  lemma {:induction false} FewerFit<T(!new)>(m: Contents<T>, n: Contents<T>, maxSize: int, maxBytes: int)
    requires Fits(|m|, Bytes(m), maxSize, maxBytes) && forall k :: k in n ==> k in m && m[k] == n[k]
    ensures Fits(|n|, Bytes(n), maxSize, maxBytes)
    decreases |m|
  {
    if k :| k in m && k !in n {
      BytesWithout(m, k);
      FewerFit(m - {k}, n, maxSize, maxBytes);
    } else {
      assert m == n;
    }
  }
}
