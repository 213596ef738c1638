/** A binary min-heap of cache entries by expiry, each entry knowing its
    position: pushing, and removing from any position. */
module Expiries {

  /** relation is empty for data derived from other relations; rest holds the
      datasource, statement, arguments and scope. */
  datatype Key = Key(database: string, relation: string, generation: nat, rest: string)

  datatype Entry<T> = Entry(key: Key, value: T, expires: int, size: nat)

  function Parent(i: nat): nat
    requires i > 0
  {
    (i - 1) / 2
  }

  /** at holds the position of each entry of h. */
  predicate Positioned<T(!new)>(h: seq<Entry<T>>, at: map<Key, nat>) {
    && (forall i :: 0 <= i < |h| ==> h[i].key in at && at[h[i].key] == i)
    && (forall k :: k in at ==> at[k] < |h| && h[at[k]].key == k)
  }

  predicate Ordered<T(!new)>(h: seq<Entry<T>>) {
    forall i :: 0 < i < |h| ==> h[Parent(i)].expires <= h[i].expires
  }

  /** Ordered but for the entry at hole, which may expire before its parents;
      its children expire after its parent. */
  predicate OrderedAbove<T(!new)>(h: seq<Entry<T>>, hole: nat) {
    && (forall i :: 0 < i < |h| && i != hole ==> h[Parent(i)].expires <= h[i].expires)
    && (hole > 0 ==> forall i :: 0 < i < |h| && Parent(i) == hole ==> h[Parent(hole)].expires <= h[i].expires)
  }

  /** Ordered but for the entry at hole, which may expire after its children. */
  predicate OrderedBelow<T(!new)>(h: seq<Entry<T>>, hole: nat) {
    && (forall i :: 0 < i < |h| && Parent(i) != hole ==> h[Parent(i)].expires <= h[i].expires)
    && (hole > 0 ==> forall i :: 0 < i < |h| && Parent(i) == hole ==> h[Parent(hole)].expires <= h[i].expires)
  }

  /** Ordered but for the entry at hole, either way. */
  predicate OrderedAround<T(!new)>(h: seq<Entry<T>>, hole: nat) {
    && (forall i :: 0 < i < |h| && i != hole && Parent(i) != hole ==> h[Parent(i)].expires <= h[i].expires)
    && (hole > 0 ==> forall i :: 0 < i < |h| && Parent(i) == hole ==> h[Parent(hole)].expires <= h[i].expires)
  }

  function Swapped<T(!new)>(h: seq<Entry<T>>, i: nat, j: nat): (r: seq<Entry<T>>)
    requires i < |h| && j < |h|
  {
    h[i := h[j]][j := h[i]]
  }

  ghost predicate SameEntries<T(!new)>(g: seq<Entry<T>>, h: seq<Entry<T>>) {
    |g| == |h| && forall e :: e in g <==> e in h
  }

  lemma SwapPositions<T(!new)>(h: seq<Entry<T>>, at: map<Key, nat>, i: nat, j: nat)
    requires i < |h| && j < |h| && Positioned(h, at)
    ensures Positioned(Swapped(h, i, j), at[h[j].key := i][h[i].key := j])
    ensures SameEntries(Swapped(h, i, j), h)
  {
    var r := Swapped(h, i, j);
    forall e ensures e in r <==> e in h {
      if e in h {
        var k :| 0 <= k < |h| && h[k] == e;
        assert r[if k == i then j else if k == j then i else k] == e;
      }
    }
  }

  /** The first entry expires first. */
  lemma {:induction false} FirstExpires<T(!new)>(h: seq<Entry<T>>, i: nat)
    requires Ordered(h) && i < |h|
    ensures h[0].expires <= h[i].expires
    decreases i
  {
    if i > 0 {
      FirstExpires(h, Parent(i));
    }
  }

  lemma Children(i: nat, k: nat)
    requires i > 0
    ensures Parent(i) == k <==> i == 2 * k + 1 || i == 2 * k + 2
  {
  }

  lemma SwapUp<T(!new)>(h: seq<Entry<T>>, j: nat)
    requires 0 < j < |h| && OrderedAbove(h, j) && h[j].expires < h[Parent(j)].expires
    ensures OrderedAbove(Swapped(h, Parent(j), j), Parent(j))
  {
    var p, r := Parent(j), Swapped(h, Parent(j), j);
    forall i | 0 < i < |r| && i != p ensures r[Parent(i)].expires <= r[i].expires {
      assert i != j ==> h[Parent(i)].expires <= h[i].expires;
    }
    if p > 0 {
      forall i | 0 < i < |r| && Parent(i) == p ensures r[Parent(p)].expires <= r[i].expires {
        assert h[Parent(p)].expires <= h[p].expires;
        assert i != j ==> h[Parent(i)].expires <= h[i].expires;
      }
    }
  }

  lemma UpDone<T(!new)>(h: seq<Entry<T>>, j: nat)
    requires j < |h| && OrderedAbove(h, j) && (j > 0 ==> h[Parent(j)].expires <= h[j].expires)
    ensures Ordered(h)
  {
  }

  /** Moves the entry at start up to where it belongs. */
  method Up<T(!new)>(h: seq<Entry<T>>, at: map<Key, nat>, start: nat) returns (g: seq<Entry<T>>, to: map<Key, nat>)
    requires start < |h| && Positioned(h, at) && OrderedAbove(h, start)
    ensures Positioned(g, to) && SameEntries(g, h) && Ordered(g)
  {
    var j: nat := start;
    g, to := h, at;
    while j > 0 && g[j].expires < g[Parent(j)].expires
      invariant j < |g| && Positioned(g, to) && SameEntries(g, h) && OrderedAbove(g, j)
    {
      var i := Parent(j);
      SwapPositions(g, to, i, j);
      SwapUp(g, j);
      to := to[g[j].key := i][g[i].key := j];
      g := Swapped(g, i, j);
      j := i;
    }
    UpDone(g, j);
  }

  /** The child of i that expires first. */
  predicate FirstChild<T(!new)>(h: seq<Entry<T>>, i: nat, j: nat) {
    && i < j < |h| && Parent(j) == i
    && forall k :: 0 < k < |h| && Parent(k) == i ==> h[j].expires <= h[k].expires
  }

  lemma SwapDown<T(!new)>(h: seq<Entry<T>>, i: nat, j: nat)
    requires FirstChild(h, i, j) && OrderedAround(h, i) && h[j].expires < h[i].expires
    ensures OrderedBelow(Swapped(h, i, j), j)
  {
    var r := Swapped(h, i, j);
    forall k | 0 < k < |r| && Parent(k) != j ensures r[Parent(k)].expires <= r[k].expires {
      if k == i {
        assert h[Parent(i)].expires <= h[j].expires;
      } else if Parent(k) != i {
        assert h[Parent(k)].expires <= h[k].expires;
      }
    }
    forall k | 0 < k < |r| && Parent(k) == j ensures r[Parent(j)].expires <= r[k].expires {
      assert h[Parent(k)].expires <= h[k].expires;
    }
  }

  lemma DownDone<T(!new)>(h: seq<Entry<T>>, i: nat)
    requires i < |h| && forall k :: 0 < k < |h| && Parent(k) == i ==> h[i].expires <= h[k].expires
    ensures OrderedBelow(h, i) ==> Ordered(h)
    ensures OrderedAround(h, i) ==> OrderedAbove(h, i)
  {
  }

  method EarlierChild<T(!new)>(h: seq<Entry<T>>, i: nat) returns (j: nat)
    requires 2 * i + 1 < |h|
    ensures FirstChild(h, i, j)
  {
    j := 2 * i + 1;
    if j + 1 < |h| && h[j + 1].expires < h[j].expires {
      j := j + 1;
    }
    forall k | 0 < k < |h| && Parent(k) == i ensures h[j].expires <= h[k].expires {
      Children(k, i);
    }
  }

  /** Moves the entry at start down to where it belongs, and reports whether it
      moved. */
  method Down<T(!new)>(h: seq<Entry<T>>, at: map<Key, nat>, start: nat)
    returns (g: seq<Entry<T>>, to: map<Key, nat>, moved: bool)
    requires start < |h| && Positioned(h, at) && OrderedAround(h, start)
    ensures Positioned(g, to) && SameEntries(g, h)
    ensures if moved then Ordered(g) else g == h && to == at && OrderedAbove(g, start)
  {
    var i: nat := start;
    g, to := h, at;
    while 2 * i + 1 < |g|
      invariant start <= i < |g| && Positioned(g, to) && SameEntries(g, h)
      invariant OrderedAround(g, i)
      invariant if i == start then g == h && to == at else OrderedBelow(g, i)
      decreases |g| - i
    {
      var j := EarlierChild(g, i);
      if !(g[j].expires < g[i].expires) {
        break;
      }
      SwapPositions(g, to, i, j);
      SwapDown(g, i, j);
      to := to[g[j].key := i][g[i].key := j];
      g := Swapped(g, i, j);
      i := j;
    }
    DownDone(g, i);
    moved := i > start;
  }

  lemma PushShape<T(!new)>(h: seq<Entry<T>>, at: map<Key, nat>, e: Entry<T>)
    requires Positioned(h, at) && Ordered(h) && e.key !in at
    ensures Positioned(h + [e], at[e.key := |h|]) && OrderedAbove(h + [e], |h|)
  {
  }

  method Push<T(!new)>(h: seq<Entry<T>>, at: map<Key, nat>, e: Entry<T>) returns (g: seq<Entry<T>>, to: map<Key, nat>)
    requires Positioned(h, at) && Ordered(h) && e.key !in at
    ensures Positioned(g, to) && SameEntries(g, h + [e]) && Ordered(g)
  {
    PushShape(h, at, e);
    g, to := Up(h + [e], at[e.key := |h|], |h|);
  }

  /** The last entry in place of the one at i, which goes. */
  function Filled<T(!new)>(h: seq<Entry<T>>, i: nat): seq<Entry<T>>
    requires i < |h|
  {
    h[i := h[|h|-1]][..|h|-1]
  }

  lemma FilledShape<T(!new)>(h: seq<Entry<T>>, at: map<Key, nat>, i: nat)
    requires i < |h| && Positioned(h, at) && Ordered(h)
    ensures Positioned(Filled(h, i), at[h[|h|-1].key := i] - {h[i].key})
    ensures i < |h| - 1 ==> OrderedAround(Filled(h, i), i)
    ensures i == |h| - 1 ==> Ordered(Filled(h, i))
    ensures forall e :: e in Filled(h, i) <==> e in h && e != h[i]
  {
    var n, r := |h| - 1, Filled(h, i);
    forall e ensures e in r <==> e in h && e != h[i] {
      if e in h && e != h[i] {
        var k :| 0 <= k < |h| && h[k] == e;
        assert r[if k == n then i else k] == e;
      }
      if e in r {
        var k :| 0 <= k < |r| && r[k] == e;
        assert e == h[if k == i then n else k];
        assert at[e.key] != i;
      }
    }
    if i < n {
      FilledOrder(h, i);
    }
  }

  lemma FilledOrder<T(!new)>(h: seq<Entry<T>>, i: nat)
    requires i < |h| - 1 && Ordered(h)
    ensures OrderedAround(Filled(h, i), i)
  {
    var r := Filled(h, i);
    if i > 0 {
      forall k | 0 < k < |r| && Parent(k) == i ensures r[Parent(i)].expires <= r[k].expires {
        assert h[Parent(i)].expires <= h[i].expires <= h[k].expires;
      }
    }
  }

  /** Removes the entry at i. */
  method Remove<T(!new)>(h: seq<Entry<T>>, at: map<Key, nat>, i: nat) returns (g: seq<Entry<T>>, to: map<Key, nat>)
    requires i < |h| && Positioned(h, at) && Ordered(h)
    ensures Positioned(g, to) && Ordered(g) && |g| == |h| - 1
    ensures forall e :: e in g <==> e in h && e != h[i]
  {
    FilledShape(h, at, i);
    g, to := Filled(h, i), at[h[|h|-1].key := i] - {h[i].key};
    if i < |h| - 1 {
      var moved;
      g, to, moved := Down(g, to, i);
      if !moved {
        g, to := Up(g, to, i);
      }
    }
  }
}
