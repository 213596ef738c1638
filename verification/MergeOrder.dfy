/** The order of a merged list: that of the local one, then what only the other
    side has, in its order. */
module MergeOrder {
  import opened Values
  import opened Merging
  import opened MergeCorrect

  /** x is somewhere before y. */
  predicate InOrder(ks: seq<string>, x: string, y: string) {
    exists a, b :: 0 <= a < b < |ks| && ks[a] == x && ks[b] == y
  }

  lemma InOrderLater(ks: seq<string>, x: string, y: string)
    requires ks != []
    ensures InOrder(ks, x, y) <==> (ks[0] == x && y in ks[1..]) || InOrder(ks[1..], x, y)
  {
    if a, b :| 0 <= a < b < |ks| && ks[a] == x && ks[b] == y {
      assert ks[1..][b - 1] == y;
      assert a > 0 ==> ks[1..][a - 1] == x;
    }
    if a, b :| 0 <= a < b < |ks[1..]| && ks[1..][a] == x && ks[1..][b] == y {
      assert ks[a + 1] == x && ks[b + 1] == y;
    }
    if ks[0] == x && y in ks[1..] {
      var b :| 0 <= b < |ks[1..]| && ks[1..][b] == y;
      assert ks[b + 1] == y;
    }
  }

  lemma {:induction false} WithoutInOrder(k: string, ks: seq<string>, x: string, y: string)
    requires InOrder(Without(k, ks), x, y)
    ensures InOrder(ks, x, y) && x != k && y != k
  {
    hide InOrder;
    InOrderIn(Without(k, ks), x, y);
    if ks != [] {
      InOrderLater(ks, x, y);
      if ks[0] != k {
        InOrderLater(Without(k, ks), x, y);
        assert Without(k, ks)[1..] == Without(k, ks[1..]);
      } else {
        assert Without(k, ks) == Without(k, ks[1..]);
      }
      if InOrder(Without(k, ks[1..]), x, y) {
        WithoutInOrder(k, ks[1..], x, y);
      }
    }
  }

  lemma InOrderIn(ks: seq<string>, x: string, y: string)
    requires InOrder(ks, x, y)
    ensures x in ks && y in ks
  {
  }

  lemma {:induction false} NotInInOrder(mine: seq<string>, ks: seq<string>, x: string, y: string)
    requires InOrder(NotIn(mine, ks), x, y)
    ensures InOrder(ks, x, y)
  {
    hide InOrder;
    InOrderIn(NotIn(mine, ks), x, y);
    if ks != [] {
      InOrderLater(ks, x, y);
      if ks[0] !in mine {
        InOrderLater(NotIn(mine, ks), x, y);
        assert NotIn(mine, ks)[1..] == NotIn(mine, ks[1..]);
      } else {
        assert NotIn(mine, ks) == NotIn(mine, ks[1..]);
      }
      if InOrder(NotIn(mine, ks[1..]), x, y) {
        NotInInOrder(mine, ks[1..], x, y);
      }
    }
  }

  /** An element of key x comes before any of key y. */
  predicate Precedes(s: Schema, p: string, xs: seq<Json>, x: string, y: string) {
    exists m :: 0 <= m < |xs| && Keyed(s, p, x, xs[m]) && forall n :: 0 <= n <= m ==> !Keyed(s, p, y, xs[n])
  }

  lemma {:induction false} OrderPrecedes(s: Schema, p: string, xs: seq<Json>, x: string, y: string)
    requires AllKeyed(s, p, xs) && InOrder(Order(s, p, xs), x, y) && x != y
    ensures Precedes(s, p, xs, x, y)
  {
    hide InOrder;
    InOrderIn(Order(s, p, xs), x, y);
    var k, rest := KeyOf(s, p, xs[0]), Order(s, p, xs[1..]);
    assert Order(s, p, xs)[1..] == Without(k, rest);
    InOrderLater(Order(s, p, xs), x, y);
    if k == x {
      assert Keyed(s, p, x, xs[0]) && !Keyed(s, p, y, xs[0]);
    } else {
      WithoutInOrder(k, rest, x, y);
      OrderPrecedes(s, p, xs[1..], x, y);
      var m :| 0 <= m < |xs[1..]| && Keyed(s, p, x, xs[1..][m]) &&
               forall n :: 0 <= n <= m ==> !Keyed(s, p, y, xs[1..][n]);
      assert Keyed(s, p, x, xs[m + 1]);
      forall n | 0 <= n <= m + 1 ensures !Keyed(s, p, y, xs[n]) {
        assert n > 0 ==> xs[n] == xs[1..][n - 1];
      }
    }
  }

  predicate Has(s: Schema, p: string, xs: seq<Json>, k: string) {
    exists m :: 0 <= m < |xs| && Keyed(s, p, k, xs[m])
  }

  lemma {:induction false} OrderHas(s: Schema, p: string, xs: seq<Json>, k: string)
    requires AllKeyed(s, p, xs)
    ensures k in Order(s, p, xs) <==> Has(s, p, xs, k)
  {
    if xs != [] {
      OrderHas(s, p, xs[1..], k);
      if m :| 0 <= m < |xs[1..]| && Keyed(s, p, k, xs[1..][m]) {
        assert Keyed(s, p, k, xs[m + 1]);
      }
      if m :| 0 <= m < |xs| && Keyed(s, p, k, xs[m]) {
        assert m > 0 ==> Keyed(s, p, k, xs[1..][m - 1]);
      }
    }
  }

  /** The elements merged for each key come in the order of the keys. */
  lemma {:induction false} ElementsFollow(
    s: Schema, base: Json, local: Json, next: Json, path: Path, order: seq<string>, i: nat, x: string)
    requires MergesLists(s, base, local, next, path)
    requires i < |MergeElements(s, base, local, next, path, order)|
    requires Keyed(s, Pattern(path), x, MergeElements(s, base, local, next, path, order)[i])
    ensures x in order
    decreases order
  {
    hide Keyed, MergeElement, AllOfKey, Unpack;
    var v := MergeElement(s, base, local, next, path, order[0]).value;
    MergeElementHolds(s, base, local, next, path, order[0]);
    HoldsUnpacked(s, Pattern(path), order[0], v);
    if i >= |Unpack(v)| {
      ElementsFollow(s, base, local, next, path, order[1..], i - |Unpack(v)|, x);
    } else {
      assert Unpack(v)[i] == MergeElements(s, base, local, next, path, order)[i];
      KeyAt(s, Pattern(path), x, order[0], Unpack(v), i);
    }
  }

  lemma {:induction false} ElementsInOrder(
    s: Schema, base: Json, local: Json, next: Json, path: Path, order: seq<string>, i: nat, j: nat, x: string,
    y: string)
    requires MergesLists(s, base, local, next, path) && x != y
    requires i < j < |MergeElements(s, base, local, next, path, order)|
    requires Keyed(s, Pattern(path), x, MergeElements(s, base, local, next, path, order)[i])
    requires Keyed(s, Pattern(path), y, MergeElements(s, base, local, next, path, order)[j])
    ensures InOrder(order, x, y)
    decreases order
  {
    hide InOrder, Keyed, MergeElement, AllOfKey, Unpack;
    var v, rest := MergeElement(s, base, local, next, path, order[0]).value,
                   MergeElements(s, base, local, next, path, order[1..]);
    var n := |Unpack(v)|;
    MergeElementHolds(s, base, local, next, path, order[0]);
    HoldsUnpacked(s, Pattern(path), order[0], v);
    InOrderLater(order, x, y);
    if i >= n {
      ElementsInOrder(s, base, local, next, path, order[1..], i - n, j - n, x, y);
    } else {
      assert Unpack(v)[i] == MergeElements(s, base, local, next, path, order)[i];
      KeyAt(s, Pattern(path), x, order[0], Unpack(v), i);
      if j >= n {
        ElementsFollow(s, base, local, next, path, order[1..], j - n, y);
      } else {
        KeyAt(s, Pattern(path), y, order[0], Unpack(v), j);
      }
    }
  }

  lemma KeyAt(s: Schema, p: string, x: string, k: string, xs: seq<Json>, i: nat)
    requires i < |xs| && AllOfKey(s, p, k, xs) && Keyed(s, p, x, xs[i])
    ensures x == k
  {
  }

  lemma OrderOf(mine: seq<string>, theirs: seq<string>, x: string, y: string)
    requires InOrder(mine + NotIn(mine, theirs), x, y)
    ensures y in mine ==> InOrder(mine, x, y) || y in NotIn(mine, theirs)
    ensures x in mine || InOrder(NotIn(mine, theirs), x, y)
  {
    var all, rest := mine + NotIn(mine, theirs), NotIn(mine, theirs);
    var a, b :| 0 <= a < b < |all| && all[a] == x && all[b] == y;
    if a >= |mine| {
      assert rest[a - |mine|] == x && rest[b - |mine|] == y;
    }
    if b >= |mine| {
      assert rest[b - |mine|] == y;
    } else {
      assert mine[a] == x && mine[b] == y;
    }
  }

  /** Of a merged list: an element local has comes after those local had before
      it and none of next's own; one only next has after any of local's, or those
      next had before it. */
  lemma MergedInOrder(
    s: Schema, base: Json, local: Json, next: Json, path: Path, i: nat, j: nat, x: string, y: string)
    requires InParts(s, base, local, next, path) && !MergesObjects(base, local, next) && x != y
    requires Merge(s, base, local, next, path).value.Arr? && i < j < |Merge(s, base, local, next, path).value.items|
    requires Keyed(s, Pattern(path), x, Merge(s, base, local, next, path).value.items[i])
    requires Keyed(s, Pattern(path), y, Merge(s, base, local, next, path).value.items[j])
    ensures var p := Pattern(path);
            if Has(s, p, local.items, y) then Precedes(s, p, local.items, x, y)
            else Has(s, p, local.items, x) || Precedes(s, p, next.items, x, y)
  {
    hide InOrder, Precedes, Keyed;
    var p := Pattern(path);
    var mine, theirs := Order(s, p, local.items), Order(s, p, next.items);
    ElementsInOrder(s, base, local, next, path, MergedOrder(s, local, next, path), i, j, x, y);
    OrderHas(s, p, local.items, x);
    OrderHas(s, p, local.items, y);
    OrderOf(mine, theirs, x, y);
    if y in mine {
      OrderPrecedes(s, p, local.items, x, y);
    } else if x !in mine {
      NotInInOrder(mine, theirs, x, y);
      OrderPrecedes(s, p, next.items, x, y);
    }
  }
}
