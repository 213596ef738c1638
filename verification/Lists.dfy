/** Sequence operations the row semantics are built from, with the laws that
    let the clauses of a SELECT be reordered: sorting is stable, deduplication
    keeps first occurrences. */
module Lists {

  function Map<A, B>(f: A -> B, xs: seq<A>): (ys: seq<B>)
    ensures |ys| == |xs|
    ensures forall i :: 0 <= i < |xs| ==> ys[i] == f(xs[i])
  {
    if xs == [] then [] else Map(f, xs[..|xs|-1]) + [f(xs[|xs|-1])]
  }

  function Filter<A(!new)>(p: A -> bool, xs: seq<A>): (ys: seq<A>)
    ensures forall y :: y in ys <==> y in xs && p(y)
    ensures |ys| <= |xs|
  {
    if xs == [] then []
    else
      var front := Filter(p, xs[..|xs|-1]);
      assert forall y :: y in xs <==> y in xs[..|xs|-1] || y == xs[|xs|-1];
      if p(xs[|xs|-1]) then front + [xs[|xs|-1]] else front
  }

  function FlatMap<A, B>(f: A -> seq<B>, xs: seq<A>): seq<B> {
    if xs == [] then [] else FlatMap(f, xs[..|xs|-1]) + f(xs[|xs|-1])
  }

  /** Puts x after every element not above it: sorting this way is stable. */
  function Insert<A>(le: (A, A) -> bool, s: seq<A>, x: A): (r: seq<A>)
    ensures multiset(r) == multiset(s) + multiset{x}
  {
    if s == [] then [x]
    else
      assert s == s[..|s|-1] + [s[|s|-1]];
      if le(s[|s|-1], x) then s + [x]
      else Insert(le, s[..|s|-1], x) + [s[|s|-1]]
  }

  function Sort<A>(le: (A, A) -> bool, xs: seq<A>): (r: seq<A>)
    ensures multiset(r) == multiset(xs)
  {
    if xs == [] then []
    else
      assert xs == xs[..|xs|-1] + [xs[|xs|-1]];
      Insert(le, Sort(le, xs[..|xs|-1]), xs[|xs|-1])
  }

  ghost predicate Sorted<A>(le: (A, A) -> bool, s: seq<A>) {
    forall i, j :: 0 <= i < j < |s| ==> le(s[i], s[j])
  }

  ghost predicate Preorder<A(!new)>(le: (A, A) -> bool) {
    && (forall x, y :: le(x, y) || le(y, x))
    && (forall x, y, z :: le(x, y) && le(y, z) ==> le(x, z))
  }

  lemma InsertMembers<A(!new)>(le: (A, A) -> bool, s: seq<A>, x: A)
    ensures forall y :: y in Insert(le, s, x) <==> y in s || y == x
  {
    forall y ensures y in Insert(le, s, x) <==> y in s || y == x {
      assert y in Insert(le, s, x) <==> y in multiset(Insert(le, s, x));
      assert y in s <==> y in multiset(s);
    }
  }

  lemma {:induction false} InsertSorted<A(!new)>(le: (A, A) -> bool, s: seq<A>, x: A)
    requires Preorder(le) && Sorted(le, s)
    ensures Sorted(le, Insert(le, s, x))
  {
    if s != [] {
      var front, last := s[..|s|-1], s[|s|-1];
      if le(last, x) {
        forall i | 0 <= i < |s| ensures le(s[i], x) {
          assert i < |s|-1 ==> le(s[i], last);
        }
      } else {
        InsertSorted(le, front, x);
        InsertMembers(le, front, x);
        var t := Insert(le, front, x);
        forall i | 0 <= i < |t| ensures le(t[i], last) {
          assert t[i] in t;
          if t[i] != x {
            var k :| 0 <= k < |front| && front[k] == t[i];
          }
        }
      }
    }
  }

  lemma {:induction false} SortSorted<A(!new)>(le: (A, A) -> bool, xs: seq<A>)
    requires Preorder(le)
    ensures Sorted(le, Sort(le, xs))
  {
    if xs != [] {
      SortSorted(le, xs[..|xs|-1]);
      InsertSorted(le, Sort(le, xs[..|xs|-1]), xs[|xs|-1]);
    }
  }

  lemma {:induction false} MapInsert<A(!new), B>(f: A -> B, le: (A, A) -> bool, le': (B, B) -> bool, s: seq<A>, x: A)
    requires forall a, b :: le'(f(a), f(b)) == le(a, b)
    ensures Map(f, Insert(le, s, x)) == Insert(le', Map(f, s), f(x))
  {
    if s != [] {
      assert Map(f, s)[..|s|-1] == Map(f, s[..|s|-1]);
      if le(s[|s|-1], x) {
        assert (s + [x])[..|s|] == s;
      } else {
        MapInsert(f, le, le', s[..|s|-1], x);
        var t := Insert(le, s[..|s|-1], x);
        assert (t + [s[|s|-1]])[..|t|] == t;
      }
    }
  }

  /** Sorting commutes with a map that keeps the order. */
  lemma {:induction false} MapSort<A(!new), B>(f: A -> B, le: (A, A) -> bool, le': (B, B) -> bool, xs: seq<A>)
    requires forall a, b :: le'(f(a), f(b)) == le(a, b)
    ensures Map(f, Sort(le, xs)) == Sort(le', Map(f, xs))
  {
    if xs != [] {
      MapSort(f, le, le', xs[..|xs|-1]);
      MapInsert(f, le, le', Sort(le, xs[..|xs|-1]), xs[|xs|-1]);
      assert Map(f, xs)[..|xs|-1] == Map(f, xs[..|xs|-1]);
    }
  }

  predicate Has<A, B(==)>(f: A -> B, xs: seq<A>, v: B) {
    xs != [] && (f(xs[|xs|-1]) == v || Has(f, xs[..|xs|-1], v))
  }

  /** The elements of xs whose f differs from every earlier one's. */
  function Dedup<A, B(==)>(f: A -> B, xs: seq<A>): seq<A> {
    if xs == [] then []
    else
      var front, last := Dedup(f, xs[..|xs|-1]), xs[|xs|-1];
      if Has(f, front, f(last)) then front else front + [last]
  }

  lemma {:induction false} DedupHas<A, B>(f: A -> B, xs: seq<A>, v: B)
    ensures Has(f, Dedup(f, xs), v) <==> Has(f, xs, v)
  {
    if xs != [] {
      var front, last := xs[..|xs|-1], xs[|xs|-1];
      DedupHas(f, front, v);
      DedupHas(f, front, f(last));
      var d := Dedup(f, front);
      assert (d + [last])[..|d|] == d;
    }
  }

  lemma {:induction false} InsertHas<A, B>(f: A -> B, le: (A, A) -> bool, s: seq<A>, x: A, v: B)
    ensures Has(f, Insert(le, s, x), v) <==> Has(f, s, v) || f(x) == v
  {
    if s != [] {
      var front, last := s[..|s|-1], s[|s|-1];
      assert (s + [x])[..|s|] == s;
      if !le(last, x) {
        InsertHas(f, le, front, x, v);
        var t := Insert(le, front, x);
        assert (t + [last])[..|t|] == t;
      }
    }
  }

  lemma {:induction false} SortHas<A, B>(f: A -> B, le: (A, A) -> bool, xs: seq<A>, v: B)
    ensures Has(f, Sort(le, xs), v) <==> Has(f, xs, v)
  {
    if xs != [] {
      SortHas(f, le, xs[..|xs|-1], v);
      InsertHas(f, le, Sort(le, xs[..|xs|-1]), xs[|xs|-1], v);
    }
  }

  ghost predicate AllLe<A>(le: (A, A) -> bool, s: seq<A>, x: A) {
    forall i :: 0 <= i < |s| ==> le(s[i], x)
  }

  lemma {:induction false} DedupAllLe<A, B>(f: A -> B, le: (A, A) -> bool, s: seq<A>, x: A)
    requires AllLe(le, s, x)
    ensures AllLe(le, Dedup(f, s), x)
  {
    if s != [] {
      DedupAllLe(f, le, s[..|s|-1], x);
    }
  }

  lemma DedupSnoc<A, B>(f: A -> B, s: seq<A>, x: A)
    ensures Dedup(f, s + [x]) == if Has(f, Dedup(f, s), f(x)) then Dedup(f, s) else Dedup(f, s) + [x]
  {
    assert (s + [x])[..|s|] == s;
  }

  lemma InsertSnoc<A>(le: (A, A) -> bool, s: seq<A>, l: A, x: A)
    ensures Insert(le, s + [l], x) == if le(l, x) then s + [l] + [x] else Insert(le, s, x) + [l]
  {
    assert (s + [l])[..|s|] == s;
  }

  lemma InsertAllLe<A>(le: (A, A) -> bool, s: seq<A>, x: A)
    requires AllLe(le, s, x)
    ensures Insert(le, s, x) == s + [x]
  {
  }

  lemma SortedAllLe<A(!new)>(le: (A, A) -> bool, s: seq<A>, x: A)
    requires Preorder(le) && Sorted(le, s) && s != [] && le(s[|s|-1], x)
    ensures AllLe(le, s, x)
  {
    forall i | 0 <= i < |s| ensures le(s[i], x) {
      assert i < |s|-1 ==> le(s[i], s[|s|-1]);
    }
  }

  lemma {:induction false} DedupInsert<A(!new), B>(f: A -> B, le: (A, A) -> bool, s: seq<A>, x: A)
    requires Preorder(le) && Sorted(le, s)
    requires forall a, b :: f(a) == f(b) ==> le(a, b)
    ensures Dedup(f, Insert(le, s, x)) ==
            if Has(f, s, f(x)) then Dedup(f, s) else Insert(le, Dedup(f, s), x)
  {
    if s == [] {
      assert [x][..0] == [];
    } else {
      hide Dedup, Has, Insert;
      var front, last := s[..|s|-1], s[|s|-1];
      assert s == front + [last];
      DedupHas(f, s, f(x));
      InsertSnoc(le, front, last, x);
      if le(last, x) {
        DedupSnoc(f, s, x);
        SortedAllLe(le, s, x);
        DedupAllLe(f, le, s, x);
        InsertAllLe(le, Dedup(f, s), x);
      } else {
        DedupInsert(f, le, front, x);
        DedupInsertAbove(f, le, front, last, x);
      }
    }
  }

  lemma DedupInsertAbove<A, B>(f: A -> B, le: (A, A) -> bool, front: seq<A>, last: A, x: A)
    requires !le(last, x) && f(last) != f(x)
    requires Dedup(f, Insert(le, front, x)) ==
             if Has(f, front, f(x)) then Dedup(f, front) else Insert(le, Dedup(f, front), x)
    ensures Dedup(f, Insert(le, front, x) + [last]) ==
            if Has(f, front + [last], f(x)) then Dedup(f, front + [last])
            else Insert(le, Dedup(f, front + [last]), x)
  {
    var d := Dedup(f, front);
    assert (front + [last])[..|front|] == front;
    DedupSnoc(f, Insert(le, front, x), last);
    DedupSnoc(f, front, last);
    InsertHas(f, le, d, x, f(last));
    InsertSnoc(le, d, last, x);
  }

  /** Deduplicating a sorted list is sorting the deduplicated one, when what
      deduplication takes for equal the order takes for equal. */
  lemma {:induction false} DedupSort<A(!new), B>(f: A -> B, le: (A, A) -> bool, xs: seq<A>)
    requires Preorder(le)
    requires forall a, b :: f(a) == f(b) ==> le(a, b)
    ensures Dedup(f, Sort(le, xs)) == Sort(le, Dedup(f, xs))
  {
    if xs != [] {
      var front, last := xs[..|xs|-1], xs[|xs|-1];
      DedupSort(f, le, front);
      SortSorted(le, front);
      DedupInsert(f, le, Sort(le, front), last);
      SortHas(f, le, front, f(last));
      var d := Dedup(f, front);
      DedupHas(f, front, f(last));
      assert (d + [last])[..|d|] == d;
    }
  }

  // --- operations under a map ---

  lemma {:induction false} MapCompose<A, B, C>(f: A -> B, g: B -> C, h: A -> C, xs: seq<A>)
    requires forall x :: x in xs ==> g(f(x)) == h(x)
    ensures Map(g, Map(f, xs)) == Map(h, xs)
  {
  }

  lemma {:induction false} FilterOfMap<A(!new), B(!new)>(f: A -> B, p: A -> bool, q: B -> bool, xs: seq<A>)
    requires forall x :: x in xs ==> q(f(x)) == p(x)
    ensures Filter(q, Map(f, xs)) == Map(f, Filter(p, xs))
  {
    if xs != [] {
      var front, last := xs[..|xs|-1], xs[|xs|-1];
      FilterOfMap(f, p, q, front);
      assert Map(f, xs)[..|xs|-1] == Map(f, front);
      assert last in xs;
      MapSnoc(f, Filter(p, front), last);
    }
  }

  lemma MapSnoc<A, B>(f: A -> B, xs: seq<A>, x: A)
    ensures Map(f, xs + [x]) == Map(f, xs) + [f(x)]
  {
    assert (xs + [x])[..|xs|] == xs;
  }

  lemma {:induction false} MapConcat<A, B>(f: A -> B, xs: seq<A>, ys: seq<A>)
    ensures Map(f, xs + ys) == Map(f, xs) + Map(f, ys)
  {
  }

  lemma {:induction false} FlatMapOfMap<A, B>(f: A -> B, h: A -> seq<A>, g: B -> seq<B>, xs: seq<A>)
    requires forall x :: x in xs ==> g(f(x)) == Map(f, h(x))
    ensures FlatMap(g, Map(f, xs)) == Map(f, FlatMap(h, xs))
  {
    if xs != [] {
      var front, last := xs[..|xs|-1], xs[|xs|-1];
      FlatMapOfMap<A, B>(f, h, g, front);
      assert Map(f, xs)[..|xs|-1] == Map(f, front);
      assert last in xs;
      MapConcat(f, FlatMap(h, front), h(last));
    }
  }

  lemma {:induction false} FlatMapMember<A, B>(f: A -> seq<B>, xs: seq<A>, y: B) returns (x: A)
    requires y in FlatMap(f, xs)
    ensures x in xs && y in f(x)
  {
    var front, last := xs[..|xs|-1], xs[|xs|-1];
    if y in f(last) {
      x := last;
    } else {
      x := FlatMapMember(f, front, y);
    }
  }

  lemma {:induction false} DedupOfMap<A, B, C>(f: A -> B, k: B -> C, h: A -> C, xs: seq<A>)
    requires forall x :: x in xs ==> k(f(x)) == h(x)
    ensures Dedup(k, Map(f, xs)) == Map(f, Dedup(h, xs))
  {
    if xs != [] {
      var front, last := xs[..|xs|-1], xs[|xs|-1];
      DedupOfMap(f, k, h, front);
      assert Map(f, xs)[..|xs|-1] == Map(f, front);
      assert last in xs;
      DedupMembers(h, front);
      HasOfMap(f, k, h, Dedup(h, front), h(last));
      MapSnoc(f, Dedup(h, front), last);
    }
  }

  lemma {:induction false} HasOfMap<A, B, C>(f: A -> B, k: B -> C, h: A -> C, xs: seq<A>, v: C)
    requires forall x :: x in xs ==> k(f(x)) == h(x)
    ensures Has(k, Map(f, xs), v) <==> Has(h, xs, v)
  {
    if xs != [] {
      var front, last := xs[..|xs|-1], xs[|xs|-1];
      HasOfMap(f, k, h, front, v);
      assert Map(f, xs)[..|xs|-1] == Map(f, front);
      assert last in xs;
    }
  }

  lemma {:induction false} DedupMembers<A, B>(f: A -> B, xs: seq<A>)
    ensures forall i :: 0 <= i < |Dedup(f, xs)| ==> Dedup(f, xs)[i] in xs
  {
    if xs != [] {
      DedupMembers(f, xs[..|xs|-1]);
    }
  }

  lemma {:induction false} InsertCong<A(!new)>(le: (A, A) -> bool, le': (A, A) -> bool, s: seq<A>, x: A)
    requires forall i :: 0 <= i < |s| ==> le(s[i], x) == le'(s[i], x)
    ensures Insert(le, s, x) == Insert(le', s, x)
  {
    if s != [] {
      InsertCong(le, le', s[..|s|-1], x);
    }
  }

  lemma SortMembers<A(!new)>(le: (A, A) -> bool, xs: seq<A>)
    ensures forall y :: y in Sort(le, xs) <==> y in xs
  {
    forall y ensures y in Sort(le, xs) <==> y in xs {
      assert y in Sort(le, xs) <==> y in multiset(Sort(le, xs));
      assert y in xs <==> y in multiset(xs);
    }
  }

  /** Sorting sees an order only on the elements it sorts. */
  lemma {:induction false} SortCong<A(!new)>(le: (A, A) -> bool, le': (A, A) -> bool, xs: seq<A>)
    requires forall a, b :: a in xs && b in xs ==> le(a, b) == le'(a, b)
    ensures Sort(le, xs) == Sort(le', xs)
  {
    if xs != [] {
      var front, last := xs[..|xs|-1], xs[|xs|-1];
      assert last in xs;
      assert forall a :: a in front ==> a in xs;
      SortCong(le, le', front);
      SortMembers(le, front);
      var s := Sort(le, front);
      forall i | 0 <= i < |s| ensures le(s[i], last) == le'(s[i], last) {
        assert s[i] in s;
      }
      InsertCong(le, le', s, last);
    }
  }

  lemma {:induction false} FilterCong<A(!new)>(p: A -> bool, q: A -> bool, xs: seq<A>)
    requires forall x :: x in xs ==> p(x) == q(x)
    ensures Filter(p, xs) == Filter(q, xs)
  {
    if xs != [] {
      assert xs[|xs|-1] in xs;
      FilterCong(p, q, xs[..|xs|-1]);
    }
  }

  lemma {:induction false} FlatMapCong<A, B>(f: A -> seq<B>, g: A -> seq<B>, xs: seq<A>)
    requires forall x :: x in xs ==> f(x) == g(x)
    ensures FlatMap(f, xs) == FlatMap(g, xs)
  {
    if xs != [] {
      assert xs[|xs|-1] in xs;
      FlatMapCong(f, g, xs[..|xs|-1]);
    }
  }

  lemma {:induction false} HasCong<A, B>(f: A -> B, g: A -> B, xs: seq<A>, v: B)
    requires forall i :: 0 <= i < |xs| ==> f(xs[i]) == g(xs[i])
    ensures Has(f, xs, v) <==> Has(g, xs, v)
  {
    if xs != [] {
      HasCong(f, g, xs[..|xs|-1], v);
    }
  }

  lemma {:induction false} DedupCong<A(!new), B>(f: A -> B, g: A -> B, xs: seq<A>)
    requires forall x :: f(x) == g(x)
    ensures Dedup(f, xs) == Dedup(g, xs)
  {
    if xs != [] {
      DedupCong(f, g, xs[..|xs|-1]);
      HasCong(f, g, Dedup(f, xs[..|xs|-1]), f(xs[|xs|-1]));
    }
  }

  lemma {:induction false} FilterAll<A(!new)>(p: A -> bool, xs: seq<A>)
    requires forall x :: x in xs ==> p(x)
    ensures Filter(p, xs) == xs
  {
    if xs != [] {
      assert xs == xs[..|xs|-1] + [xs[|xs|-1]];
      assert xs[|xs|-1] in xs;
      FilterAll(p, xs[..|xs|-1]);
    }
  }

  lemma {:induction false} FilterTwice<A(!new)>(p: A -> bool, q: A -> bool, both: A -> bool, xs: seq<A>)
    requires forall x :: both(x) == (p(x) && q(x))
    ensures Filter(q, Filter(p, xs)) == Filter(both, xs)
  {
    if xs != [] {
      FilterTwice(p, q, both, xs[..|xs|-1]);
      var front := Filter(p, xs[..|xs|-1]);
      assert (front + [xs[|xs|-1]])[..|front|] == front;
    }
  }

  /** le on the images of f. */
  function Pull<A, B>(le: (B, B) -> bool, f: A -> B): (A, A) -> bool {
    (a, b) => le(f(a), f(b))
  }

  lemma SortOfMap<A(!new), B(!new)>(f: A -> B, le: (B, B) -> bool, le0: (A, A) -> bool, xs: seq<A>)
    requires forall a, b :: a in xs && b in xs ==> le(f(a), f(b)) == le0(a, b)
    ensures Sort(le, Map(f, xs)) == Map(f, Sort(le0, xs))
  {
    MapSort(f, Pull(le, f), le, xs);
    SortCong(le0, Pull(le, f), xs);
  }

  lemma FilterSnoc<A(!new)>(p: A -> bool, xs: seq<A>, x: A)
    ensures Filter(p, xs + [x]) == Filter(p, xs) + (if p(x) then [x] else [])
  {
    assert (xs + [x])[..|xs|] == xs;
  }

  lemma InsertLast<A(!new)>(le: (A, A) -> bool, s: seq<A>, x: A)
    requires forall y :: y in s ==> le(y, x)
    ensures Insert(le, s, x) == s + [x]
  {
    if s != [] {
      assert s[|s|-1] in s;
    }
  }

  /** Filtering commutes with inserting into a sorted list. */
  lemma {:induction false} FilterInsert<A(!new)>(le: (A, A) -> bool, p: A -> bool, s: seq<A>, x: A)
    requires Preorder(le) && Sorted(le, s)
    ensures Filter(p, Insert(le, s, x)) == if p(x) then Insert(le, Filter(p, s), x) else Filter(p, s)
  {
    if s == [] {
      FilterSnoc(p, [], x);
    } else {
      var front, last := s[..|s|-1], s[|s|-1];
      assert s == front + [last];
      FilterSnoc(p, front, last);
      if le(last, x) {
        FilterSnoc(p, s, x);
        forall y | y in Filter(p, s) ensures le(y, x) {
          var i :| 0 <= i < |s| && s[i] == y;
          assert i < |s| - 1 ==> le(s[i], last);
        }
        InsertLast(le, Filter(p, s), x);
      } else {
        FilterInsert(le, p, front, x);
        FilterSnoc(p, Insert(le, front, x), last);
        if p(last) {
          assert (Filter(p, front) + [last])[..|Filter(p, front)|] == Filter(p, front);
        }
      }
    }
  }

  /** Filtering commutes with sorting. */
  lemma {:induction false} FilterSort<A(!new)>(le: (A, A) -> bool, p: A -> bool, xs: seq<A>)
    requires Preorder(le)
    ensures Filter(p, Sort(le, xs)) == Sort(le, Filter(p, xs))
  {
    if xs != [] {
      var front, last := xs[..|xs|-1], xs[|xs|-1];
      FilterSort(le, p, front);
      SortSorted(le, front);
      FilterInsert(le, p, Sort(le, front), last);
      var kept := Filter(p, front);
      if p(last) {
        assert (kept + [last])[..|kept|] == kept;
      }
    }
  }

  /** What a filter drops, then what it keeps. */
  lemma {:induction false} FilterTail<A(!new)>(p: A -> bool, xs: seq<A>, i: nat)
    requires i <= |xs| && (forall j :: 0 <= j < i ==> !p(xs[j])) && (forall j :: i <= j < |xs| ==> p(xs[j]))
    ensures Filter(p, xs) == xs[i..]
    decreases |xs|
  {
    if xs != [] {
      var front := xs[..|xs|-1];
      assert xs == front + [xs[|xs|-1]];
      if i < |xs| {
        FilterTail(p, front, i);
      } else {
        FilterTail(p, front, i - 1);
      }
    }
  }

  lemma SameHalves<T>(xs: seq<T>, ys: seq<T>, zs: seq<T>)
    requires |zs| == |xs| + |ys| && (forall i :: 0 <= i < |xs| ==> xs[i] == zs[i]) && forall i :: |xs| <= i < |zs| ==>
             ys[i - |xs|] == zs[i]
    ensures xs + ys == zs
  {
  }

  /** Those of the first n elements p holds of. */
  function Picked<A>(p: A -> bool, xs: seq<A>, n: nat): seq<A>
    requires n <= |xs|
  {
    if n == 0 then [] else Picked(p, xs, n - 1) + if p(xs[n-1]) then [xs[n-1]] else []
  }

  lemma FilterLast<A(!new)>(p: A -> bool, xs: seq<A>, front: seq<A>)
    requires xs != [] && front == xs[..|xs|-1]
    ensures Filter(p, xs) == Filter(p, front) + if p(xs[|xs|-1]) then [xs[|xs|-1]] else []
  {
  }

  lemma {:induction false} PickedIs<A(!new)>(p: A -> bool, xs: seq<A>, n: nat)
    requires n <= |xs|
    ensures Picked(p, xs, n) == Filter(p, xs[..n])
  {
    if n > 0 {
      PickedIs(p, xs, n - 1);
      FilterLast(p, xs[..n], xs[..n-1]);
    }
  }

  lemma PickedAll<A(!new)>(p: A -> bool, xs: seq<A>)
    ensures Picked(p, xs, |xs|) == Filter(p, xs)
  {
    PickedIs(p, xs, |xs|);
    assert xs[..|xs|] == xs;
  }

  lemma {:induction false} PickedCong<A>(p: A -> bool, xs: seq<A>, ys: seq<A>, n: nat)
    requires n <= |xs| && n <= |ys| && xs[..n] == ys[..n]
    ensures Picked(p, xs, n) == Picked(p, ys, n)
  {
    if n > 0 {
      assert xs[n-1] == xs[..n][n-1] == ys[..n][n-1] == ys[n-1];
      assert xs[..n-1] == xs[..n][..n-1] && ys[..n-1] == ys[..n][..n-1];
      PickedCong(p, xs, ys, n - 1);
    }
  }

  lemma {:induction false} PickedMore<A>(p: A -> bool, all: seq<A>, xs: seq<A>, ys: seq<A>, n: nat)
    requires all == xs + ys && n <= |ys|
    ensures Picked(p, all, |xs| + n) == Picked(p, xs, |xs|) + Picked(p, ys, n)
  {
    if n == 0 {
      assert all[..|xs|] == xs[..|xs|];
      PickedCong(p, all, xs, |xs|);
    } else {
      PickedMore(p, all, xs, ys, n - 1);
      assert all[|xs| + n - 1] == ys[n-1];
    }
  }

  lemma FilterConcat<A(!new)>(p: A -> bool, xs: seq<A>, ys: seq<A>)
    ensures Filter(p, xs + ys) == Filter(p, xs) + Filter(p, ys)
  {
    PickedMore(p, xs + ys, xs, ys, |ys|);
    PickedAll(p, xs + ys);
    PickedAll(p, xs);
    PickedAll(p, ys);
  }

  // --- sorting by a finer order ---

  ghost predicate Tied<A>(le: (A, A) -> bool, a: A, b: A) {
    le(a, b) && le(b, a)
  }

  /** Element by element the two tie. */
  ghost predicate Alike<A>(le: (A, A) -> bool, xs: seq<A>, ys: seq<A>) {
    |xs| == |ys| && forall i :: 0 <= i < |xs| ==> Tied(le, xs[i], ys[i])
  }

  lemma AlikeSnoc<A>(le: (A, A) -> bool, xs: seq<A>, ys: seq<A>, x: A, y: A)
    requires Alike(le, xs, ys) && Tied(le, x, y)
    ensures Alike(le, xs + [x], ys + [y])
  {
  }

  lemma TiedThrough<A(!new)>(le: (A, A) -> bool, a: A, b: A, c: A)
    requires Preorder(le) && Tied(le, a, b) && Tied(le, b, c)
    ensures Tied(le, a, c)
  {
  }

  /** Of a list that ends in b, one that ends in c instead. */
  lemma AlikeEnd<A(!new)>(le: (A, A) -> bool, xs: seq<A>, front: seq<A>, b: A, c: A)
    requires Preorder(le) && Alike(le, xs, front + [b]) && Tied(le, b, c)
    ensures Alike(le, xs, front + [c])
  {
    TiedThrough(le, xs[|front|], b, c);
    forall i | 0 <= i < |xs| ensures Tied(le, xs[i], (front + [c])[i]) {
      assert Tied(le, xs[i], (front + [b])[i]);
    }
  }

  /** The last element of one list ties the end of the other, which x follows,
      but x goes before it by the finer order. */
  lemma InsertBelowEnd<A(!new)>(le: (A, A) -> bool, inserted: seq<A>, other: seq<A>, last: A, end: A, x: A)
    requires Preorder(le) && Sorted(le, other + [end]) && Alike(le, inserted, Insert(le, other, x))
    requires Tied(le, last, end) && le(end, x) && le(x, last)
    ensures Alike(le, inserted + [last], other + [end] + [x])
  {
    forall i | 0 <= i < |other| ensures le(other[i], x) {
      assert le((other + [end])[i], (other + [end])[|other|]);
    }
    InsertLast(le, other, x);
    assert Tied(le, x, end) && Tied(le, last, x);
    AlikeEnd(le, inserted, other, x, end);
    AlikeSnoc(le, inserted, other + [end], last, x);
  }

  /** Inserting by a finer order gives, but for ties, the same list. */
  lemma {:induction false} InsertAlike<A(!new)>(fine: (A, A) -> bool, le: (A, A) -> bool, xs: seq<A>, ys: seq<A>, x: A)
    requires Preorder(le) && Sorted(le, ys) && Alike(le, xs, ys)
    requires (forall a, b :: fine(a, b) || fine(b, a)) && forall a, b :: fine(a, b) ==> le(a, b)
    ensures Alike(le, Insert(fine, xs, x), Insert(le, ys, x))
    decreases |xs|
  {
    assert Tied(le, x, x);
    if xs == [] {
      AlikeSnoc(le, [], [], x, x);
    } else {
      var front, last, other, end := xs[..|xs|-1], xs[|xs|-1], ys[..|ys|-1], ys[|ys|-1];
      assert xs == front + [last] && ys == other + [end];
      assert Tied(le, last, end);
      InsertAlike(fine, le, front, other, x);
      InsertSnoc(fine, front, last, x);
      InsertSnoc(le, other, end, x);
      if fine(last, x) {
        assert le(end, x);
        AlikeSnoc(le, xs, ys, x, x);
      } else if le(end, x) {
        InsertBelowEnd(le, Insert(fine, front, x), other, last, end, x);
      } else {
        AlikeSnoc(le, Insert(fine, front, x), Insert(le, other, x), last, end);
      }
    }
  }

  lemma {:induction false} SortAlike<A(!new)>(fine: (A, A) -> bool, le: (A, A) -> bool, xs: seq<A>)
    requires Preorder(le)
    requires (forall a, b :: fine(a, b) || fine(b, a)) && forall a, b :: fine(a, b) ==> le(a, b)
    ensures Alike(le, Sort(fine, xs), Sort(le, xs))
    decreases |xs|
  {
    if xs != [] {
      var front := xs[..|xs|-1];
      SortAlike(fine, le, front);
      SortSorted(le, front);
      InsertAlike(fine, le, Sort(fine, front), Sort(le, front), xs[|xs|-1]);
    }
  }

  // --- sorting what is sorted but for its end ---

  lemma SortSnoc<A>(le: (A, A) -> bool, xs: seq<A>, x: A)
    ensures Sort(le, xs + [x]) == Insert(le, Sort(le, xs), x)
  {
    assert (xs + [x])[..|xs|] == xs;
  }

  lemma {:induction false} SortedStays<A(!new)>(le: (A, A) -> bool, xs: seq<A>)
    requires Sorted(le, xs)
    ensures Sort(le, xs) == xs
  {
    if xs != [] {
      var front := xs[..|xs|-1];
      SortedStays(le, front);
      InsertLast(le, front, xs[|xs|-1]);
      assert xs == front + [xs[|xs|-1]];
    }
  }

  lemma InsertBefore<A(!new)>(le: (A, A) -> bool, zs: seq<A>, a: A, b: A)
    requires forall z :: z in zs ==> le(z, b)
    ensures Insert(le, zs + [a], b) == zs + if le(a, b) then [a, b] else [b, a]
  {
    hide Insert;
    InsertSnoc(le, zs, a, b);
    InsertLast(le, zs, b);
    assert zs + [a] + [b] == zs + [a, b] && zs + [b] + [a] == zs + [b, a];
  }

  lemma SortLast<A(!new)>(le: (A, A) -> bool, zs: seq<A>, a: A)
    requires Sorted(le, zs) && forall z :: z in zs ==> le(z, a)
    ensures Sort(le, zs + [a]) == zs + [a]
  {
    SortSnoc(le, zs, a);
    SortedStays(le, zs);
    InsertLast(le, zs, a);
  }

  /** Only the last two are not where they belong. */
  lemma SortLastTwo<A(!new)>(le: (A, A) -> bool, zs: seq<A>, a: A, b: A, xs: seq<A>)
    requires Sorted(le, zs) && (forall z :: z in zs ==> le(z, a) && le(z, b)) && xs == zs + [a] + [b]
    ensures Sort(le, xs) == zs + if le(a, b) then [a, b] else [b, a]
  {
    SortLast(le, zs, a);
    SortSnoc(le, zs + [a], b);
    InsertBefore(le, zs, a, b);
  }

  lemma {:induction false} HasNot<A, B>(f: A -> B, xs: seq<A>, v: B)
    requires forall i :: 0 <= i < |xs| ==> f(xs[i]) != v
    ensures !Has(f, xs, v)
  {
    if xs != [] {
      HasNot(f, xs[..|xs|-1], v);
    }
  }

  lemma {:induction false} DedupNone<A, B>(f: A -> B, xs: seq<A>)
    requires forall i, j :: 0 <= i < j < |xs| ==> f(xs[i]) != f(xs[j])
    ensures Dedup(f, xs) == xs
  {
    if xs != [] {
      var front, last := xs[..|xs|-1], xs[|xs|-1];
      DedupNone(f, front);
      DedupSnoc(f, front, last);
      HasNot(f, front, f(last));
      assert xs == front + [last];
    }
  }
}
