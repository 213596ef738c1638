/** How many entries of a map satisfy a predicate. */
module Counts {
  ghost function Matching<K, V>(p: V -> bool, m: map<K, V>): set<K> {
    set k | k in m && p(m[k])
  }

  ghost function Count<K, V>(p: V -> bool, m: map<K, V>): nat {
    |Matching(p, m)|
  }

  ghost function One(b: bool): nat {
    if b then 1 else 0
  }

  lemma CountUpdate<K, V>(p: V -> bool, m: map<K, V>, k: K, v: V)
    ensures Count(p, m[k := v]) == Count(p, m) - One(k in m && p(m[k])) + One(p(v))
  {
    var before, after := Matching(p, m), Matching(p, m[k := v]);
    assert after == if p(v) then before + {k} else before - {k};
  }

  lemma CountRemove<K, V>(p: V -> bool, m: map<K, V>, k: K)
    ensures Count(p, m - {k}) == Count(p, m) - One(k in m && p(m[k]))
  {
    var before, after := Matching(p, m), Matching(p, m - {k});
    assert after == before - {k};
  }

  lemma Subset<K>(xs: set<K>, ys: set<K>)
    requires xs <= ys
    ensures |xs| <= |ys|
  {
    assert ys == xs + (ys - xs);
  }

  /** The sum of f over xs. */
  ghost function Total<T>(f: T -> int, xs: seq<T>): int {
    if xs == [] then 0 else Total(f, xs[..|xs|-1]) + f(xs[|xs|-1])
  }

  lemma TotalSnoc<T>(f: T -> int, xs: seq<T>, x: T)
    ensures Total(f, xs + [x]) == Total(f, xs) + f(x)
  {
    assert (xs + [x])[..|xs|] == xs;
  }

  lemma {:induction false} TotalUpdate<T>(f: T -> int, xs: seq<T>, i: nat, x: T)
    requires i < |xs|
    ensures Total(f, xs[i := x]) == Total(f, xs) - f(xs[i]) + f(x)
  {
    var n := |xs| - 1;
    if i < n {
      TotalUpdate(f, xs[..n], i, x);
      assert xs[i := x][..n] == xs[..n][i := x];
    } else {
      assert xs[i := x][..n] == xs[..n];
    }
  }

  lemma {:induction false} TotalAtLeast<T>(f: T -> int, xs: seq<T>, i: nat)
    requires i < |xs| && forall x :: x in xs ==> f(x) >= 0
    ensures Total(f, xs) >= f(xs[i]) >= 0
  {
    var n := |xs| - 1;
    assert xs[n] in xs && forall x :: x in xs[..n] ==> x in xs;
    if i < n {
      TotalAtLeast(f, xs[..n], i);
    } else if n > 0 {
      TotalAtLeast(f, xs[..n], 0);
    }
  }
}
