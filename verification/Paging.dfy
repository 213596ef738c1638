/** Paging by keyset: the predicate that resumes an ordered read after a row
    holds exactly for the rows after it, so following cursors yields every row
    once, in order. */
module Paging {
  import opened Lists
  import opened Relalg

  // --- the order of rows ---

  function KeysOf(terms: seq<OrderTerm>, row: Row): (ks: seq<Value>)
    ensures |ks| == |terms| && forall i :: 0 <= i < |terms| ==> ks[i] == Get(row, terms[i].field)
  {
    seq(|terms|, i requires 0 <= i < |terms| => Get(row, terms[i].field))
  }

  /** A column not nullable holds no NULL. */
  predicate Fits(terms: seq<OrderTerm>, ks: seq<Value>) {
    |ks| == |terms| && forall i :: 0 <= i < |terms| ==> (ks[i].Null? ==> terms[i].nullable)
  }

  /** ks comes strictly after cs: the first value that differs does. */
  predicate StrictlyAfter(db: Db, terms: seq<OrderTerm>, cs: seq<Value>, ks: seq<Value>)
    requires |cs| == |ks| == |terms|
  {
    terms != [] &&
    (CompareTerm(db, terms[0], cs[0], ks[0]) < 0 || (cs[0] == ks[0] && StrictlyAfter(db, terms[1..], cs[1..], ks[1..])))
  }

  lemma {:induction false} AfterIsNotBefore(db: Db, terms: seq<OrderTerm>, cs: seq<Value>, ks: seq<Value>)
    requires TotalOrder(db.le) && |cs| == |ks| == |terms|
    ensures StrictlyAfter(db, terms, cs, ks) <==> !KeysLe(db, terms, ks, cs)
  {
    if terms != [] {
      CompareTermOrder(db, terms[0], cs[0], ks[0], cs[0]);
      AfterIsNotBefore(db, terms[1..], cs[1..], ks[1..]);
    }
  }

  /** The i-th value comes after, and the ones before it are equal. */
  predicate AfterAt(db: Db, terms: seq<OrderTerm>, cs: seq<Value>, ks: seq<Value>, i: nat)
    requires |cs| == |ks| == |terms| && i < |terms|
  {
    cs[..i] == ks[..i] && CompareTerm(db, terms[i], cs[i], ks[i]) < 0
  }

  lemma {:induction false} AfterSomewhere(db: Db, terms: seq<OrderTerm>, cs: seq<Value>, ks: seq<Value>)
    requires |cs| == |ks| == |terms|
    ensures StrictlyAfter(db, terms, cs, ks) <==> exists i :: 0 <= i < |terms| && AfterAt(db, terms, cs, ks, i)
  {
    if terms != [] {
      AfterSomewhere(db, terms[1..], cs[1..], ks[1..]);
      forall i | 0 < i < |terms|
        ensures AfterAt(db, terms, cs, ks, i) <==> cs[0] == ks[0] && AfterAt(db, terms[1..], cs[1..], ks[1..], i - 1)
      {
        assert cs[..i] == [cs[0]] + cs[1..][..i-1] && ks[..i] == [ks[0]] + ks[1..][..i-1];
      }
      if StrictlyAfter(db, terms, cs, ks) {
        if CompareTerm(db, terms[0], cs[0], ks[0]) < 0 {
          assert AfterAt(db, terms, cs, ks, 0);
        } else {
          var i :| 0 <= i < |terms[1..]| && AfterAt(db, terms[1..], cs[1..], ks[1..], i);
          assert AfterAt(db, terms, cs, ks, i + 1);
        }
      }
      if i :| 0 <= i < |terms| && AfterAt(db, terms, cs, ks, i) {
        if i > 0 {
          assert AfterAt(db, terms[1..], cs[1..], ks[1..], i - 1);
        }
      }
    }
  }

  // --- the cursor's predicate ---

  function AfterValue(t: OrderTerm, v: Value): Predicate {
    if v.Null? then Nil
    else
      var past := Condition(t.field, if t.desc then Lt else Gt, Scalar(v));
      if t.nullable then Or([past, Condition(t.field, IsNull, Scalar(Null))]) else past
  }

  function EqualsValue(field: string, v: Value): Predicate {
    if v.Null? then Condition(field, IsNull, Scalar(Null)) else Condition(field, Eq, Scalar(v))
  }

  function Conjunction(ps: seq<Predicate>): Predicate {
    if ps == [] then Nil else if |ps| == 1 then ps[0] else And(ps)
  }

  function Equals(terms: seq<OrderTerm>, cs: seq<Value>, i: nat): (ps: seq<Predicate>)
    requires |cs| == |terms| && i <= |terms|
    ensures |ps| == i && forall j :: 0 <= j < i ==> ps[j] == EqualsValue(terms[j].field, cs[j])
  {
    seq(i, j requires 0 <= j < i => EqualsValue(terms[j].field, cs[j]))
  }

  /** The rows that differ first at the i-th term, and come after there. */
  function Alternative(terms: seq<OrderTerm>, cs: seq<Value>, i: nat): Predicate
    requires |cs| == |terms| && i < |terms|
  {
    Conjunction(Equals(terms, cs, i) + [AfterValue(terms[i], cs[i])])
  }

  /** Nothing comes after NULL. */
  function Alternatives(terms: seq<OrderTerm>, cs: seq<Value>, n: nat): seq<Predicate>
    requires |cs| == |terms| && n <= |terms|
  {
    if n == 0 then []
    else Alternatives(terms, cs, n - 1) + (if cs[n-1].Null? then [] else [Alternative(terms, cs, n - 1)])
  }

  function Disjunction(ps: seq<Predicate>): Predicate
    requires ps != []
  {
    if |ps| == 1 then ps[0] else Or(ps)
  }

  lemma LookupOwn(row: Row, name: string)
    ensures Lookup(Env(row, map[]), name) == Get(row, name)
  {
  }

  lemma EqualsMeans(db: Db, row: Row, field: string, v: Value)
    ensures Meaning(db, Env(row, map[]), EqualsValue(field, v)) == True <==> Get(row, field) == v
  {
    LookupOwn(row, field);
  }

  lemma AfterMeans(db: Db, row: Row, t: OrderTerm, v: Value)
    requires TotalOrder(db.le) && !v.Null? && (Get(row, t.field).Null? ==> t.nullable)
    ensures Meaning(db, Env(row, map[]), AfterValue(t, v)) == True <==> CompareTerm(db, t, v, Get(row, t.field)) < 0
  {
    var env, k := Env(row, map[]), Get(row, t.field);
    LookupOwn(row, t.field);
    var past := Condition(t.field, if t.desc then Lt else Gt, Scalar(v));
    assert Meaning(db, env, past) == True <==> !k.Null? && CompareTerm(db, t, v, k) < 0;
    if t.nullable {
      var ps := [past, Condition(t.field, IsNull, Scalar(Null))];
      OrAllTrue(Meanings(db, env, ps));
      assert Meanings(db, env, ps)[0] == Meaning(db, env, past);
      assert Meanings(db, env, ps)[1] == Of(k.Null?);
    }
  }

  lemma ConjunctionMeans(db: Db, env: Env, ps: seq<Predicate>)
    ensures Meaning(db, env, Conjunction(ps)) == True <==> forall i :: 0 <= i < |ps| ==> Meaning(db, env, ps[i]) == True
  {
    AndAllTrue(Meanings(db, env, ps));
  }

  lemma AllEqual(db: Db, terms: seq<OrderTerm>, cs: seq<Value>, row: Row, i: nat)
    requires |cs| == |terms| && i < |terms|
    ensures (forall j :: 0 <= j < i ==> Meaning(db, Env(row, map[]), Equals(terms, cs, i)[j]) == True) <==>
            cs[..i] == KeysOf(terms, row)[..i]
  {
    var env, ks, ps := Env(row, map[]), KeysOf(terms, row), Equals(terms, cs, i);
    forall j | 0 <= j < i ensures Meaning(db, env, ps[j]) == True <==> cs[j] == ks[j] {
      EqualsMeans(db, row, terms[j].field, cs[j]);
    }
    assert cs[..i] == ks[..i] <==> forall j :: 0 <= j < i ==> cs[j] == ks[j];
  }

  lemma AlternativeMeans(db: Db, terms: seq<OrderTerm>, cs: seq<Value>, row: Row, i: nat)
    requires TotalOrder(db.le) && |cs| == |terms| && i < |terms| && !cs[i].Null? && Fits(terms, KeysOf(terms, row))
    ensures Meaning(db, Env(row, map[]), Alternative(terms, cs, i)) == True <==>
            AfterAt(db, terms, cs, KeysOf(terms, row), i)
  {
    var before, last := Equals(terms, cs, i), AfterValue(terms[i], cs[i]);
    ConjunctionMeans(db, Env(row, map[]), before + [last]);
    assert (before + [last])[i] == last && forall j :: 0 <= j < i ==> (before + [last])[j] == before[j];
    AfterMeans(db, row, terms[i], cs[i]);
    AllEqual(db, terms, cs, row, i);
  }

  lemma {:induction false} AlternativesMean(db: Db, terms: seq<OrderTerm>, cs: seq<Value>, row: Row, n: nat)
    requires TotalOrder(db.le) && |cs| == |terms| && n <= |terms| && Fits(terms, cs) && Fits(terms, KeysOf(terms, row))
    ensures (exists i :: 0 <= i < |Alternatives(terms, cs, n)| &&
                           Meaning(db, Env(row, map[]), Alternatives(terms, cs, n)[i]) == True)
            <==> exists i :: 0 <= i < n && AfterAt(db, terms, cs, KeysOf(terms, row), i)
  {
    hide Alternative, Meaning;
    if n > 0 {
      var before, all, last := Alternatives(terms, cs, n - 1), Alternatives(terms, cs, n), n - 1;
      AlternativesMean(db, terms, cs, row, n - 1);
      if cs[last].Null? {
        assert all == before;
      } else {
        AlternativeMeans(db, terms, cs, row, last);
        assert all == before + [Alternative(terms, cs, last)];
        assert all[|before|] == Alternative(terms, cs, last);
        assert forall i :: 0 <= i < |before| ==> all[i] == before[i];
      }
    }
  }

  /** The predicate of a cursor holds exactly for the rows strictly after it. */
  lemma CursorMeans(db: Db, terms: seq<OrderTerm>, cs: seq<Value>, row: Row)
    requires TotalOrder(db.le) && Fits(terms, cs) && Fits(terms, KeysOf(terms, row))
    requires Alternatives(terms, cs, |terms|) != []
    ensures Meaning(db, Env(row, map[]), Disjunction(Alternatives(terms, cs, |terms|))) == True <==>
            StrictlyAfter(db, terms, cs, KeysOf(terms, row))
  {
    var ps, env := Alternatives(terms, cs, |terms|), Env(row, map[]);
    OrAllTrue(Meanings(db, env, ps));
    AlternativesMean(db, terms, cs, row, |terms|);
    AfterSomewhere(db, terms, cs, KeysOf(terms, row));
    if |ps| == 1 {
      assert ps[0] == Disjunction(ps);
    }
  }

  // --- following cursors ---

  ghost function RowLe(db: Db, terms: seq<OrderTerm>): (Row, Row) -> bool {
    (r, s) => KeysLe(db, terms, KeysOf(terms, r), KeysOf(terms, s))
  }

  lemma RowLePreorder(db: Db, terms: seq<OrderTerm>)
    requires TotalOrder(db.le)
    ensures Preorder(RowLe(db, terms))
  {
    var le := RowLe(db, terms);
    forall r, s ensures le(r, s) || le(s, r) {
      KeysLeTotal(db, terms, KeysOf(terms, r), KeysOf(terms, s));
    }
    forall r, s, t | le(r, s) && le(s, t) ensures le(r, t) {
      KeysLeTransitive(db, terms, KeysOf(terms, r), KeysOf(terms, s), KeysOf(terms, t));
    }
  }

  datatype Option<T> = None | Some(value: T)

  /** The rows a read resumed after a cursor selects. */
  ghost function Resumed(db: Db, terms: seq<OrderTerm>, cursor: Option<seq<Value>>): Row -> bool {
    (row: Row) => cursor.Some? && |cursor.value| == |terms| ==>
        StrictlyAfter(db, terms, cursor.value, KeysOf(terms, row))
  }

  ghost function Take<A>(xs: seq<A>, n: nat): seq<A> {
    if n < |xs| then xs[..n] else xs
  }

  /** One page: the matching rows after the cursor, in order, at most limit. */
  ghost function Page(db: Db, terms: seq<OrderTerm>, rows: seq<Row>, limit: nat, cursor: Option<seq<Value>>): seq<Row> {
    Take(Lists.Sort(RowLe(db, terms), Filter(Resumed(db, terms, cursor), rows)), limit)
  }

  ghost predicate DistinctKeys(terms: seq<OrderTerm>, rows: seq<Row>) {
    forall i, j :: 0 <= i < j < |rows| ==> KeysOf(terms, rows[i]) != KeysOf(terms, rows[j])
  }

  /** The cursor of the i-th row of s; none at the start. */
  ghost function CursorAt(terms: seq<OrderTerm>, s: seq<Row>, i: nat): Option<seq<Value>>
    requires i <= |s|
  {
    if i == 0 then None else Some(KeysOf(terms, s[i-1]))
  }

  lemma {:induction false} KeysLeAntisymmetric(db: Db, terms: seq<OrderTerm>, ks: seq<Value>, ls: seq<Value>)
    requires TotalOrder(db.le) && |ks| == |ls| == |terms| && KeysLe(db, terms, ks, ls) && KeysLe(db, terms, ls, ks)
    ensures ks == ls
  {
    if terms != [] {
      CompareTermOrder(db, terms[0], ks[0], ls[0], ks[0]);
      KeysLeAntisymmetric(db, terms[1..], ks[1..], ls[1..]);
      assert ks == [ks[0]] + ks[1..] && ls == [ls[0]] + ls[1..];
    }
  }

  /** In a sorted list without two rows of the same keys, the rows after the
      i-th are the rest. */
  lemma ResumedAt(db: Db, terms: seq<OrderTerm>, s: seq<Row>, i: nat, j: nat)
    requires TotalOrder(db.le) && Lists.Sorted(RowLe(db, terms), s) && DistinctKeys(terms, s) && i <= |s| && j < |s|
    ensures Resumed(db, terms, CursorAt(terms, s, i))(s[j]) <==> j >= i
  {
    if i > 0 {
      AfterAtPosition(db, terms, s, i - 1, j);
    }
  }

  lemma AllResumed(db: Db, terms: seq<OrderTerm>, s: seq<Row>, i: nat, p: Row -> bool)
    requires TotalOrder(db.le) && Lists.Sorted(RowLe(db, terms), s) && DistinctKeys(terms, s) && i <= |s|
    requires p == Resumed(db, terms, CursorAt(terms, s, i))
    ensures forall j :: 0 <= j < |s| ==> (p(s[j]) <==> j >= i)
  {
    forall j | 0 <= j < |s| ensures p(s[j]) <==> j >= i {
      ResumedAt(db, terms, s, i, j);
    }
  }

  lemma RestAfter(db: Db, terms: seq<OrderTerm>, s: seq<Row>, i: nat)
    requires TotalOrder(db.le) && Lists.Sorted(RowLe(db, terms), s) && DistinctKeys(terms, s) && i <= |s|
    ensures Filter(Resumed(db, terms, CursorAt(terms, s, i)), s) == s[i..]
  {
    AllResumed(db, terms, s, i, Resumed(db, terms, CursorAt(terms, s, i)));
    FilterTail(Resumed(db, terms, CursorAt(terms, s, i)), s, i);
  }

  lemma AfterAtPosition(db: Db, terms: seq<OrderTerm>, s: seq<Row>, i: nat, j: nat)
    requires TotalOrder(db.le) && Lists.Sorted(RowLe(db, terms), s) && DistinctKeys(terms, s) && i < |s| && j < |s|
    ensures StrictlyAfter(db, terms, KeysOf(terms, s[i]), KeysOf(terms, s[j])) <==> j > i
  {
    var ks, ls, le := KeysOf(terms, s[i]), KeysOf(terms, s[j]), RowLe(db, terms);
    AfterIsNotBefore(db, terms, ks, ls);
    KeysLeTotal(db, terms, ks, ks);
    if j < i {
      assert le(s[j], s[i]);
    }
    if j > i {
      assert le(s[i], s[j]);
      if KeysLe(db, terms, ls, ks) {
        KeysLeAntisymmetric(db, terms, ks, ls);
      }
    }
  }

  lemma SortedDistinct(db: Db, terms: seq<OrderTerm>, rows: seq<Row>)
    requires TotalOrder(db.le) && DistinctKeys(terms, rows)
    ensures Lists.Sorted(RowLe(db, terms), Lists.Sort(RowLe(db, terms), rows))
    ensures DistinctKeys(terms, Lists.Sort(RowLe(db, terms), rows))
  {
    var s := Lists.Sort(RowLe(db, terms), rows);
    RowLePreorder(db, terms);
    SortSorted(RowLe(db, terms), rows);
    forall i, j | 0 <= i < j < |s| ensures KeysOf(terms, s[i]) != KeysOf(terms, s[j]) {
      if KeysOf(terms, s[i]) == KeysOf(terms, s[j]) {
        TwoOf(terms, rows, s, i, j);
      }
    }
  }

  /** Two rows of a permutation are two rows. */
  lemma TwoOf(terms: seq<OrderTerm>, rows: seq<Row>, s: seq<Row>, i: nat, j: nat)
    requires multiset(s) == multiset(rows) && i < j < |s| && KeysOf(terms, s[i]) == KeysOf(terms, s[j])
    ensures !DistinctKeys(terms, rows)
  {
    if s[i] == s[j] {
      var x := s[i];
      assert s == s[..i] + [x] + s[i+1..j] + [x] + s[j+1..];
      assert multiset(s)[x] >= 2;
      Twice(rows, x);
    } else {
      assert s[i] in multiset(rows) && s[j] in multiset(rows);
      var a :| 0 <= a < |rows| && rows[a] == s[i];
      var b :| 0 <= b < |rows| && rows[b] == s[j];
    }
  }

  lemma {:induction false} Twice(rows: seq<Row>, x: Row)
    requires multiset(rows)[x] >= 2
    ensures exists i, j :: 0 <= i < j < |rows| && rows[i] == rows[j] == x
  {
    var n := |rows| - 1;
    assert rows == rows[..n] + [rows[n]];
    if rows[n] == x {
      assert multiset(rows[..n])[x] >= 1;
      assert x in rows[..n];
      var i :| 0 <= i < n && rows[..n][i] == x;
      assert rows[i] == rows[n] == x;
    } else {
      Twice(rows[..n], x);
      var i, j :| 0 <= i < j < n && rows[..n][i] == rows[..n][j] == x;
      assert rows[i] == rows[j] == x;
    }
  }

  /** A page is the next rows of the whole, sorted. */
  lemma PageAt(db: Db, terms: seq<OrderTerm>, rows: seq<Row>, limit: nat, i: nat)
    requires TotalOrder(db.le) && DistinctKeys(terms, rows)
    requires i <= |Lists.Sort(RowLe(db, terms), rows)|
    ensures var s := Lists.Sort(RowLe(db, terms), rows);
            Page(db, terms, rows, limit, CursorAt(terms, s, i)) == Take(s[i..], limit)
  {
    var s := Lists.Sort(RowLe(db, terms), rows);
    SortedDistinct(db, terms, rows);
    RowLePreorder(db, terms);
    FilterSort(RowLe(db, terms), Resumed(db, terms, CursorAt(terms, s, i)), rows);
    RestAfter(db, terms, s, i);
  }

  type Reader = Option<seq<Value>> -> seq<Row>

  /** The reader that pages through rows. */
  ghost function Paged(db: Db, terms: seq<OrderTerm>, rows: seq<Row>, limit: nat): Reader {
    cursor => Page(db, terms, rows, limit, cursor)
  }

  /** The pages read from a cursor on, each from the cursor of the one before,
      until one is not full; at most n of them. */
  ghost function Pages(
    read: Reader, terms: seq<OrderTerm>, limit: nat, cursor: Option<seq<Value>>, n: nat): seq<seq<Row>>
    decreases n
  {
    if n == 0 then []
    else
      var page := read(cursor);
      if page == [] || |page| < limit then [page]
      else [page] + Pages(read, terms, limit, Some(KeysOf(terms, page[|page|-1])), n - 1)
  }

  function Flatten(pages: seq<seq<Row>>): seq<Row> {
    if pages == [] then [] else pages[0] + Flatten(pages[1..])
  }

  ghost predicate Ends(pages: seq<seq<Row>>, limit: nat) {
    pages != [] && |pages[|pages|-1]| < limit
  }

  lemma FlattenCons(page: seq<Row>, more: seq<seq<Row>>)
    ensures Flatten([page] + more) == page + Flatten(more)
  {
    assert ([page] + more)[1..] == more;
  }

  /** Every page is the next rows of s. */
  ghost predicate Slices(read: Reader, terms: seq<OrderTerm>, limit: nat, s: seq<Row>) {
    forall i: nat {:trigger CursorAt(terms, s, i)} :: i <= |s| ==> read(CursorAt(terms, s, i)) == Take(s[i..], limit)
  }

  lemma FullSlice(terms: seq<OrderTerm>, s: seq<Row>, i: nat, limit: nat)
    requires i + limit <= |s| && limit > 0
    ensures |Take(s[i..], limit)| == limit && Take(s[i..], limit) + s[i + limit..] == s[i..]
    ensures CursorAt(terms, s, i + limit) == Some(KeysOf(terms, Take(s[i..], limit)[limit-1]))
  {
  }

  lemma PagesMore(
    read: Reader, terms: seq<OrderTerm>, limit: nat, cursor: Option<seq<Value>>, next: Option<seq<Value>>, n: nat,
    rest: seq<Row>)
    requires n > 0 && 0 < limit == |read(cursor)| && next == Some(KeysOf(terms, read(cursor)[limit-1]))
    requires var more := Pages(read, terms, limit, next, n - 1); Ends(more, limit) && Flatten(more) == rest
    ensures var pages := Pages(read, terms, limit, cursor, n);
                Flatten(pages) == read(cursor) + rest && Ends(pages, limit)
  {
    FlattenCons(read(cursor), Pages(read, terms, limit, next, n - 1));
  }

  lemma PagesLast(read: Reader, terms: seq<OrderTerm>, limit: nat, cursor: Option<seq<Value>>, n: nat)
    requires n > 0 && |read(cursor)| < limit
    ensures var pages := Pages(read, terms, limit, cursor, n); Flatten(pages) == read(cursor) && Ends(pages, limit)
  {
    var page := read(cursor);
    FlattenCons(page, []);
    assert [page] + [] == [page] && page + [] == page;
  }

  /** The pages from the i-th row of s on are the rest of s. */
  ghost predicate ReadsFrom(read: Reader, terms: seq<OrderTerm>, limit: nat, s: seq<Row>, i: nat, n: nat)
    requires i <= |s|
  {
    var pages := Pages(read, terms, limit, CursorAt(terms, s, i), n);
    Flatten(pages) == s[i..] && Ends(pages, limit)
  }

  lemma PagesEnd(read: Reader, terms: seq<OrderTerm>, limit: nat, s: seq<Row>, i: nat, n: nat)
    requires i <= |s| < i + limit && n > 0 && read(CursorAt(terms, s, i)) == Take(s[i..], limit)
    ensures ReadsFrom(read, terms, limit, s, i, n)
  {
    PagesLast(read, terms, limit, CursorAt(terms, s, i), n);
  }

  lemma PagesStep(read: Reader, terms: seq<OrderTerm>, limit: nat, s: seq<Row>, i: nat, n: nat)
    requires 0 < limit && i + limit <= |s| && n > 0 && read(CursorAt(terms, s, i)) == Take(s[i..], limit)
    requires ReadsFrom(read, terms, limit, s, i + limit, n - 1)
    ensures ReadsFrom(read, terms, limit, s, i, n)
  {
    FullSlice(terms, s, i, limit);
    PagesMore(read, terms, limit, CursorAt(terms, s, i), CursorAt(terms, s, i + limit), n, s[i + limit..]);
  }

  lemma {:induction false} PagesFrom(read: Reader, terms: seq<OrderTerm>, limit: nat, s: seq<Row>, i: nat, n: nat)
    requires Slices(read, terms, limit, s) && limit > 0 && i <= |s| && n > |s| - i
    ensures ReadsFrom(read, terms, limit, s, i, n)
    decreases n
  {
    hide ReadsFrom;
    if |s| - i < limit {
      PagesEnd(read, terms, limit, s, i, n);
    } else {
      PagesFrom(read, terms, limit, s, i + limit, n - 1);
      PagesStep(read, terms, limit, s, i, n);
    }
  }

  /** Following cursors over rows that do not change yields every row once, in
      order, and ends. */
  lemma PagesAreAll(db: Db, terms: seq<OrderTerm>, rows: seq<Row>, limit: nat, n: nat)
    requires TotalOrder(db.le) && DistinctKeys(terms, rows) && limit > 0 && n > |rows|
    ensures var pages := Pages(Paged(db, terms, rows, limit), terms, limit, None, n);
            Flatten(pages) == Lists.Sort(RowLe(db, terms), rows) && Ends(pages, limit)
  {
    var s := Lists.Sort(RowLe(db, terms), rows);
    assert |multiset(s)| == |multiset(rows)|;
    var read := Paged(db, terms, rows, limit);
    forall i: nat | i <= |s| ensures read(CursorAt(terms, s, i)) == Take(s[i..], limit) {
      PageAt(db, terms, rows, limit, i);
    }
    PagesFrom(read, terms, limit, s, 0, n);
    assert s[0..] == s;
  }
}
