/** The main theorem of the query compiler: a read chain the renderer accepts
    returns, as one SELECT, the rows it means node by node. */
module SelectMain {
  import opened Lists
  import opened Relalg
  import opened SqlSelect
  import opened Flatten
  import opened Resolve
  import opened SortKeys
  import opened SelectCorrect
  import opened SelectGroups
  import opened SelectOrder

  function SelectedOf(db: Db, q: Query, z: Paired): Selected {
    Selected(z.ctx, SelectOut(db, q, z.ctx))
  }

  /** q selects and deduplicates what c does. */
  predicate Selects(q: Query, c: Clauses) {
    q.alias == FromAlias(c) && q.list == ListOf(c) && q.distinct == c.distinct
  }

  // --- what ORDER BY sorts by ---

  lemma GroupSelects(c: Clauses, name: string) returns (k: nat)
    requires OutputName(c, name)
    ensures var items := AggregateColumns(NamesOf(c), c.groupBy, c.aggregates);
            k < |items| && items[k].column == OutputColumn(NamesOf(c), c.aggregates, name)
  {
    var i := Named(c.aggregates, name);
    if i >= 0 {
      k := |c.groupBy| + i;
    } else {
      k :| 0 <= k < |c.groupBy| && c.groupBy[k] == name;
    }
  }

  lemma GroupUnaliased(c: Clauses, col: Column)
    ensures var items := AggregateColumns(NamesOf(c), c.groupBy, c.aggregates);
            PositionByAlias(items, col) == |items|
  {
    var items, n := AggregateColumns(NamesOf(c), c.groupBy, c.aggregates), |c.groupBy|;
    forall k | 0 <= k < |items| ensures items[k].alias == "" {
      assert k >= n ==> items[n + (k - n)].alias == "";
    }
  }

  lemma ItemOrderValue(db: Db, q: Query, z: Paired, col: Column, k: nat)
    requires q.list.Items? && k < |q.list.items| && q.list.items[k].column == col
    requires PositionByAlias(q.list.items, col) == |q.list.items|
    ensures OrderValue(db, q, SelectedOf(db, q, z), col) == Some(ColumnValue(db, q.alias, z.ctx, col))
  {
    var p := PositionByColumn(q.list.items, col);
    assert ItemColumns(q.list.items)[p] == col;
  }

  lemma GroupOrderValue(db: Db, c: Clauses, q: Query, z: Paired, name: string)
    requires Selects(q, c) && Aggregates(c) && OutputName(c, name)
    ensures var col := OutputColumn(NamesOf(c), c.aggregates, name);
            OrderValue(db, q, SelectedOf(db, q, z), col) == Some(ColumnValue(db, q.alias, z.ctx, col))
  {
    var col := OutputColumn(NamesOf(c), c.aggregates, name);
    var k := GroupSelects(c, name);
    GroupUnaliased(c, col);
    ItemOrderValue(db, q, z, col, k);
  }

  lemma SelectedValue(db: Db, q: Query, z: Paired, i: nat)
    requires q.list.Items? && i < |q.list.items|
    ensures var out := SelectedOf(db, q, z).out;
            out.Columns? && i < |out.values| && out.values[i] == ColumnValue(db, q.alias, z.ctx, q.list.items[i].column)
  {
  }

  lemma AliasOrderValue(db: Db, q: Query, z: Paired, col: Column)
    requires q.list.Items?
    requires var i := PositionByAlias(q.list.items, col);
             q.distinct && i == |q.list.items| ==> exists k :: 0 <= k < |q.list.items| && q.list.items[k].column == col
    ensures var i := PositionByAlias(q.list.items, col);
            OrderValue(db, q, SelectedOf(db, q, z), col) ==
            Some(ColumnValue(db, q.alias, z.ctx, if i < |q.list.items| then q.list.items[i].column else col))
  {
    var i, k := PositionByAlias(q.list.items, col), PositionByColumn(q.list.items, col);
    if i < |q.list.items| {
      SelectedValue(db, q, z, i);
    } else if q.distinct {
      SelectedValue(db, q, z, k);
    }
  }

  lemma ProjectOrderValue(db: Db, c: Clauses, q: Query, z: Paired, t: OrderTerm)
    requires Selects(q, c) && !Aggregates(c) && c.cols != [] && TermSelected(c, t)
    ensures OrderValue(db, q, SelectedOf(db, q, z), Col(NamesOf(c), t.field)) ==
            Some(ColumnValue(db, q.alias, z.ctx, Col(NamesOf(c), SortField(c, t.field))))
  {
    var ns := NamesOf(c);
    var col, items := Col(ns, t.field), ProjectColumns(ns, c.cols);
    if c.distinct && PositionByAlias(items, col) == |items| {
      var k :| 0 <= k < |c.cols| && ItemFields(c.cols)[k] == t.field;
      assert items[k].column == col;
    }
    AliasOrderValue(db, q, z, col);
  }

  lemma StarOrderValue(db: Db, c: Clauses, q: Query, z: Paired, t: OrderTerm)
    requires Selects(q, c) && !Aggregates(c) && c.cols == [] && NamesSound(c) && TermSelected(c, t)
    ensures var col := Col(NamesOf(c), t.field);
            OrderValue(db, q, SelectedOf(db, q, z), col) == Some(ColumnValue(db, q.alias, z.ctx, col))
  {
    var ns := NamesOf(c);
    var col := Col(ns, t.field);
    assert col.qualifier == ns.root ==> col.name == t.field;
  }

  /** ORDER BY sorts a term by the field that takes its name. */
  lemma TermOrderValue(db: Db, c: Clauses, q: Query, z: Paired, t: OrderTerm)
    requires Selects(q, c) && NamesSound(c) && TermSelected(c, t) && OrderClear(c, t) && Shows(db, c, q, z)
    ensures OrderValue(db, q, SelectedOf(db, q, z), OutputColumn(NamesOf(c), c.aggregates, t.field)) ==
            Some(Lookup(z.rec.env, SortField(c, t.field)))
  {
    if Aggregates(c) {
      GroupOrderValue(db, c, q, z, t.field);
    } else if c.cols != [] {
      ProjectOrderValue(db, c, q, z, t);
    } else {
      StarOrderValue(db, c, q, z, t);
    }
  }

  /** A CASE on NULL before the column puts NULLs last. */
  lemma CaseThenColumn(db: Db, t: OrderTerm, col: Column, x: Value, y: Value)
    requires Ordered(db) && t.nullable
    ensures var a := CompareItem(db, NullCase(col), if x.Null? then Num(1.0) else Num(0.0),
                                 if y.Null? then Num(1.0) else Num(0.0));
            var b := CompareItem(db, SortBy(col, t.desc, false), x, y);
            var c := CompareTerm(db, t, x, y);
            ((a < 0 || (a == 0 && b < 0)) <==> c < 0) && ((a == 0 && b == 0) <==> c == 0)
  {
  }

  lemma ItemsLeCons(db: Db, q: Query, item: SortItem, rest: seq<SortItem>, s: Selected, t: Selected)
    ensures ItemsLe(db, q, [item] + rest, s, t) ==
            (var c := CompareItem(db, item, ItemKey(db, q, s, item), ItemKey(db, q, t, item));
             c < 0 || (c == 0 && ItemsLe(db, q, rest, s, t)))
  {
    assert ([item] + rest)[1..] == rest;
  }

  lemma KeyItemLe(
    db: Db, q: Query, t: OrderTerm, key: SortItem, rest: seq<SortItem>, s: Selected, u: Selected, x: Value, y: Value)
    requires key.SortBy? && key.desc == t.desc && key.nullsLast == t.nullable
    requires OrderValue(db, q, s, key.column) == Some(x) && OrderValue(db, q, u, key.column) == Some(y)
    ensures ItemsLe(db, q, [key] + rest, s, u) ==
            (var c := CompareTerm(db, t, x, y); c < 0 || (c == 0 && ItemsLe(db, q, rest, s, u)))
  {
    ItemsLeCons(db, q, key, rest, s, u);
  }

  lemma CaseItemsLe(
    db: Db, q: Query, t: OrderTerm, col: Column, rest: seq<SortItem>, s: Selected, u: Selected, x: Value, y: Value)
    requires Ordered(db) && t.nullable
    requires OrderValue(db, q, s, col) == Some(x) && OrderValue(db, q, u, col) == Some(y)
    ensures ItemsLe(db, q, [NullCase(col)] + ([SortBy(col, t.desc, false)] + rest), s, u) ==
            (var c := CompareTerm(db, t, x, y); c < 0 || (c == 0 && ItemsLe(db, q, rest, s, u)))
  {
    ItemsLeCons(db, q, SortBy(col, t.desc, false), rest, s, u);
    ItemsLeCons(db, q, NullCase(col), [SortBy(col, t.desc, false)] + rest, s, u);
    CaseThenColumn(db, t, col, x, y);
  }

  /** The items one term is sorted by. */
  lemma TermItemsLe(db: Db, q: Query, t: OrderTerm, col: Column, nullsLast: bool, rest: seq<SortItem>,
                    s: Selected, u: Selected, x: Value, y: Value)
    requires Ordered(db)
    requires OrderValue(db, q, s, col) == Some(x) && OrderValue(db, q, u, col) == Some(y)
    ensures ItemsLe(db, q, (if t.nullable && !nullsLast then [NullCase(col)] else [])
                           + [SortBy(col, t.desc, t.nullable && nullsLast)] + rest, s, u) ==
            (var c := CompareTerm(db, t, x, y); c < 0 || (c == 0 && ItemsLe(db, q, rest, s, u)))
  {
    var key := SortBy(col, t.desc, t.nullable && nullsLast);
    if t.nullable && !nullsLast {
      assert [NullCase(col)] + [key] + rest == [NullCase(col)] + ([key] + rest);
      CaseItemsLe(db, q, t, col, rest, s, u, x, y);
    } else {
      assert [] + [key] + rest == [key] + rest;
      KeyItemLe(db, q, t, key, rest, s, u, x, y);
    }
  }

  /** z and w have the same values of the first n terms. */
  ghost predicate Tie(c: Clauses, n: nat, z: Paired, w: Paired)
    requires n <= |c.order|
  {
    forall i :: 0 <= i < n ==>
      Lookup(z.rec.env, SortField(c, c.order[i].field)) == Lookup(w.rec.env, SortField(c, c.order[i].field))
  }

  /** Terms that name every group-by field order every group. */
  lemma TiedGroups(db: Db, c: Clauses, n: nat, z: Paired, w: Paired)
    requires n <= |c.order| && Aggregates(c) && Separates(c, n) && Tie(c, n, z, w) && z in Pairs(db, c) &&
             w in Pairs(db, c)
    ensures z == w
  {
    hide Tie, Separates, Source, Groups, GroupKey;
    var g := GroupOfPair(db, c, z);
    var h := GroupOfPair(db, c, w);
    forall k | 0 <= k < |c.groupBy| ensures GroupKey(c.groupBy, g)[k] == GroupKey(c.groupBy, h)[k] {
      TiedKeys(db, c, n, g, h, k);
    }
    SameGroup(db, c, z, w, g, h);
  }

  lemma GroupOfPair(db: Db, c: Clauses, z: Paired) returns (g: seq<Record>)
    requires Aggregates(c) && z in Pairs(db, c)
    ensures g in Groups(c.groupBy, Source(db, c)) && z == GroupPair(db, c)(g)
  {
    hide Source, Groups, GroupPair;
    var gs := Groups(c.groupBy, Source(db, c));
    var a :| 0 <= a < |gs| && z == GroupPair(db, c)(gs[a]);
    g := gs[a];
  }

  lemma TiedKeys(db: Db, c: Clauses, n: nat, g: seq<Record>, h: seq<Record>, k: nat)
    requires n <= |c.order| && Aggregates(c) && Separates(c, n) && k < |c.groupBy|
    requires Tie(c, n, GroupPair(db, c)(g), GroupPair(db, c)(h))
    ensures GroupKey(c.groupBy, g)[k] == GroupKey(c.groupBy, h)[k]
  {
    hide GroupPair, GroupKey;
    GroupFieldValue(db, c, g, k);
    GroupFieldValue(db, c, h, k);
    var i :| 0 <= i < n && c.order[i].field == c.groupBy[k];
  }

  lemma {:induction false} ItemsLeSelf(db: Db, q: Query, items: seq<SortItem>, s: Selected)
    ensures ItemsLe(db, q, items, s, s)
  {
    if items != [] {
      ItemsLeSelf(db, q, items[1..], s);
    }
  }

  lemma {:induction false} KeysLeSelf(db: Db, terms: seq<OrderTerm>, ks: seq<Value>)
    requires |ks| == |terms|
    ensures KeysLe(db, terms, ks, ks)
  {
    if terms != [] {
      KeysLeSelf(db, terms[1..], ks[1..]);
    }
  }

  /** The statement's order of z and w by terms is the chain's. */
  ghost predicate OrdersAlike(
    db: Db, c: Clauses, q: Query, nullsLast: bool, terms: seq<OrderTerm>, z: Paired, w: Paired)
  {
    var sortBy := SortTerms(c, terms);
    ItemsLe(db, q, SortItems(NamesOf(c), c.aggregates, nullsLast, terms), SelectedOf(db, q, z), SelectedOf(db, q, w))
    == KeysLe(db, sortBy, Lookups(z.rec.env, TermFields(sortBy)), Lookups(w.rec.env, TermFields(sortBy)))
  }

  /** One term more before those two rows are ordered alike by; when they differ
      in it, whatever those. */
  lemma TermAgrees(db: Db, c: Clauses, q: Query, nullsLast: bool, terms: seq<OrderTerm>, z: Paired, w: Paired)
    requires Ordered(db) && Selects(q, c) && NamesSound(c) && Shows(db, c, q, z) && Shows(db, c, q, w)
    requires terms != [] && TermSelected(c, terms[0]) && OrderClear(c, terms[0])
    requires var f := SortField(c, terms[0].field);
             Lookup(z.rec.env, f) == Lookup(w.rec.env, f) ==> OrdersAlike(db, c, q, nullsLast, terms[1..], z, w)
    ensures OrdersAlike(db, c, q, nullsLast, terms, z, w)
  {
    hide JoinsSound;
    var t := terms[0];
    TermOrderValue(db, c, q, z, t);
    TermOrderValue(db, c, q, w, t);
    var x, y := Lookup(z.rec.env, SortField(c, t.field)), Lookup(w.rec.env, SortField(c, t.field));
    TermItemsLe(db, q, t, OutputColumn(NamesOf(c), c.aggregates, t.field), nullsLast,
                SortItems(NamesOf(c), c.aggregates, nullsLast, terms[1..]), SelectedOf(db, q, z), SelectedOf(db, q, w),
                    x, y);
    assert CompareTerm(db, t, x, y) == CompareTerm(db, SortTerm(c, t), x, y);
    CompareTermOrder(db, t, x, y, x);
  }

  /** NULLS LAST, or a CASE before the column, sorts as the nullable term asks. */
  lemma {:induction false} ItemsAgree(db: Db, c: Clauses, q: Query, nullsLast: bool, n: nat, z: Paired, w: Paired)
    requires Ordered(db) && Selects(q, c) && NamesSound(c) && Shows(db, c, q, z) && Shows(db, c, q, w) &&
             TermsSelected(c)
    requires n <= |c.order| && Tie(c, n, z, w) && z in Pairs(db, c) && w in Pairs(db, c)
    ensures OrdersAlike(db, c, q, nullsLast, c.order[n..], z, w)
    decreases |c.order| - n
  {
    hide Shows, JoinsSound, OrdersAlike;
    if n == |c.order| {
      NoTerms(db, c, q, nullsLast, z, w);
    } else if TermSelected(c, c.order[n]) {
      var f := SortField(c, c.order[n].field);
      assert c.order[n..][1..] == c.order[n + 1..];
      if Lookup(z.rec.env, f) == Lookup(w.rec.env, f) {
        ItemsAgree(db, c, q, nullsLast, n + 1, z, w);
      }
      TermAgrees(db, c, q, nullsLast, c.order[n..], z, w);
    } else {
      TiedGroups(db, c, n, z, w);
      OrdersSelf(db, c, q, nullsLast, c.order[n..], z);
    }
  }

  lemma NoTerms(db: Db, c: Clauses, q: Query, nullsLast: bool, z: Paired, w: Paired)
    ensures OrdersAlike(db, c, q, nullsLast, [], z, w)
  {
  }

  lemma OrdersSelf(db: Db, c: Clauses, q: Query, nullsLast: bool, terms: seq<OrderTerm>, z: Paired)
    ensures OrdersAlike(db, c, q, nullsLast, terms, z, z)
  {
    var sortBy := SortTerms(c, terms);
    ItemsLeSelf(db, q, SortItems(NamesOf(c), c.aggregates, nullsLast, terms), SelectedOf(db, q, z));
    KeysLeSelf(db, sortBy, Lookups(z.rec.env, TermFields(sortBy)));
  }

  // --- the order of a statement ---

  lemma CompareItemOrder(db: Db, item: SortItem, x: Value, y: Value, z: Value)
    requires TotalOrder(db.le)
    ensures CompareItem(db, item, x, y) == -CompareItem(db, item, y, x)
    ensures CompareItem(db, item, x, y) == 0 <==> x == y
    ensures CompareItem(db, item, x, y) < 0 && CompareItem(db, item, y, z) < 0 ==> CompareItem(db, item, x, z) < 0
  {
  }

  lemma {:induction false} ItemsLeTotal(db: Db, q: Query, items: seq<SortItem>, s: Selected, t: Selected)
    requires TotalOrder(db.le)
    ensures ItemsLe(db, q, items, s, t) || ItemsLe(db, q, items, t, s)
  {
    if items != [] {
      var x, y := ItemKey(db, q, s, items[0]), ItemKey(db, q, t, items[0]);
      CompareItemOrder(db, items[0], x, y, x);
      ItemsLeTotal(db, q, items[1..], s, t);
    }
  }

  lemma {:induction false} ItemsLeTransitive(
    db: Db, q: Query, items: seq<SortItem>, s: Selected, t: Selected, u: Selected)
    requires TotalOrder(db.le) && ItemsLe(db, q, items, s, t) && ItemsLe(db, q, items, t, u)
    ensures ItemsLe(db, q, items, s, u)
  {
    if items != [] {
      var x, y, z := ItemKey(db, q, s, items[0]), ItemKey(db, q, t, items[0]), ItemKey(db, q, u, items[0]);
      CompareItemOrder(db, items[0], x, y, z);
      CompareItemOrder(db, items[0], y, z, x);
      if x == y == z {
        ItemsLeTransitive(db, q, items[1..], s, t, u);
      }
    }
  }

  /** Distinct rows are ordered by what they output. */
  lemma {:induction false} ItemsLeByOutput(db: Db, q: Query, items: seq<SortItem>, s: Selected, t: Selected)
    requires q.distinct && s.out == t.out
    ensures ItemsLe(db, q, items, s, t)
  {
    if items != [] {
      assert ItemKey(db, q, s, items[0]) == ItemKey(db, q, t, items[0]);
      ItemsLeByOutput(db, q, items[1..], s, t);
    }
  }

  lemma DistinctThenOrder(db: Db, q: Query, rows: seq<Selected>)
    requires TotalOrder(db.le) && q.distinct
    ensures Lists.Sort(SqlOrdering(db, q), Dedup(SelectedOut(), rows)) ==
            Dedup(SelectedOut(), Lists.Sort(SqlOrdering(db, q), rows))
  {
    var le := SqlOrdering(db, q);
    assert Preorder(le) by {
      forall s, t ensures le(s, t) || le(t, s) {
        ItemsLeTotal(db, q, q.orderBy, s, t);
      }
      forall s, t, u | le(s, t) && le(t, u) ensures le(s, u) {
        ItemsLeTransitive(db, q, q.orderBy, s, t, u);
      }
    }
    forall s, t | SelectedOut()(s) == SelectedOut()(t) ensures le(s, t) {
      ItemsLeByOutput(db, q, q.orderBy, s, t);
    }
    DedupSort(SelectedOut(), le, rows);
  }

  // --- the two pipelines meet in the sorted pairs ---

  ghost function Chosen(db: Db, q: Query): Paired -> Selected {
    (z: Paired) => SelectedOf(db, q, z)
  }

  ghost function OutOf(db: Db, q: Query): Paired -> Output {
    (z: Paired) => SelectOut(db, q, z.ctx)
  }

  ghost function SortedPairs(db: Db, c: Clauses, terms: seq<OrderTerm>): seq<Paired> {
    if terms == [] then KeptPairs(db, c)
    else Lists.Sort(Pull(Ordering(db, terms), RecOf()), KeptPairs(db, c))
  }

  ghost predicate AllShow(db: Db, c: Clauses, q: Query, zs: seq<Paired>) {
    forall z :: z in zs ==> Shows(db, c, q, z)
  }

  lemma KeptShows(db: Db, c: Clauses, q: Query, z: Paired)
    requires Selects(q, c) && NamesSound(c) && z in KeptPairs(db, c)
    ensures Shows(db, c, q, z)
  {
    hide NamesSound, Shows, Pairs, MeantKept;
    PairShows(db, c, q, z);
  }

  lemma SortedPairsShow(db: Db, c: Clauses, q: Query, terms: seq<OrderTerm>)
    requires Selects(q, c) && NamesSound(c)
    ensures AllShow(db, c, q, KeptPairs(db, c)) && AllShow(db, c, q, SortedPairs(db, c, terms))
  {
    hide NamesSound, Shows, KeptPairs, Selects;
    forall z | z in KeptPairs(db, c) ensures Shows(db, c, q, z) {
      KeptShows(db, c, q, z);
    }
    SortMembers(Pull(Ordering(db, terms), RecOf()), KeptPairs(db, c));
  }

  lemma ChainSorted(db: Db, c: Clauses, terms: seq<OrderTerm>)
    ensures SortedRows(db, c.(order := terms)) == Map(RecOf(), SortedPairs(db, c, terms))
  {
    KeptAreRows(db, c);
    if terms != [] {
      SortOfMap(RecOf(), Ordering(db, terms), Pull(Ordering(db, terms), RecOf()), KeptPairs(db, c));
    }
  }

  /** What the chain outputs of a pair is what the statement selects. */
  lemma OutputAgrees(db: Db, c: Clauses, q: Query, z: Paired)
    requires Selects(q, c) && NamesClear(c) && Shows(db, c, q, z) && (Aggregates(c) ==> c.cols == [])
    ensures (if c.cols == [] then z.rec else Projected(c.cols)(z.rec)).out == OutOf(db, q)(z)
  {
    if c.cols != [] {
      var columns := ItemColumns(ProjectColumns(NamesOf(c), c.cols));
      forall i | 0 <= i < |c.cols|
        ensures Lookup(z.rec.env, c.cols[i].field) == ColumnValue(db, q.alias, z.ctx, columns[i])
      {
      }
      assert Lookups(z.rec.env, ItemFields(c.cols)) == ColumnValues(db, q.alias, z.ctx, columns);
    }
  }

  ghost function ChainRecord(c: Clauses): Paired -> Record {
    (z: Paired) => if c.cols == [] then z.rec else Projected(c.cols)(z.rec)
  }

  lemma ChainOutputs(db: Db, c: Clauses, q: Query, terms: seq<OrderTerm>)
    requires Selects(q, c) && NamesSound(c) && (Aggregates(c) ==> c.cols == [])
    ensures var zs := SortedPairs(db, c, terms);
            Outputs(DistinctRows(db, c.(order := terms))) ==
            Map(OutOf(db, q), if c.distinct then Dedup(OutOf(db, q), zs) else zs)
  {
    hide JoinsSound, Shows;
    var zs := SortedPairs(db, c, terms);
    SortedPairsShow(db, c, q, terms);
    ChainSorted(db, c, terms);
    assert ProjectedRows(db, c.(order := terms)) == Map(ChainRecord(c), zs);
    forall z | z in zs ensures Returned()(ChainRecord(c)(z)) == OutOf(db, q)(z) {
      OutputAgrees(db, c, q, z);
    }
    if c.distinct {
      DedupOfMap(ChainRecord(c), Returned(), OutOf(db, q), zs);
      DedupMembers(OutOf(db, q), zs);
      MapCompose(ChainRecord(c), Returned(), OutOf(db, q), Dedup(OutOf(db, q), zs));
    } else {
      MapCompose(ChainRecord(c), Returned(), OutOf(db, q), zs);
    }
  }

  lemma KeptOrdered(db: Db, c: Clauses, q: Query, nullsLast: bool, z: Paired, w: Paired)
    requires Ordered(db) && Selects(q, c) && NamesSound(c) && TermsSelected(c)
    requires q.orderBy == SortItems(NamesOf(c), c.aggregates, nullsLast, c.order)
    requires z in KeptPairs(db, c) && w in KeptPairs(db, c) && Shows(db, c, q, z) && Shows(db, c, q, w)
    ensures SqlOrdering(db, q)(Chosen(db, q)(z), Chosen(db, q)(w)) ==
            Pull(Ordering(db, SortTerms(c, c.order)), RecOf())(z, w)
  {
    hide Shows, NamesSound, TermsSelected, SortItems, Pairs;
    assert c.order[0..] == c.order;
    ItemsAgree(db, c, q, nullsLast, 0, z, w);
  }

  lemma StatementSorted(db: Db, c: Clauses, q: Query, nullsLast: bool)
    requires Ordered(db) && Selects(q, c) && NamesSound(c) && TermsSelected(c)
    requires q.orderBy == SortItems(NamesOf(c), c.aggregates, nullsLast, c.order) && c.order != []
    ensures Lists.Sort(SqlOrdering(db, q), Map(Chosen(db, q), KeptPairs(db, c))) ==
            Map(Chosen(db, q), SortedPairs(db, c, SortTerms(c, c.order)))
  {
    hide Shows, JoinsSound, SortItems, KeptPairs;
    var zs, sortBy := KeptPairs(db, c), SortTerms(c, c.order);
    SortedPairsShow(db, c, q, sortBy);
    var le := Pull(Ordering(db, sortBy), RecOf());
    forall z, w | z in zs && w in zs
      ensures SqlOrdering(db, q)(Chosen(db, q)(z), Chosen(db, q)(w)) == le(z, w)
    {
      KeptOrdered(db, c, q, nullsLast, z, w);
    }
    SortOfMap(Chosen(db, q), SqlOrdering(db, q), le, zs);
  }

  lemma StatementOutputs(db: Db, c: Clauses, q: Query, nullsLast: bool)
    requires Ordered(db) && Selects(q, c) && NamesSound(c) && TermsSelected(c)
    requires q.orderBy == SortItems(NamesOf(c), c.aggregates, nullsLast, c.order)
    requires HavingRows(db, q) == Map(CtxOf(), KeptPairs(db, c))
    ensures var sorted := SortedPairs(db, c, SortTerms(c, c.order));
            SelectedOutputs(db, q) == Map(OutOf(db, q), if c.distinct then Dedup(OutOf(db, q), sorted) else sorted)
  {
    var zs, sorted := KeptPairs(db, c), SortedPairs(db, c, SortTerms(c, c.order));
    var rows := Map(Chosen(db, q), zs);
    MapCompose(CtxOf(), Selecting(db, q), Chosen(db, q), zs);
    if c.order != [] {
      StatementSorted(db, c, q, nullsLast);
    } else {
      assert q.orderBy == [];
    }
    if c.distinct {
      DistinctThenOrder(db, q, rows);
      DedupOfMap(Chosen(db, q), SelectedOut(), OutOf(db, q), sorted);
      MapCompose(Chosen(db, q), SelectedOut(), OutOf(db, q), Dedup(OutOf(db, q), sorted));
    } else {
      MapCompose(Chosen(db, q), SelectedOut(), OutOf(db, q), sorted);
    }
  }

  lemma {:induction false} SortItemColumn(
    ns: Names, outputs: seq<AggCall>, nullsLast: bool, terms: seq<OrderTerm>, i: nat) returns (k: nat)
    requires i < |SortItems(ns, outputs, nullsLast, terms)|
    ensures k < |terms|
    ensures SortItems(ns, outputs, nullsLast, terms)[i].column == OutputColumn(ns, outputs, terms[k].field)
  {
    var n := if terms[0].nullable && !nullsLast then 2 else 1;
    if i < n {
      k := 0;
    } else {
      k := SortItemColumn(ns, outputs, nullsLast, terms[1..], i - n);
      k := k + 1;
    }
  }

  lemma SelectedFrom(db: Db, q: Query, s: Selected, zs: seq<Paired>, ctxs: seq<Ctx>) returns (z: Paired)
    requires s in SelectedRows(db, q) && ctxs == HavingRows(db, q) && ctxs == Map(CtxOf(), zs)
    ensures z in zs && s == SelectedOf(db, q, z)
  {
    var rows := Map(Selecting(db, q), ctxs);
    DedupMembers(SelectedOut(), rows);
    assert s in rows;
    var i :| 0 <= i < |rows| && s == rows[i];
    z := zs[i];
  }

  lemma AllOrderable(db: Db, c: Clauses, q: Query, nullsLast: bool, z: Paired)
    requires Selects(q, c) && NamesSound(c) && Shows(db, c, q, z) && TermsSelected(c)
    requires q.orderBy == SortItems(NamesOf(c), c.aggregates, nullsLast, c.order)
    ensures Orderable(db, q, SelectedOf(db, q, z))
  {
    forall j | 0 <= j < |q.orderBy| ensures OrderValue(db, q, SelectedOf(db, q, z), q.orderBy[j].column).Some? {
      var k := SortItemColumn(NamesOf(c), c.aggregates, nullsLast, c.order, j);
      if TermSelected(c, c.order[k]) {
        TermOrderValue(db, c, q, z, c.order[k]);
      }
    }
  }

  lemma SliceOutputs(rs: seq<Record>, offset: int, count: int)
    ensures Outputs(Slice(rs, offset, count)) == Slice(Outputs(rs), offset, count)
  {
  }

  lemma LimitAgrees(db: Db, c: Clauses, q: Query)
    requires c.hasLimit ==> c.limit >= 1
    requires SelectedOutputs(db, q) == Outputs(DistinctRows(db, c))
    requires Exposed(q) && Sortable(db, q)
    ensures Result(db, q, LimitOf(c), OffsetOf(c)) == Some(Outputs(Applied(db, c)))
  {
    SliceOutputs(DistinctRows(db, c), c.offset, c.limit);
  }

  lemma AllSortable(db: Db, c: Clauses, q: Query, nullsLast: bool)
    requires Selects(q, c) && NamesSound(c) && TermsSelected(c)
    requires q.orderBy == SortItems(NamesOf(c), c.aggregates, nullsLast, c.order)
    requires HavingRows(db, q) == Map(CtxOf(), KeptPairs(db, c))
    ensures Sortable(db, q)
  {
    forall s | s in SelectedRows(db, q) ensures Orderable(db, q, s) {
      var z := SelectedFrom(db, q, s, KeptPairs(db, c), HavingRows(db, q));
      SortedPairsShow(db, c, q, []);
      AllOrderable(db, c, q, nullsLast, z);
    }
  }

  lemma ProjectedOutputs(db: Db, c: Clauses)
    requires c.cols != []
    ensures Outputs(ProjectedRows(db, c)) == Map(Showing(c.cols), SortedRows(db, c))
  {
    MapCompose(Projected(c.cols), Returned(), Showing(c.cols), SortedRows(db, c));
  }

  function Itself(): Output -> Output {
    (out: Output) => out
  }

  lemma AppliedOutputs(db: Db, c: Clauses)
    ensures var outs := Outputs(ProjectedRows(db, c));
            var kept := if c.distinct then Dedup(Itself(), outs) else outs;
            Outputs(Applied(db, c)) == if c.hasLimit then Slice(kept, c.offset, c.limit) else kept
  {
    DedupOfMap(Returned(), Itself(), Returned(), ProjectedRows(db, c));
    SliceOutputs(DistinctRows(db, c), c.offset, c.limit);
  }

  /** An order that is kept shows the rows it shows in the chain. */
  lemma OrderKeptShows(db: Db, c: Clauses)
    requires TotalOrder(db.le) && OrderKept(c) && (Aggregates(c) ==> c.cols == [])
    ensures Outputs(Applied(db, c.(order := SortTerms(c, c.order)))) == Outputs(Applied(db, c))
  {
    var d := c.(order := SortTerms(c, c.order));
    if c.cols == [] || c.order == [] {
      assert SortTerms(c, c.order) == c.order;
    } else {
      hide Outputs, Applied, ProjectedRows, KeptRows;
      SameSort(db, c.order, d.order, c.cols, KeptRows(db, c));
      ProjectedOutputs(db, c);
      ProjectedOutputs(db, d);
      AppliedOutputs(db, c);
      AppliedOutputs(db, d);
    }
  }

  lemma JoinsExposed(c: Clauses, nullsLast: bool)
    requires Renderable(c) && JoinsSound(c)
    ensures Exposed(QueryOf(c, nullsLast))
  {
  }

  /** The clauses mean the same applied in the chain's order and in SQL's, each
      order term by the field the statement takes it for. */
  lemma ClausesMean(db: Db, c: Clauses, nullsLast: bool)
    requires Ordered(db) && Renderable(c) && Placed(c) && Assembled(c) && TermsSelected(c) &&
             (c.hasLimit ==> c.limit >= 1)
    ensures Result(db, QueryOf(c, nullsLast), LimitOf(c), OffsetOf(c)) ==
            Some(Outputs(Applied(db, c.(order := SortTerms(c, c.order)))))
  {
    var q, sortBy := QueryOf(c, nullsLast), SortTerms(c, c.order);
    QueryClauses(c, nullsLast);
    KeptAreContexts(db, c, nullsLast);
    AllSortable(db, c, q, nullsLast);
    ChainOutputs(db, c, q, sortBy);
    StatementOutputs(db, c, q, nullsLast);
    JoinsExposed(c, nullsLast);
    LimitAgrees(db, c.(order := sortBy), q);
  }

  lemma {:induction false} FlattenedLimit(e: Expr)
    requires FlattenInput(e).Ok?
    ensures FlattenInput(e).value.hasLimit ==> FlattenInput(e).value.limit >= 1
  {
    match e
    case Scan(_, _) =>
    case Select(input, _) => FlattenedLimit(input);
    case Project(input, _) => FlattenedLimit(input);
    case Aggregate(input, _, _) => FlattenedLimit(input);
    case Having(input, _) => FlattenedLimit(input);
    case Sort(input, _) => FlattenedLimit(input);
    case Limit(input, _, _) =>
    case Distinct(input) => FlattenedLimit(input);
    case Join(input, _, _, _, _) => FlattenedLimit(input);
  }

  /** A read chain that flattens, its names placed, returns, as the one SELECT it
      renders as, the rows it means node by node, in order, when each order term
      is taken for the field ORDER BY takes it for: for every database and
      dialect. */
  lemma SelectMeans(db: Db, e: Expr, nullsLast: bool)
    requires Ordered(db) && FlattenInput(e).Ok? && Shaped(e)
    requires var c := FlattenInput(e).value; Renderable(c) && Placed(c) && TermsSelected(c)
    ensures var c := FlattenInput(e).value;
            Result(db, QueryOf(c, nullsLast), LimitOf(c), OffsetOf(c)) ==
            Some(Outputs(Applied(db, c.(order := SortTerms(c, c.order)))))
  {
    FlattenedLimit(e);
    FlattenedNames(e);
    ClausesMean(db, FlattenInput(e).value, nullsLast);
  }

  /** A read chain that flattens without ambiguity returns, as the one SELECT it
      renders as, the rows it means node by node, in order: for every database
      and dialect. */
  lemma SelectKeepsMeaning(db: Db, e: Expr, nullsLast: bool)
    requires Ordered(db) && FlattenInput(e).Ok? && Shaped(e)
    requires Renderable(FlattenInput(e).value) && Unambiguous(FlattenInput(e).value)
    ensures var c := FlattenInput(e).value;
            Result(db, QueryOf(c, nullsLast), LimitOf(c), OffsetOf(c)) == Some(Outputs(Eval(db, e)))
  {
    FlattenedNames(e);
    SelectMeans(db, e, nullsLast);
    OrderKeptShows(db, FlattenInput(e).value);
    FlattenKeepsMeaning(db, e);
  }
}
