/** A statement that reads back without needless parentheses, its WHERE in one
    predicate, has the same result. */
module ReadMeaning {
  import opened Lists
  import opened Relalg
  import opened SqlSelect
  import opened Parsing
  import opened Statement
  import opened StatementRoundTrip

  // --- FROM and WHERE ---

  lemma JoinReadMeans(db: Db, from: string, j: SqlJoin, frames: Frames)
    ensures SqlJoinRow(db, from, ReadJoin(j))(frames) == SqlJoinRow(db, from, j)(frames)
  {
    forall row ensures SqlMatching(db, from, ReadJoin(j), frames)(row) == SqlMatching(db, from, j, frames)(row) {
      UnwrappedMeans(db, from, Extend(RowCtx(frames), j.alias, row), j.pred);
    }
    FilterCong(SqlMatching(db, from, ReadJoin(j), frames), SqlMatching(db, from, j, frames), db.table(j.right));
  }

  lemma JoinedRead(db: Db, from: string, j: SqlJoin, rows: seq<Frames>)
    ensures FlatMap(SqlJoinRow(db, from, ReadJoin(j)), rows) == FlatMap(SqlJoinRow(db, from, j), rows)
  {
    forall m | m in rows ensures SqlJoinRow(db, from, ReadJoin(j))(m) == SqlJoinRow(db, from, j)(m) {
      JoinReadMeans(db, from, j, m);
    }
    FlatMapCong(SqlJoinRow(db, from, ReadJoin(j)), SqlJoinRow(db, from, j), rows);
  }

  lemma {:induction false} FromRowsRead(db: Db, r: Query, q: Query, n: nat)
    requires r.relation == q.relation && r.alias == q.alias && n <= |q.joins| == |r.joins|
    requires forall i :: 0 <= i < n ==> r.joins[i] == ReadJoin(q.joins[i])
    ensures FromRows(db, r, n) == FromRows(db, q, n)
  {
    hide FromRows;
    if n == 0 {
      FromNoJoins(db, r, q);
    } else {
      assert r.joins[n-1] == ReadJoin(q.joins[n-1]);
      FromRowsRead(db, r, q, n - 1);
      FromRowsStep(db, r, q, n);
    }
  }

  lemma FromNoJoins(db: Db, r: Query, q: Query)
    requires r.relation == q.relation && r.alias == q.alias
    ensures FromRows(db, r, 0) == FromRows(db, q, 0)
  {
  }

  lemma FromRowsStep(db: Db, r: Query, q: Query, n: nat)
    requires 0 < n <= |q.joins| == |r.joins| && r.alias == q.alias && r.joins[n-1] == ReadJoin(q.joins[n-1])
    requires FromRows(db, r, n - 1) == FromRows(db, q, n - 1)
    ensures FromRows(db, r, n) == FromRows(db, q, n)
  {
    JoinedRead(db, q.alias, q.joins[n-1], FromRows(db, q, n - 1));
  }

  lemma WhereReadMeans(db: Db, from: string, ctx: Ctx, q: Query)
    ensures Truth3(db, from, ctx, SqlAnd(ReadQuery(q).where)) == Truth3(db, from, ctx, SqlAnd(q.where))
  {
    var where := WherePredicate(q.where);
    if |q.where| == 1 {
      assert q.where == [q.where[0]];
      AndOne(db, from, ctx, q.where[0]);
    }
    if !where.SqlNil? {
      UnwrappedMeans(db, from, ctx, where);
      AndOne(db, from, ctx, Unwrapped(where));
    }
  }

  lemma WhereRowsRead(db: Db, q: Query)
    ensures WhereRows(db, ReadQuery(q)) == WhereRows(db, q)
  {
    var r := ReadQuery(q);
    FromRowsRead(db, r, q, |q.joins|);
    forall m ensures TrueOn(db, q.alias, SqlAnd(r.where))(m) == TrueOn(db, q.alias, SqlAnd(q.where))(m) {
      WhereReadMeans(db, q.alias, RowCtx(m), q);
    }
    FilterCong(TrueOn(db, q.alias, SqlAnd(r.where)), TrueOn(db, q.alias, SqlAnd(q.where)), FromRows(db, q, |q.joins|));
  }

  // --- GROUP BY and HAVING ---

  lemma SqlGroupsRead(db: Db, q: Query, rows: seq<Frames>)
    ensures SqlGroups(db, ReadQuery(q), rows) == SqlGroups(db, q, rows)
  {
    var r := ReadQuery(q);
    DedupCong(SqlKeyOf(db, r), SqlKeyOf(db, q), rows);
    forall m ensures SqlGroupOf(db, r, rows)(m) == SqlGroupOf(db, q, rows)(m) {
      var key := SqlKeyOf(db, q)(m);
      FilterCong(SqlInGroup(db, r, key), SqlInGroup(db, q, key), rows);
    }
  }

  lemma HavingRowsRead(db: Db, q: Query)
    ensures HavingRows(db, ReadQuery(q)) == HavingRows(db, q)
  {
    var r := ReadQuery(q);
    WhereRowsRead(db, q);
    StatementGroups(db, q);
    forall ctx ensures Keeps(db, q.alias, r.having)(ctx) == Keeps(db, q.alias, q.having)(ctx) {
      UnwrappedMeans(db, q.alias, ctx, q.having);
    }
    FilterCong(Keeps(db, q.alias, r.having), Keeps(db, q.alias, q.having), Contexts(db, q));
  }

  lemma StatementGroups(db: Db, q: Query)
    requires WhereRows(db, ReadQuery(q)) == WhereRows(db, q)
    ensures Contexts(db, ReadQuery(q)) == Contexts(db, q)
  {
    SqlGroupsRead(db, q, WhereRows(db, q));
  }

  // --- the select list and ORDER BY ---

  /** The two select, order and name their rows alike. */
  predicate SelectsAlike(r: Query, q: Query) {
    r.alias == q.alias && r.list == q.list && r.distinct == q.distinct && r.orderBy == q.orderBy
  }

  lemma SelectedAlike(db: Db, r: Query, q: Query, ctxs: seq<Ctx>)
    requires SelectsAlike(r, q)
    ensures Map(Selecting(db, r), ctxs) == Map(Selecting(db, q), ctxs)
  {
  }

  lemma SelectedRowsAlike(db: Db, r: Query, q: Query)
    requires SelectsAlike(r, q) && HavingRows(db, r) == HavingRows(db, q)
    ensures SelectedRows(db, r) == SelectedRows(db, q)
  {
    SelectedAlike(db, r, q, HavingRows(db, q));
  }

  lemma OrderValueAlike(db: Db, r: Query, q: Query, s: Selected, c: Column)
    requires SelectsAlike(r, q)
    ensures OrderValue(db, r, s, c) == OrderValue(db, q, s, c)
  {
  }

  lemma {:induction false} ItemsLeAlike(db: Db, r: Query, q: Query, items: seq<SortItem>, s: Selected, t: Selected)
    requires SelectsAlike(r, q)
    ensures ItemsLe(db, r, items, s, t) == ItemsLe(db, q, items, s, t)
  {
    if items != [] {
      OrderValueAlike(db, r, q, s, items[0].column);
      OrderValueAlike(db, r, q, t, items[0].column);
      ItemsLeAlike(db, r, q, items[1..], s, t);
    }
  }

  lemma OutputsAlike(db: Db, r: Query, q: Query)
    requires SelectsAlike(r, q) && SelectedRows(db, r) == SelectedRows(db, q)
    ensures SelectedOutputs(db, r) == SelectedOutputs(db, q)
  {
    forall s, t ensures SqlOrdering(db, r)(s, t) == SqlOrdering(db, q)(s, t) {
      ItemsLeAlike(db, r, q, q.orderBy, s, t);
    }
    SortCong(SqlOrdering(db, r), SqlOrdering(db, q), SelectedRows(db, q));
  }

  lemma SortableAlike(db: Db, r: Query, q: Query)
    requires SelectsAlike(r, q) && SelectedRows(db, r) == SelectedRows(db, q)
    ensures Sortable(db, r) <==> Sortable(db, q)
  {
    forall s ensures Orderable(db, r, s) <==> Orderable(db, q, s) {
      OrderableAlike(db, r, q, s);
    }
  }

  lemma OrderableAlike(db: Db, r: Query, q: Query, s: Selected)
    requires SelectsAlike(r, q)
    ensures Orderable(db, r, s) <==> Orderable(db, q, s)
  {
    forall c ensures OrderValue(db, r, s, c) == OrderValue(db, q, s, c) {
      OrderValueAlike(db, r, q, s, c);
    }
  }

  lemma ExposedRead(q: Query)
    ensures Exposed(ReadQuery(q)) <==> Exposed(q)
  {
    var r := ReadQuery(q);
    assert forall i :: 0 <= i < |q.joins| ==> r.joins[i].alias == q.joins[i].alias;
  }

  lemma CutRead<A>(xs: seq<A>, limit: int, offset: int)
    ensures Cut(xs, ReadLimit(limit), ReadOffset(limit, offset)) == Cut(xs, limit, offset)
  {
  }

  /** On every database the statement read back has the result of the one
      printed. */
  lemma ReadBackMeans(db: Db, q: Query, limit: int, offset: int)
    ensures Result(db, ReadQuery(q), ReadLimit(limit), ReadOffset(limit, offset)) == Result(db, q, limit, offset)
  {
    HavingRowsRead(db, q);
    SelectedRowsAlike(db, ReadQuery(q), q);
    OutputsAlike(db, ReadQuery(q), q);
    SortableAlike(db, ReadQuery(q), q);
    ExposedRead(q);
    CutRead(SelectedOutputs(db, q), limit, offset);
  }
}
