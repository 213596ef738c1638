/** ORDER BY, DISTINCT and LIMIT come after the select list in SQL and before
    or after it in the chain: the rows are the same, in the same order. */
module SelectOrder {
  import opened Lists
  import opened Relalg
  import opened SqlSelect
  import opened Flatten
  import opened Resolve
  import opened SelectCorrect
  import opened SelectGroups

  /** The database orders its values totally, 0 before 1. */
  ghost predicate Ordered(db: Db) {
    TotalOrder(db.le) && db.le(Num(0.0), Num(1.0)) && !db.le(Num(1.0), Num(0.0))
  }

  // --- the pairs of a chain ---

  lemma PairsAreGroupedRows(db: Db, c: Clauses)
    ensures Map(RecOf(), Pairs(db, c)) == GroupedRows(db, c)
  {
    if Aggregates(c) {
      MapCompose(GroupPair(db, c), RecOf(), GroupRecord(db, c.groupBy, c.aggregates), Groups(c.groupBy, Source(db, c)));
    } else {
      var rs := Source(db, c);
      var identity := (r: Record) => r;
      MapCompose(RowPair(FromAlias(c)), RecOf(), identity, rs);
      assert Map(identity, rs) == rs;
    }
  }

  lemma QueryClauses(c: Clauses, nullsLast: bool)
    requires Renderable(c)
    ensures var q := QueryOf(c, nullsLast);
            Grouping(q, c) && q.list == ListOf(c) && q.distinct == c.distinct &&
            q.orderBy == SortItems(NamesOf(c), c.aggregates, nullsLast, c.order) &&
            q.having == Resolved(NamesOf(c), c.aggregates, c.having, ResolvedAll(NamesOf(c), [], c.wheres, 0).1).0
  {
  }

  lemma GroupedAgrees(c: Clauses, q: Query)
    requires Grouping(q, c) && q.list == ListOf(c)
    ensures Grouped(q) == Aggregates(c)
  {
    if c.groupBy == [] && c.aggregates != [] {
      assert q.list.items[0].column.CallOf?;
    }
  }

  lemma PairsAreContexts(db: Db, c: Clauses, q: Query)
    requires Grouping(q, c) && q.list == ListOf(c) && NamesSound(c)
    requires WhereRows(db, q) == Map(Framed(FromAlias(c)), Source(db, c))
    ensures Map(CtxOf(), Pairs(db, c)) == Contexts(db, q)
  {
    var rs, from := Source(db, c), FromAlias(c);
    GroupedAgrees(c, q);
    if Aggregates(c) {
      assert AllJoined(c, rs) by {
        forall r | r in rs ensures EachJoined(NamesOf(c), FromAlias(c), r.env) {
          SourceJoined(db, c, r);
        }
      }
      GroupsAgree(db, c, q, rs);
      var gs := Groups(c.groupBy, rs);
      assert Map(CtxOf(), Map(GroupPair(db, c), gs)) == Map(OfGroup(), Map(FramedAll(from), gs));
    } else {
      assert Map(CtxOf(), Map(RowPair(from), rs)) == Map(OfRow(), Map(Framed(from), rs));
    }
  }

  /** z shows what the statement sees of its row under every name it may use. */
  ghost predicate Shows(db: Db, c: Clauses, q: Query, z: Paired) {
    && (forall name :: (if Aggregates(c) then OutputName(c, name) else Clear(Aliases(c.joins), name)) ==>
          Lookup(z.rec.env, name) == ColumnValue(db, FromAlias(c), z.ctx, OutputColumn(NamesOf(c), c.aggregates, name)))
    && (Aggregates(c) ==> z.rec.env.joined == map[])
    && (c.cols == [] ==> z.rec.out == SelectOut(db, q, z.ctx))
  }

  lemma RowShows(db: Db, c: Clauses, q: Query, r: Record)
    requires !Aggregates(c) && SourceRecord(c.joins, r) && EachJoined(NamesOf(c), FromAlias(c), r.env)
    requires q.alias == FromAlias(c) && q.list == ListOf(c)
    ensures Shows(db, c, q, RowPair(FromAlias(c))(r))
  {
    var z := RowPair(FromAlias(c))(r);
    forall name | Clear(Aliases(c.joins), name)
      ensures Lookup(z.rec.env, name) ==
              ColumnValue(db, FromAlias(c), z.ctx, OutputColumn(NamesOf(c), c.aggregates, name))
    {
      LookupResolved(NamesOf(c), FromAlias(c), r.env, name);
    }
  }

  lemma GroupShows(db: Db, c: Clauses, q: Query, g: seq<Record>)
    requires Aggregates(c) && AllJoined(c, g) && (c.groupBy != [] ==> g != [])
    requires q.alias == FromAlias(c) && q.list == ListOf(c)
    ensures Shows(db, c, q, GroupPair(db, c)(g))
  {
    var z := GroupPair(db, c)(g);
    forall name | OutputName(c, name)
      ensures Lookup(z.rec.env, name) ==
              ColumnValue(db, FromAlias(c), z.ctx, OutputColumn(NamesOf(c), c.aggregates, name))
    {
      GroupNameAgrees(db, c, g, name);
    }
    GroupOutAgrees(db, c, q, g);
  }

  lemma PairShows(db: Db, c: Clauses, q: Query, z: Paired)
    requires NamesSound(c) && z in Pairs(db, c)
    requires q.alias == FromAlias(c) && q.list == ListOf(c)
    ensures Shows(db, c, q, z)
  {
    var rs := Source(db, c);
    if Aggregates(c) {
      var gs := Groups(c.groupBy, rs);
      var i :| 0 <= i < |gs| && z == GroupPair(db, c)(gs[i]);
      assert gs[i] in gs;
      GroupMembers(c, rs, gs[i]);
      forall r: Record | r in gs[i] ensures EachJoined(NamesOf(c), FromAlias(c), r.env) {
        SourceJoined(db, c, r);
      }
      GroupShows(db, c, q, gs[i]);
    } else {
      var i :| 0 <= i < |rs| && z == RowPair(FromAlias(c))(rs[i]);
      assert rs[i] in rs;
      SourceJoined(db, c, rs[i]);
      RowShows(db, c, q, rs[i]);
    }
  }

  // --- HAVING ---

  ghost function KeptPairs(db: Db, c: Clauses): seq<Paired> {
    Filter(MeantKept(db, c), Pairs(db, c))
  }

  lemma KeptAreRows(db: Db, c: Clauses)
    ensures Map(RecOf(), KeptPairs(db, c)) == KeptRows(db, c)
  {
    PairsAreGroupedRows(db, c);
    FilterOfMap(RecOf(), MeantKept(db, c), Satisfying(db, c.having), Pairs(db, c));
    if c.having.Nil? {
      FilterAll(Satisfying(db, c.having), GroupedRows(db, c));
    }
  }

  /** The statement evaluates HAVING on the pairs. */
  lemma ContextsAgree(db: Db, c: Clauses, nullsLast: bool)
    requires NamesSound(c) && UncapturedAll(NamesOf(c), c.wheres, 0) && Renderable(c)
    ensures Map(CtxOf(), Pairs(db, c)) == Contexts(db, QueryOf(c, nullsLast))
  {
    QueryClauses(c, nullsLast);
    WhereAgrees(db, c, nullsLast);
    PairsAreContexts(db, c, QueryOf(c, nullsLast));
  }

  lemma HavingOf(c: Clauses, nullsLast: bool)
    requires Renderable(c)
    ensures QueryOf(c, nullsLast).having == Resolved(NamesOf(c), c.aggregates, c.having, NestingsAll(c.wheres)).0
  {
    QueryClauses(c, nullsLast);
    ResolvedCountAll(NamesOf(c), [], c.wheres, 0);
  }

  ghost function MeantKept(db: Db, c: Clauses): Paired -> bool {
    (z: Paired) => Meaning(db, z.rec.env, c.having) == True
  }

  lemma KeepsAgrees(db: Db, c: Clauses, q: Query, z: Paired)
    requires z in Pairs(db, c) && Placed(c) && Assembled(c) && Renderable(c) && q.alias == FromAlias(c) &&
             q.list == ListOf(c)
    requires q.having == Resolved(NamesOf(c), c.aggregates, c.having, NestingsAll(c.wheres)).0
    ensures Keeps(db, q.alias, q.having)(z.ctx) == MeantKept(db, c)(z)
  {
    hide JoinsInScope, Contexts, UncapturedAll;
    PairShows(db, c, q, z);
    if Aggregates(c) {
      if OutputNames(c, c.having, NestingsAll(c.wheres)) {
        HavingMeans(db, c, z, c.having, NestingsAll(c.wheres));
      } else {
        var column := OutputColumn(NamesOf(c), c.aggregates, c.having.field);
        BlindSame(db, c.having.op, c.having.operand, ColumnValue(db, q.alias, z.ctx, column),
            Lookup(z.rec.env, c.having.field));
      }
    }
  }

  lemma OnlyNulls(db: Db, v: Value, ws: seq<Value>)
    requires forall i :: 0 <= i < |ws| ==> ws[i].Null?
    ensures InList(db, v, ws) != True
  {
    OrAllTrue(Map(w => Compare(db, Eq, v, w), ws));
  }

  lemma SomeNull(db: Db, v: Value, ws: seq<Value>, i: nat)
    requires i < |ws| && ws[i].Null?
    ensures InList(db, v, ws) != False
  {
    OrAllFalse(Map(w => Compare(db, Eq, v, w), ws), i);
  }

  lemma {:induction false} OrAllFalse(ts: seq<Truth>, i: nat)
    requires i < |ts| && ts[i] != False
    ensures OrAll(ts) != False
  {
    if i > 0 {
      OrAllFalse(ts[1..], i - 1);
    }
  }

  /** A condition that is true of all or none does not tell two values apart. */
  lemma BlindSame(db: Db, op: Op, operand: Operand, v: Value, w: Value)
    requires Blind(op, operand)
    ensures ConditionTruth(db, v, op, operand) == True <==> ConditionTruth(db, w, op, operand) == True
  {
    if op.In? && operand.List? {
      OnlyNulls(db, v, operand.values);
      OnlyNulls(db, w, operand.values);
    } else if op.NotIn? && operand.List? && operand.values != [] {
      var i :| 0 <= i < |operand.values| && operand.values[i].Null?;
      SomeNull(db, v, operand.values, i);
      SomeNull(db, w, operand.values, i);
    }
  }

  lemma KeptAreContexts(db: Db, c: Clauses, nullsLast: bool)
    requires Placed(c) && Assembled(c) && Renderable(c)
    ensures Map(CtxOf(), KeptPairs(db, c)) == HavingRows(db, QueryOf(c, nullsLast))
  {
    var q := QueryOf(c, nullsLast);
    QueryClauses(c, nullsLast);
    HavingOf(c, nullsLast);
    ContextsAgree(db, c, nullsLast);
    forall z | z in Pairs(db, c) ensures Keeps(db, q.alias, q.having)(CtxOf()(z)) == MeantKept(db, c)(z) {
      KeepsAgrees(db, c, q, z);
    }
    FilterOfMap(CtxOf(), MeantKept(db, c), Keeps(db, q.alias, q.having), Pairs(db, c));
  }
}
