/** GROUP BY and HAVING: the groups of the statement are the groups of the
    chain, and a name above an aggregate is the column or call it is written as. */
module SelectGroups {
  import opened Lists
  import opened Relalg
  import opened SqlSelect
  import opened Flatten
  import opened Resolve
  import opened SelectCorrect

  /** A row of the chain beside what the statement evaluates for it. */
  datatype Paired = Paired(rec: Record, ctx: Ctx)

  function RecOf(): Paired -> Record {
    (z: Paired) => z.rec
  }

  function CtxOf(): Paired -> Ctx {
    (z: Paired) => z.ctx
  }

  ghost function FramedAll(from: string): seq<Record> -> seq<Frames> {
    (g: seq<Record>) => Map(Framed(from), g)
  }

  ghost function RowPair(from: string): Record -> Paired {
    (r: Record) => Paired(r, RowCtx(FramesOf(from, r.env)))
  }

  ghost function GroupPair(db: Db, c: Clauses): seq<Record> -> Paired {
    (g: seq<Record>) =>
      Paired(RecordOfGroup(db, c.groupBy, c.aggregates, g), GroupCtx(Map(Framed(FromAlias(c)), g)))
  }

  ghost function Pairs(db: Db, c: Clauses): seq<Paired> {
    if Aggregates(c) then Map(GroupPair(db, c), Groups(c.groupBy, Source(db, c)))
    else Map(RowPair(FromAlias(c)), Source(db, c))
  }

  // --- groups ---

  ghost predicate AllJoined(c: Clauses, rs: seq<Record>) {
    GroupsClear(c) && forall r :: r in rs ==> EachJoined(NamesOf(c), FromAlias(c), r.env)
  }

  /** q groups c's rows as c does. */
  predicate Grouping(q: Query, c: Clauses) {
    q.alias == FromAlias(c) && q.groupBy == GroupColumns(NamesOf(c), c.groupBy)
  }

  lemma KeyAgrees(db: Db, c: Clauses, q: Query, r: Record)
    requires Grouping(q, c) && GroupsClear(c) && EachJoined(NamesOf(c), FromAlias(c), r.env)
    ensures SqlKeyOf(db, q)(Framed(q.alias)(r)) == KeyOf(c.groupBy)(r)
  {
    forall i | 0 <= i < |c.groupBy|
      ensures ColumnValue(db, q.alias, RowCtx(FramesOf(q.alias, r.env)), Col(NamesOf(c), c.groupBy[i])) ==
              Lookup(r.env, c.groupBy[i])
    {
      LookupResolved(NamesOf(c), q.alias, r.env, c.groupBy[i]);
    }
  }

  lemma InGroupAgrees(db: Db, c: Clauses, q: Query, key: seq<Value>, r: Record)
    requires Grouping(q, c) && GroupsClear(c) && EachJoined(NamesOf(c), FromAlias(c), r.env)
    ensures SqlInGroup(db, q, key)(Framed(q.alias)(r)) == InGroup(c.groupBy, key)(r)
  {
    KeyAgrees(db, c, q, r);
  }

  lemma GroupOfAgrees(db: Db, c: Clauses, q: Query, rs: seq<Record>, first: Record)
    requires Grouping(q, c) && AllJoined(c, rs) && first in rs
    ensures SqlGroupOf(db, q, Map(Framed(q.alias), rs))(Framed(q.alias)(first)) ==
            Map(Framed(q.alias), GroupOf(c.groupBy, rs)(first))
  {
    var key := Lookups(first.env, c.groupBy);
    KeyAgrees(db, c, q, first);
    forall r | r in rs ensures SqlInGroup(db, q, key)(Framed(q.alias)(r)) == InGroup(c.groupBy, key)(r) {
      InGroupAgrees(db, c, q, key, r);
    }
    FilterOfMap(Framed(q.alias), InGroup(c.groupBy, key), SqlInGroup(db, q, key), rs);
  }

  lemma GroupsAgree(db: Db, c: Clauses, q: Query, rs: seq<Record>)
    requires Grouping(q, c) && AllJoined(c, rs)
    ensures SqlGroups(db, q, Map(Framed(q.alias), rs)) == Map(FramedAll(q.alias), Groups(c.groupBy, rs))
  {
    var frames := Map(Framed(q.alias), rs);
    if c.groupBy == [] {
      assert Map(FramedAll(q.alias), [rs]) == [frames];
    } else {
      forall r | r in rs ensures SqlKeyOf(db, q)(Framed(q.alias)(r)) == KeyOf(c.groupBy)(r) {
        KeyAgrees(db, c, q, r);
      }
      DedupOfMap(Framed(q.alias), SqlKeyOf(db, q), KeyOf(c.groupBy), rs);
      var firsts := Dedup(KeyOf(c.groupBy), rs);
      DedupMembers(KeyOf(c.groupBy), rs);
      var framed := Map(Framed(q.alias), firsts);
      forall i | 0 <= i < |firsts|
        ensures SqlGroupOf(db, q, frames)(framed[i]) == FramedAll(q.alias)(GroupOf(c.groupBy, rs)(firsts[i]))
      {
        GroupOfAgrees(db, c, q, rs, firsts[i]);
      }
    }
  }

  /** The members of a group are rows with its key; only a read without a
      group-by has an empty one. */
  lemma GroupMembers(c: Clauses, rs: seq<Record>, g: seq<Record>)
    requires g in Groups(c.groupBy, rs)
    ensures forall r :: r in g ==> r in rs
    ensures c.groupBy != [] ==> g != []
  {
    if c.groupBy != [] {
      var firsts := Dedup(KeyOf(c.groupBy), rs);
      var i :| 0 <= i < |firsts| && g == GroupOf(c.groupBy, rs)(firsts[i]);
      DedupMembers(KeyOf(c.groupBy), rs);
      assert InGroup(c.groupBy, Lookups(firsts[i].env, c.groupBy))(firsts[i]);
      assert firsts[i] in g;
    }
  }

  // --- names above an aggregate ---

  lemma {:induction false} GroupRowGet(
    groupBy: seq<string>, key: seq<Value>, cs: seq<AggCall>, vs: seq<Value>, name: string)
    requires |key| == |groupBy| && |vs| == |cs|
    ensures var row := GroupRow(groupBy, key, cs, vs);
            if Named(cs, name) >= 0 then Get(row, name) == vs[Named(cs, name)]
            else name in groupBy ==> exists i :: 0 <= i < |groupBy| && groupBy[i] == name && Get(row, name) == key[i]
    decreases |cs|, |groupBy|
  {
    if cs != [] {
      GroupRowGet(groupBy, key, cs[..|cs|-1], vs[..|vs|-1], name);
    } else if groupBy != [] {
      var n := |groupBy| - 1;
      GroupRowGet(groupBy[..n], key[..n], [], [], name);
      if groupBy[n] != name && name in groupBy {
        assert name in groupBy[..n];
        var i :| 0 <= i < n && groupBy[..n][i] == name &&
                 Get(GroupRow(groupBy[..n], key[..n], [], []), name) == key[..n][i];
        assert groupBy[i] == name;
      }
    }
  }

  lemma CallAgrees(db: Db, c: Clauses, a: AggCall, g: seq<Record>)
    requires AllJoined(c, g) && Clear(Aliases(c.joins), a.field)
    ensures ColumnValue(db, FromAlias(c), GroupCtx(Map(Framed(FromAlias(c)), g)), CallColumn(NamesOf(c), a)) ==
            CallValue(db, a, g)
  {
    var from, ns := FromAlias(c), NamesOf(c);
    var col := CallColumn(ns, a);
    var member := MemberValue(from, col.star, col.qualifier, col.name);
    forall r | r in g ensures member(Framed(from)(r)) == FieldOf(a.field)(r) {
      if a.field != "" {
        LookupResolved(ns, from, r.env, a.field);
      }
    }
    MapCompose(Framed(from), member, FieldOf(a.field), g);
  }

  lemma GroupFieldAgrees(db: Db, c: Clauses, g: seq<Record>, name: string)
    requires AllJoined(c, g) && g != [] && Clear(Aliases(c.joins), name)
    ensures ColumnValue(db, FromAlias(c), GroupCtx(Map(Framed(FromAlias(c)), g)), Col(NamesOf(c), name)) ==
            Lookup(g[0].env, name)
  {
    assert g[0] in g;
    LookupResolved(NamesOf(c), FromAlias(c), g[0].env, name);
  }

  lemma GroupNameAgrees(db: Db, c: Clauses, g: seq<Record>, name: string)
    requires AllJoined(c, g) && (c.groupBy != [] ==> g != []) && OutputName(c, name)
    ensures Lookup(GroupPair(db, c)(g).rec.env, name) ==
            ColumnValue(db, FromAlias(c), GroupPair(db, c)(g).ctx, OutputColumn(NamesOf(c), c.aggregates, name))
  {
    var key, vs := GroupKey(c.groupBy, g), CallValues(db, c.aggregates, g);
    GroupRowGet(c.groupBy, key, c.aggregates, vs, name);
    var i := Named(c.aggregates, name);
    assert Lookup(GroupPair(db, c)(g).rec.env, name) == Get(GroupRow(c.groupBy, key, c.aggregates, vs), name);
    if i >= 0 {
      CallAgrees(db, c, c.aggregates[i], g);
    } else {
      GroupFieldAgrees(db, c, g, name);
    }
  }

  function CallColumns(ns: Names, cs: seq<AggCall>): (columns: seq<Column>)
    ensures |columns| == |cs| && forall i :: 0 <= i < |cs| ==> columns[i] == CallColumn(ns, cs[i])
  {
    if cs == [] then [] else [CallColumn(ns, cs[0])] + CallColumns(ns, cs[1..])
  }

  lemma AggregateItems(ns: Names, groupBy: seq<string>, cs: seq<AggCall>)
    ensures ItemColumns(AggregateColumns(ns, groupBy, cs)) == GroupColumns(ns, groupBy) + CallColumns(ns, cs)
  {
  }

  lemma {:induction false} ColumnValuesConcat(db: Db, from: string, ctx: Ctx, cs: seq<Column>, ds: seq<Column>)
    ensures ColumnValues(db, from, ctx, cs + ds) == ColumnValues(db, from, ctx, cs) + ColumnValues(db, from, ctx, ds)
  {
  }

  lemma KeyValuesAgree(db: Db, c: Clauses, g: seq<Record>)
    requires AllJoined(c, g) && (c.groupBy != [] ==> g != [])
    ensures ColumnValues(db, FromAlias(c), GroupCtx(Map(Framed(FromAlias(c)), g)),
            GroupColumns(NamesOf(c), c.groupBy)) ==
            GroupKey(c.groupBy, g)
  {
    var ctx, columns := GroupCtx(Map(Framed(FromAlias(c)), g)), GroupColumns(NamesOf(c), c.groupBy);
    forall i | 0 <= i < |c.groupBy|
      ensures ColumnValue(db, FromAlias(c), ctx, columns[i]) == GroupKey(c.groupBy, g)[i]
    {
      GroupFieldAgrees(db, c, g, c.groupBy[i]);
    }
  }

  lemma CallValuesAgree(db: Db, c: Clauses, g: seq<Record>)
    requires AllJoined(c, g)
    ensures ColumnValues(db, FromAlias(c), GroupCtx(Map(Framed(FromAlias(c)), g)),
            CallColumns(NamesOf(c), c.aggregates)) ==
            CallValues(db, c.aggregates, g)
  {
    var ctx, columns := GroupCtx(Map(Framed(FromAlias(c)), g)), CallColumns(NamesOf(c), c.aggregates);
    forall i | 0 <= i < |c.aggregates|
      ensures ColumnValue(db, FromAlias(c), ctx, columns[i]) == CallValue(db, c.aggregates[i], g)
    {
      CallAgrees(db, c, c.aggregates[i], g);
    }
  }

  lemma GroupValuesAgree(db: Db, c: Clauses, g: seq<Record>)
    requires AllJoined(c, g) && (c.groupBy != [] ==> g != [])
    ensures GroupKey(c.groupBy, g) + CallValues(db, c.aggregates, g) ==
            ColumnValues(db, FromAlias(c), GroupCtx(Map(Framed(FromAlias(c)), g)),
                         ItemColumns(AggregateColumns(NamesOf(c), c.groupBy, c.aggregates)))
  {
    var ctx, ns := GroupCtx(Map(Framed(FromAlias(c)), g)), NamesOf(c);
    AggregateItems(ns, c.groupBy, c.aggregates);
    ColumnValuesConcat(db, FromAlias(c), ctx, GroupColumns(ns, c.groupBy), CallColumns(ns, c.aggregates));
    KeyValuesAgree(db, c, g);
    CallValuesAgree(db, c, g);
  }

  lemma GroupOutAgrees(db: Db, c: Clauses, q: Query, g: seq<Record>)
    requires AllJoined(c, g) && (c.groupBy != [] ==> g != [])
    requires q.alias == FromAlias(c) && q.list == Items(AggregateColumns(NamesOf(c), c.groupBy, c.aggregates))
    ensures GroupPair(db, c)(g).rec.out == SelectOut(db, q, GroupPair(db, c)(g).ctx)
  {
    GroupValuesAgree(db, c, g);
  }

  /** Two groups with the same key are one. */
  lemma SameGroup(db: Db, c: Clauses, z: Paired, w: Paired, g: seq<Record>, h: seq<Record>)
    requires Aggregates(c) && z == GroupPair(db, c)(g) && w == GroupPair(db, c)(h)
    requires g in Groups(c.groupBy, Source(db, c)) && h in Groups(c.groupBy, Source(db, c))
    requires GroupKey(c.groupBy, g) == GroupKey(c.groupBy, h)
    ensures z == w
  {
    GroupOfKey(c, Source(db, c), g);
    GroupOfKey(c, Source(db, c), h);
  }

  lemma GroupOfKey(c: Clauses, rs: seq<Record>, g: seq<Record>)
    requires g in Groups(c.groupBy, rs)
    ensures g == if c.groupBy == [] then rs else Filter(InGroup(c.groupBy, GroupKey(c.groupBy, g)), rs)
  {
    if c.groupBy != [] {
      var firsts := Dedup(KeyOf(c.groupBy), rs);
      var i :| 0 <= i < |firsts| && g == GroupOf(c.groupBy, rs)(firsts[i]);
      DedupMembers(KeyOf(c.groupBy), rs);
      assert firsts[i] in g;
      assert g[0] in g && InGroup(c.groupBy, Lookups(firsts[i].env, c.groupBy))(g[0]);
    }
  }

  /** The value of a group-by field no call takes. */
  lemma GroupFieldValue(db: Db, c: Clauses, g: seq<Record>, k: nat)
    requires k < |c.groupBy| && Named(c.aggregates, c.groupBy[k]) < 0
    ensures Lookup(GroupPair(db, c)(g).rec.env, c.groupBy[k]) == GroupKey(c.groupBy, g)[k]
  {
    var key, vs, name := GroupKey(c.groupBy, g), CallValues(db, c.aggregates, g), c.groupBy[k];
    GroupRowGet(c.groupBy, key, c.aggregates, vs, name);
    var i :| 0 <= i < |c.groupBy| && c.groupBy[i] == name &&
        Get(GroupRow(c.groupBy, key, c.aggregates, vs), name) == key[i];
    assert key[i] == key[k];
  }

  // --- HAVING ---

  lemma {:induction false} HavingMeans(db: Db, c: Clauses, z: Paired, p: Predicate, k: nat)
    requires Flat(p) && OutputNames(c, p, k) && (HasExists(p) ==> NamesOf(c).root != "" && "" !in NamesOf(c).joins)
    requires forall name :: OutputName(c, name) ==>
      Lookup(z.rec.env, name) == ColumnValue(db, FromAlias(c), z.ctx, OutputColumn(NamesOf(c), c.aggregates, name))
    ensures Truth3(db, FromAlias(c), z.ctx, Resolved(NamesOf(c), c.aggregates, p, k).0) == Meaning(db, z.rec.env, p)
    decreases p, 1
  {
    match p
    case Nil =>
    case Condition(f, op, operand) =>
    case And(ps) => HavingMeanAll(db, c, z, ps, k);
    case Or(ps) => HavingMeanAll(db, c, z, ps, k);
    case Not(q) => HavingMeans(db, c, z, q, k);
    case Exists(relation, on, inner) => HavingExistsMeans(db, c, z, relation, on, inner, k);
  }

  /** The group an EXISTS in HAVING is asked of. */
  lemma HavingExistsMeans(
    db: Db, c: Clauses, z: Paired, relation: RelationRef, on: seq<JoinPair>, inner: Predicate, k: nat)
    requires !HasExists(inner) && NamesOf(c).root != "" && "" !in NamesOf(c).joins
    requires forall i :: 0 <= i < |on| ==> GroupField(c, on[i].left, k)
    requires forall name :: OutputName(c, name) ==>
      Lookup(z.rec.env, name) == ColumnValue(db, FromAlias(c), z.ctx, OutputColumn(NamesOf(c), c.aggregates, name))
    ensures var alias := ExistsAlias(k + 1);
            Truth3(db, FromAlias(c), z.ctx,
                SqlExists(relation, alias, OnPairs(NamesOf(c), on), Scoped(alias, inner))) ==
            Meaning(db, z.rec.env, Exists(relation, on, inner))
  {
    forall i | 0 <= i < |on|
      ensures ColumnValue(db, FromAlias(c), z.ctx, Col(NamesOf(c), on[i].left)) == Lookup(z.rec.env, on[i].left)
    {
      assert OutputName(c, on[i].left);
    }
    ExistsMeans(db, NamesOf(c), FromAlias(c), z.ctx, z.rec.env, relation, on, inner, k);
  }

  lemma {:induction false} HavingMeanAll(db: Db, c: Clauses, z: Paired, ps: seq<Predicate>, k: nat)
    requires FlatAll(ps) && OutputNamesAll(c, ps, k) &&
             (AnyExists(ps) ==> NamesOf(c).root != "" && "" !in NamesOf(c).joins)
    requires forall name :: OutputName(c, name) ==>
      Lookup(z.rec.env, name) == ColumnValue(db, FromAlias(c), z.ctx, OutputColumn(NamesOf(c), c.aggregates, name))
    ensures Truths(db, FromAlias(c), z.ctx, ResolvedAll(NamesOf(c), c.aggregates, ps, k).0) ==
            Meanings(db, z.rec.env, ps)
    decreases ps, 0
  {
    if ps != [] {
      var n := Resolved(NamesOf(c), c.aggregates, ps[0], k).1;
      ResolvedCount(NamesOf(c), c.aggregates, ps[0], k);
      assert forall i :: 0 < i < |ps| ==> ps[i] == ps[1..][i-1];
      HavingMeans(db, c, z, ps[0], k);
      HavingMeanAll(db, c, z, ps[1..], n);
      assert ResolvedAll(NamesOf(c), c.aggregates, ps, k).0[1..] ==
             ResolvedAll(NamesOf(c), c.aggregates, ps[1..], n).0;
    }
  }
}
