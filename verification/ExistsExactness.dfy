/** Where an EXISTS and its subquery part: the subquery's alias hides a relation
    of the same name, and in HAVING a column is not the call that takes its name.
    Nothing else of an EXISTS does. */
module ExistsExactness {
  import opened Lists
  import opened Relalg
  import opened SqlSelect
  import opened Flatten
  import opened Resolve
  import opened SelectCorrect
  import opened SelectGroups
  import opened SelectOrder
  import opened SelectMain
  import opened Witnesses
  import opened JoinExactness

  function Nothing(): Row {
    map[]
  }

  /** The subquery finds a row whose columns, and the outer ones it compares,
      are all 1. */
  lemma ExistsTrue(db: Db, from: string, ctx: Ctx, s: RelationRef, ns: Names, on: seq<JoinPair>, j: nat)
    requires j < |db.table(s)|
    requires forall i :: 0 <= i < |on| ==>
               && Get(db.table(s)[j], on[i].right) == Num(1.0)
               && ColumnValue(db, "", Inside(from, ctx, ExistsAlias(1), db.table(s)[j]), Col(ns, on[i].left)) ==
                  Num(1.0)
    ensures Truth3(db, from, ctx, Resolved(ns, [], Exists(s, on, Nil), 0).0) == True
  {
    var row := db.table(s)[j];
    assert OnPairsTrue(db, "", Inside(from, ctx, ExistsAlias(1), row), OnPairs(ns, on), row);
  }

  /** A column its own alias hides is the subquery's. */
  lemma HiddenColumn(db: Db, from: string, ctx: Ctx, row: Row, c: Column)
    requires c.Column? && c.qualifier == ExistsAlias(1)
    ensures ColumnValue(db, "", Inside(from, ctx, ExistsAlias(1), row), c) == Get(row, c.name)
  {
  }

  // --- a read of which only one side returns a row ---

  predicate Filtered(c: Clauses, p: Predicate) {
    && c == NO_CLAUSES.(relation := c.relation, scanAlias := c.scanAlias, joins := c.joins, wheres := [p], rank :=
       c.rank)
    && Flat(p)
  }

  lemma ChainFiltered(db: Db, c: Clauses, p: Predicate)
    requires Filtered(c, p)
    ensures Applied(db, c) == Filter(Satisfying(db, p), Sources(db, c, |c.joins|))
  {
    var rs := Sources(db, c, |c.joins|);
    assert c.joins[..|c.joins|] == c.joins;
    assert c.wheres == [p] && c.wheres[..0] == [];
    assert SelectRows(db, [], rs) == rs;
    assert SelectRows(db, c.wheres, rs) == Filter(Satisfying(db, p), rs);
  }

  lemma OutputsWithout(rs: seq<Record>, out: Output)
    requires forall r :: r in rs ==> r.out != out
    ensures out !in Outputs(rs)
  {
  }

  lemma ChainWithout(db: Db, c: Clauses, p: Predicate, row: Row)
    requires Filtered(c, p)
    requires forall r :: r in Sources(db, c, |c.joins|) && r.env.own == row ==> Meaning(db, r.env, p) != True
    ensures Output.Whole(row) !in Outputs(Applied(db, c))
  {
    ChainFiltered(db, c, p);
    forall r | r in Applied(db, c) ensures r.out != Output.Whole(row) {
      SourcesJoined(db, c, |c.joins|, r);
    }
    OutputsWithout(Applied(db, c), Output.Whole(row));
  }

  lemma KeptFrame(db: Db, q: Query, p: SqlPredicate, m: Frames)
    requires q.where == [p] && m in FromRows(db, q, |q.joins|) && Truth3(db, q.alias, RowCtx(m), p) == True
    ensures m in WhereRows(db, q)
  {
    AndOne(db, q.alias, RowCtx(m), p);
    assert TrueOn(db, q.alias, SqlAnd(q.where))(m);
  }

  predicate OnlyFilters(q: Query, p: SqlPredicate) {
    q.where == [p] && q.list.Star? && q.having.SqlNil? && !Grouped(q) && !q.distinct && q.orderBy == []
  }

  lemma StatementKeeps(db: Db, q: Query, p: SqlPredicate, m: Frames)
    requires OnlyFilters(q, p) && Exposed(q) && m in FromRows(db, q, |q.joins|) &&
             Truth3(db, q.alias, RowCtx(m), p) == True
    ensures var result := Result(db, q, 0, 0); result.Some? && Output.Whole(Frame(m, q.alias)) in result.value
  {
    KeptFrame(db, q, p, m);
    FilterAll(Keeps(db, q.alias, q.having), Contexts(db, q));
    FilteredOutput(db, q, m);
  }

  lemma StatementWith(db: Db, c: Clauses, q: Query, p: Predicate, r: Record)
    requires Filtered(c, p) && JoinsSound(c) && Renderable(c) && FromOf(q, c) && Exposed(q)
    requires OnlyFilters(q, Resolved(NamesOf(c), [], p, 0).0) && r in Sources(db, c, |c.joins|)
    requires Truth3(db, FromAlias(c), RowCtx(FramesOf(FromAlias(c), r.env)), Resolved(NamesOf(c), [], p, 0).0) == True
    ensures var result := Result(db, q, 0, 0); result.Some? && Output.Whole(r.env.own) in result.value
  {
    hide JoinsSound, FromRows, Sources;
    var rs, m := Sources(db, c, |c.joins|), FramesOf(FromAlias(c), r.env);
    FromAgrees(db, c, q, |c.joins|);
    assert m in Map(Framed(FromAlias(c)), rs) by {
      var i :| 0 <= i < |rs| && rs[i] == r;
      assert Map(Framed(FromAlias(c)), rs)[i] == m;
    }
    StatementKeeps(db, q, Resolved(NamesOf(c), [], p, 0).0, m);
  }

  lemma FilteredOutput(db: Db, q: Query, m: Frames)
    requires q.list.Star? && !Grouped(q) && !q.distinct && q.orderBy == [] && HavingRows(db, q) == Contexts(db, q) &&
             m in WhereRows(db, q)
    ensures Sortable(db, q) && Output.Whole(Frame(m, q.alias)) in SelectedOutputs(db, q)
  {
    var rows := WhereRows(db, q);
    var i :| 0 <= i < |rows| && rows[i] == m;
    assert SelectedOutputs(db, q)[i] == Output.Whole(Frame(m, q.alias));
  }

  /** A row the chain drops. */
  lemma ChainTells(db: Db, e: Expr, c: Clauses, p: Predicate, own: Row)
    requires FlattenInput(e) == Ok(c) && Shaped(e) && Filtered(c, p)
    requires forall x :: x in Sources(db, c, |c.joins|) && x.env.own == own ==> Meaning(db, x.env, p) != True
    ensures Output.Whole(own) !in Outputs(Eval(db, e))
  {
    hide Filtered, Sources, Outputs;
    FlattenKeepsMeaning(db, e);
    ChainWithout(db, c, p, own);
  }

  /** A row the statement keeps. */
  lemma StatementTells(db: Db, c: Clauses, p: Predicate, r: Record, nullsLast: bool)
    requires Filtered(c, p) && JoinsSound(c) && Renderable(c) && r in Sources(db, c, |c.joins|)
    requires Truth3(db, FromAlias(c), RowCtx(FramesOf(FromAlias(c), r.env)), Resolved(NamesOf(c), [], p, 0).0) == True
    ensures var result := Result(db, QueryOf(c, nullsLast), 0, 0);
                result.Some? && Output.Whole(r.env.own) in result.value
  {
    hide JoinsSound, Sources, Exposed, Result;
    var q := QueryOf(c, nullsLast);
    JoinsExposed(c, nullsLast);
    FilteredQuery(c, p, nullsLast);
    StatementWith(db, c, q, p, r);
  }

  lemma FilteredQuery(c: Clauses, p: Predicate, nullsLast: bool)
    requires Filtered(c, p) && Renderable(c)
    ensures FromOf(QueryOf(c, nullsLast), c) && OnlyFilters(QueryOf(c, nullsLast), Resolved(NamesOf(c), [], p, 0).0)
  {
    assert ResolvedAll(NamesOf(c), [], [p], 0).0 == [Resolved(NamesOf(c), [], p, 0).0];
  }

  /** A row the chain drops and the statement keeps. */
  lemma RowTells(db: Db, e: Expr, c: Clauses, p: Predicate, r: Record, nullsLast: bool)
    requires FlattenInput(e) == Ok(c) && Shaped(e) && Filtered(c, p) && JoinsSound(c) && Renderable(c)
    requires r in Sources(db, c, |c.joins|)
    requires forall x :: x in Sources(db, c, |c.joins|) && x.env.own == r.env.own ==> Meaning(db, x.env, p) != True
    requires Truth3(db, FromAlias(c), RowCtx(FramesOf(FromAlias(c), r.env)), Resolved(NamesOf(c), [], p, 0).0) == True
    ensures Result(db, QueryOf(c, nullsLast), LimitOf(c), OffsetOf(c)) != Some(Outputs(Eval(db, e)))
  {
    hide JoinsSound, Sources, Result, QueryOf, Outputs, Eval;
    ChainTells(db, e, c, p, r.env.own);
    StatementTells(db, c, p, r, nullsLast);
  }

  // --- the read's own alias hidden ---

  function ScanExists(r: RelationRef, own: string, s: RelationRef, on: seq<JoinPair>): Expr {
    Select(Scan(r, own), Exists(s, on, Nil))
  }

  function ScanExistsClauses(r: RelationRef, own: string, s: RelationRef, on: seq<JoinPair>): Clauses {
    NO_CLAUSES.(relation := r, scanAlias := own, wheres := [Exists(s, on, Nil)], rank := 2)
  }

  lemma ScanExistsFlattened(r: RelationRef, own: string, s: RelationRef, on: seq<JoinPair>)
    ensures var e, c, p := ScanExists(r, own, s, on), ScanExistsClauses(r, own, s, on), Exists(s, on, Nil);
            FlattenInput(e) == Ok(c) && Shaped(e) && Filtered(c, p) && JoinsSound(c) && Renderable(c)
  {
    assert FlattenInput(Scan(r, own)) == Ok(NO_CLAUSES.(relation := r, scanAlias := own));
    assert [] + [Exists(s, on, Nil)] == [Exists(s, on, Nil)];
  }

  lemma ScanExistsNames(r: RelationRef, own: string, s: RelationRef, on: seq<JoinPair>)
    ensures var c := ScanExistsClauses(r, own, s, on);
            NamesOf(c) == Names(RootOf(own), {}) && FromAlias(c) == RootOf(own)
  {
    var c := ScanExistsClauses(r, own, s, on);
    assert Aliases([]) == {};
    assert HasExists(c.wheres[0]);
  }

  lemma OneUncaptured(ns: Names, s: RelationRef, on: seq<JoinPair>)
    ensures UncapturedAll(ns, [Exists(s, on, Nil)], 0) <==>
            forall i :: 0 <= i < |on| ==> Col(ns, on[i].left).qualifier != ExistsAlias(1)
  {
    var ps := [Exists(s, on, Nil)];
    assert ps[1..] == [] && UncapturedAll(ns, ps[1..], 1);
  }

  lemma OneClear(aliases: set<string>, s: RelationRef, on: seq<JoinPair>)
    requires forall i :: 0 <= i < |on| ==> Clear(aliases, on[i].left)
    ensures ClearInAll(aliases, [Exists(s, on, Nil)])
  {
    assert [Exists(s, on, Nil)][1..] == [];
  }

  lemma ScanExistsPlaced(r: RelationRef, own: string, s: RelationRef, on: seq<JoinPair>)
    requires on == [] || RootOf(own) != ExistsAlias(1)
    ensures Unambiguous(ScanExistsClauses(r, own, s, on))
  {
    ScanExistsNames(r, own, s, on);
    OneUncaptured(NamesOf(ScanExistsClauses(r, own, s, on)), s, on);
    OneClear({}, s, on);
  }

  /** Every column on names. */
  function OnNames(on: seq<JoinPair>): set<string> {
    (set i | 0 <= i < |on| :: on[i].left) + (set i | 0 <= i < |on| :: on[i].right)
  }

  /** A row of 1s, and one of nothing. */
  function TwoRows(names: set<string>): Db {
    AllTables([Const(names, Num(1.0)), Nothing()], Num(2.0))
  }

  lemma OwnHiddenTrue(from: string, ctx: Ctx, own: string, s: RelationRef, on: seq<JoinPair>)
    requires RootOf(own) == ExistsAlias(1)
    ensures Truth3(TwoRows(OnNames(on)), from, ctx, Resolved(Names(RootOf(own), {}), [], Exists(s, on, Nil), 0).0) ==
            True
  {
    var db, ns := TwoRows(OnNames(on)), Names(RootOf(own), {});
    forall i | 0 <= i < |on|
      ensures Get(db.table(s)[0], on[i].right) == Num(1.0)
      ensures ColumnValue(db, "", Inside(from, ctx, ExistsAlias(1), db.table(s)[0]), Col(ns, on[i].left)) == Num(1.0)
    {
      HiddenColumn(db, from, ctx, db.table(s)[0], Col(ns, on[i].left));
    }
    ExistsTrue(db, from, ctx, s, ns, on, 0);
  }

  lemma ScanExistsDiffers(r: RelationRef, own: string, s: RelationRef, on: seq<JoinPair>, nullsLast: bool)
    requires on != [] && RootOf(own) == ExistsAlias(1)
    ensures Renderable(ScanExistsClauses(r, own, s, on))
    ensures var c, db := ScanExistsClauses(r, own, s, on), TwoRows(OnNames(on));
            Ordered(db) && Result(db, QueryOf(c, nullsLast), LimitOf(c), OffsetOf(c)) !=
                Some(Outputs(Eval(db, ScanExists(r, own, s, on))))
  {
    var e, c, p := ScanExists(r, own, s, on), ScanExistsClauses(r, own, s, on), Exists(s, on, Nil);
    var db, row, one := TwoRows(OnNames(on)), ScannedRow(Nothing()), Const(OnNames(on), Num(1.0));
    AllTablesOrdered(db.table(r), Num(2.0));
    ScanExistsFlattened(r, own, s, on);
    ScanExistsNames(r, own, s, on);
    assert c.joins[..0] == [];
    assert Sources(db, c, 0) == [ScannedRow(one), row];
    forall x | x in Sources(db, c, 0) && x.env.own == Nothing() ensures Meaning(db, x.env, p) != True {
      assert x.env == row.env by { assert one != Nothing() by { assert on[0].left in one; } }
      assert Lookup(row.env, on[0].left) == Null;
    }
    OwnHiddenTrue(FromAlias(c), RowCtx(FramesOf(FromAlias(c), row.env)), own, s, on);
    RowTells(db, e, c, p, row, nullsLast);
  }

  /** A read that asks for related rows means in SQL what it means as a chain
      exactly when its alias is not the one the renderer gives the subquery. */
  lemma ScanExistsExact(r: RelationRef, own: string, s: RelationRef, on: seq<JoinPair>, nullsLast: bool)
    ensures var e, c := ScanExists(r, own, s, on), ScanExistsClauses(r, own, s, on);
            FlattenInput(e) == Ok(c) && Renderable(c) &&
                (Agrees(e, nullsLast) <==> on == [] || RootOf(own) != ExistsAlias(1))
  {
    var e, c := ScanExists(r, own, s, on), ScanExistsClauses(r, own, s, on);
    ScanExistsFlattened(r, own, s, on);
    if on == [] || RootOf(own) != ExistsAlias(1) {
      ScanExistsPlaced(r, own, s, on);
      forall db | Ordered(db)
        ensures Result(db, QueryOf(c, nullsLast), LimitOf(c), OffsetOf(c)) == Some(Outputs(Eval(db, e)))
      {
        SelectKeepsMeaning(db, e, nullsLast);
      }
    } else {
      ScanExistsDiffers(r, own, s, on, nullsLast);
    }
  }

  // --- a join's alias hidden ---

  function JoinExists(
    r: RelationRef, own: string, right: RelationRef, alias: string, pairs: seq<JoinPair>, s: RelationRef,
    pair: JoinPair): Expr
  {
    Select(JoinRead(r, own, right, alias, pairs), Exists(s, [pair], Nil))
  }

  function JoinExistsClauses(
    r: RelationRef, own: string, right: RelationRef, alias: string, pairs: seq<JoinPair>, s: RelationRef,
    pair: JoinPair): Clauses
  {
    JoinClauses(r, own, right, alias, pairs).(wheres := [Exists(s, [pair], Nil)], rank := 2)
  }

  predicate JoinsOther(own: string, alias: string, pairs: seq<JoinPair>) {
    Joinable(alias, pairs) && alias != own && ComparesOther(own, alias, pairs)
  }

  lemma JoinExistsNamed(
    r: RelationRef, own: string, right: RelationRef, alias: string, pairs: seq<JoinPair>, s: RelationRef,
    pair: JoinPair)
    requires JoinsOther(own, alias, pairs)
    ensures var c := JoinExistsClauses(r, own, right, alias, pairs, s, pair);
            NamesOf(c) == Names(RootOf(own), {alias}) && FromAlias(c) == RootOf(own) && JoinsSound(c)
  {
    JoinNames(r, own, right, alias, pairs);
    JoinPlaced(r, own, right, alias, pairs);
    var c := JoinExistsClauses(r, own, right, alias, pairs, s, pair);
    assert NamesOf(c) == Names(RootOf(own), {alias});
  }

  lemma JoinExistsFlattened(
    r: RelationRef, own: string, right: RelationRef, alias: string, pairs: seq<JoinPair>, s: RelationRef,
    pair: JoinPair)
    requires JoinsOther(own, alias, pairs)
    ensures var e, c, p := JoinExists(r, own, right, alias, pairs, s, pair),
                JoinExistsClauses(r, own, right, alias, pairs, s, pair),
                           Exists(s, [pair], Nil);
            FlattenInput(e) == Ok(c) && Shaped(e) && Filtered(c, p) && Renderable(c)
  {
    FlattenedJoin(r, own, right, alias, pairs);
    assert [] + [Exists(s, [pair], Nil)] == [Exists(s, [pair], Nil)];
  }

  predicate Hidden(own: string, alias: string, left: string) {
    Col(Names(RootOf(own), {alias}), left).qualifier == ExistsAlias(1)
  }

  function JoinExistsNames(own: string, alias: string, pair: JoinPair): set<string> {
    {pair.right, Col(Names(RootOf(own), {alias}), pair.left).name}
  }

  /** The row of nothing joins none. */
  lemma NothingMatches(db: Db, j: JoinPart, y: Record)
    requires y.env == Env(Nothing(), map[]) && j.on != []
    ensures JoinPartRow(db, j)(y) == [Joining(y, j.alias)(map[])]
  {
    assert Lookup(y.env, j.on[0].left) == Null;
    FilterNone(Matching(db, y.env, j.on, j.pred), db.table(j.right));
  }

  lemma NothingJoins(db: Db, c: Clauses, x: Record)
    requires |c.joins| == 1 && c.joins[0].on != [] && x in Sources(db, c, 1) && x.env.own == Nothing()
    ensures x.env == Env(Nothing(), map[c.joins[0].alias := map[]])
  {
    hide JoinPartRow, Sources;
    SourcesStep(db, c, 1);
    var y := FlatMapMember(JoinPartRow(db, c.joins[0]), Sources(db, c, 0), x);
    SourcesJoined(db, c, 0, y);
    JoinRowMember(db, c.joins[0], y, x);
    assert Aliases(c.joins[..0]) == {};
    NothingMatches(db, c.joins[0], y);
  }

  lemma NothingScanned(db: Db, c: Clauses, k: nat) returns (x: Record)
    requires |c.joins| == 1 && k < |db.table(c.relation)| && db.table(c.relation)[k] == Nothing()
    ensures x in Sources(db, c, 1) && x.env.own == Nothing()
  {
    var y := ScannedRow(Nothing());
    assert c.joins[..0] == [];
    assert Sources(db, c, 0)[k] == y;
    var rs := JoinPartRow(db, c.joins[0])(y);
    x := rs[0];
    assert x in rs;
    JoinRowMember(db, c.joins[0], y, x);
    SourcesStep(db, c, 1);
    FlatMapHas(JoinPartRow(db, c.joins[0]), Sources(db, c, 0), y, x);
  }

  lemma {:induction false} FlatMapHas<A, B>(f: A -> seq<B>, xs: seq<A>, x: A, y: B)
    requires x in xs && y in f(x)
    ensures y in FlatMap(f, xs)
  {
    if x != xs[|xs|-1] {
      assert x in xs[..|xs|-1];
      FlatMapHas(f, xs[..|xs|-1], x, y);
    }
  }

  lemma JoinExistsDiffers(
    r: RelationRef, own: string, right: RelationRef, alias: string, pairs: seq<JoinPair>, s: RelationRef,
    pair: JoinPair, nullsLast: bool)
    requires JoinsOther(own, alias, pairs) && Hidden(own, alias, pair.left)
    ensures Renderable(JoinExistsClauses(r, own, right, alias, pairs, s, pair))
    ensures var e, c := JoinExists(r, own, right, alias, pairs, s, pair),
                JoinExistsClauses(r, own, right, alias, pairs, s, pair);
            var db := TwoRows(JoinExistsNames(own, alias, pair));
            Ordered(db) && Result(db, QueryOf(c, nullsLast), LimitOf(c), OffsetOf(c)) != Some(Outputs(Eval(db, e)))
  {
    var e, c := JoinExists(r, own, right, alias, pairs, s, pair),
        JoinExistsClauses(r, own, right, alias, pairs, s, pair);
    var db, p := TwoRows(JoinExistsNames(own, alias, pair)), Exists(s, [pair], Nil);
    AllTablesOrdered(db.table(r), Num(2.0));
    JoinExistsFlattened(r, own, right, alias, pairs, s, pair);
    JoinExistsNamed(r, own, right, alias, pairs, s, pair);
    var x := NothingScanned(db, c, 1);
    forall y | y in Sources(db, c, 1) && y.env.own == Nothing() ensures Meaning(db, y.env, p) != True {
      NothingJoins(db, c, y);
      NothingSeen(db, alias, s, pair);
    }
    HiddenTrue(FromAlias(c), RowCtx(FramesOf(FromAlias(c), x.env)), own, alias, s, pair);
    RowTells(db, e, c, p, x, nullsLast);
  }

  lemma HiddenTrue(from: string, ctx: Ctx, own: string, alias: string, s: RelationRef, pair: JoinPair)
    requires Hidden(own, alias, pair.left)
    ensures Truth3(TwoRows(JoinExistsNames(own, alias, pair)), from, ctx,
                   Resolved(Names(RootOf(own), {alias}), [], Exists(s, [pair], Nil), 0).0) == True
  {
    var db, ns := TwoRows(JoinExistsNames(own, alias, pair)), Names(RootOf(own), {alias});
    HiddenColumn(db, from, ctx, db.table(s)[0], Col(ns, pair.left));
    ExistsTrue(db, from, ctx, s, ns, [pair], 0);
  }

  lemma NothingSeen(db: Db, alias: string, s: RelationRef, pair: JoinPair)
    ensures Meaning(db, Env(Nothing(), map[alias := map[]]), Exists(s, [pair], Nil)) != True
  {
    var env := Env(Nothing(), map[alias := map[]]);
    assert [pair][0] == pair && Lookup(env, pair.left) == Null;
  }

  lemma JoinExistsPlaced(
    r: RelationRef, own: string, right: RelationRef, alias: string, pairs: seq<JoinPair>, s: RelationRef,
    pair: JoinPair)
    requires JoinsOther(own, alias, pairs) && Clear({alias}, pair.left) && !Hidden(own, alias, pair.left)
    ensures Unambiguous(JoinExistsClauses(r, own, right, alias, pairs, s, pair))
  {
    var c := JoinExistsClauses(r, own, right, alias, pairs, s, pair);
    JoinExistsNamed(r, own, right, alias, pairs, s, pair);
    OneUncaptured(NamesOf(c), s, [pair]);
    OneClear({alias}, s, [pair]);
  }

  /** A read that joins a relation and asks for related rows means in SQL what it
      means as a chain exactly when the column it compares is of no relation the
      subquery's alias hides. */
  lemma JoinExistsExact(
    r: RelationRef, own: string, right: RelationRef, alias: string, pairs: seq<JoinPair>, s: RelationRef,
    pair: JoinPair, nullsLast: bool)
    requires JoinsOther(own, alias, pairs) && Clear({alias}, pair.left)
    ensures var e, c := JoinExists(r, own, right, alias, pairs, s, pair),
                JoinExistsClauses(r, own, right, alias, pairs, s, pair);
            FlattenInput(e) == Ok(c) && Renderable(c) && (Agrees(e, nullsLast) <==> !Hidden(own, alias, pair.left))
  {
    var e, c := JoinExists(r, own, right, alias, pairs, s, pair),
        JoinExistsClauses(r, own, right, alias, pairs, s, pair);
    JoinExistsFlattened(r, own, right, alias, pairs, s, pair);
    if Hidden(own, alias, pair.left) {
      JoinExistsDiffers(r, own, right, alias, pairs, s, pair, nullsLast);
    } else {
      JoinExistsPlaced(r, own, right, alias, pairs, s, pair);
      forall db | Ordered(db)
        ensures Result(db, QueryOf(c, nullsLast), LimitOf(c), OffsetOf(c)) == Some(Outputs(Eval(db, e)))
      {
        SelectKeepsMeaning(db, e, nullsLast);
      }
    }
  }

  // --- HAVING ---

  function HavingExists(
    r: RelationRef, own: string, groupBy: seq<string>, calls: seq<AggCall>, s: RelationRef, on: seq<JoinPair>): Expr
  {
    Having(Aggregate(Scan(r, own), groupBy, calls), Exists(s, on, Nil))
  }

  function HavingClauses(
    r: RelationRef, own: string, groupBy: seq<string>, calls: seq<AggCall>, s: RelationRef, on: seq<JoinPair>): Clauses
  {
    NO_CLAUSES.(relation := r, scanAlias := own, groupBy := groupBy, aggregates := calls, having := Exists(s, on, Nil),
        rank := 4)
  }

  lemma HavingFlattened(
    r: RelationRef, own: string, groupBy: seq<string>, calls: seq<AggCall>, s: RelationRef, on: seq<JoinPair>)
    requires groupBy != [] || calls != []
    ensures var e, c := HavingExists(r, own, groupBy, calls, s, on), HavingClauses(r, own, groupBy, calls, s, on);
            FlattenInput(e) == Ok(c) && Shaped(e) && Renderable(c) && NamesSound(c) && Assembled(c)
  {
    var scanned := NO_CLAUSES.(relation := r, scanAlias := own);
    assert FlattenInput(Scan(r, own)) == Ok(scanned);
    assert FlattenInput(Aggregate(Scan(r, own), groupBy, calls)) ==
           Ok(scanned.(groupBy := groupBy, aggregates := calls, rank := 3));
    assert Shaped(Aggregate(Scan(r, own), groupBy, calls));
  }

  lemma HavingNames(
    r: RelationRef, own: string, groupBy: seq<string>, calls: seq<AggCall>, s: RelationRef, on: seq<JoinPair>)
    ensures var c := HavingClauses(r, own, groupBy, calls, s, on);
            NamesOf(c) == Names(RootOf(own), {}) && FromAlias(c) == RootOf(own)
  {
    assert Aliases([]) == {};
  }

  /** Every column compared is a group-by field no call takes the name of. */
  predicate Compared(groupBy: seq<string>, calls: seq<AggCall>, on: seq<JoinPair>) {
    forall i :: 0 <= i < |on| ==> on[i].left in groupBy && Named(calls, on[i].left) < 0
  }

  lemma HavingPlaced(
    r: RelationRef, own: string, groupBy: seq<string>, calls: seq<AggCall>, s: RelationRef, on: seq<JoinPair>)
    requires Compared(groupBy, calls, on) && (on == [] || RootOf(own) != ExistsAlias(1))
    ensures Unambiguous(HavingClauses(r, own, groupBy, calls, s, on))
  {
    HavingNames(r, own, groupBy, calls, s, on);
  }

  lemma {:induction false} FilterFewer<A(!new)>(p: A -> bool, q: A -> bool, xs: seq<A>, k: nat)
    requires (forall x :: x in xs && p(x) ==> q(x)) && k < |xs| && q(xs[k]) && !p(xs[k])
    ensures |Filter(p, xs)| < |Filter(q, xs)|
  {
    var front, last := xs[..|xs|-1], xs[|xs|-1];
    FilterLast(p, xs, front);
    FilterLast(q, xs, front);
    if k < |front| {
      FilterFewer(p, q, front, k);
    } else {
      FilterNoMore(p, q, front);
    }
  }

  lemma {:induction false} FilterNoMore<A(!new)>(p: A -> bool, q: A -> bool, xs: seq<A>)
    requires forall x :: x in xs && p(x) ==> q(x)
    ensures |Filter(p, xs)| <= |Filter(q, xs)|
  {
    if xs != [] {
      var front := xs[..|xs|-1];
      FilterLast(p, xs, front);
      FilterLast(q, xs, front);
      FilterNoMore(p, q, front);
    }
  }

  /** The groups the statement's HAVING keeps. */
  ghost function StatedKept(db: Db, q: Query): Paired -> bool {
    (z: Paired) => Truth3(db, q.alias, z.ctx, q.having) == True
  }

  predicate OnlyGroups(c: Clauses) {
    c.wheres == [] && c.cols == [] && c.order == [] && !c.distinct && !c.hasLimit
  }

  lemma ResultCounts(db: Db, q: Query)
    requires Exposed(q) && !q.distinct && q.orderBy == []
    ensures var result := Result(db, q, 0, 0); result.Some? && |result.value| == |HavingRows(db, q)|
  {
  }

  lemma StatementCounts(db: Db, c: Clauses, nullsLast: bool)
    requires Renderable(c) && NamesSound(c) && OnlyGroups(c)
    ensures var q := QueryOf(c, nullsLast);
            var result := Result(db, q, 0, 0);
            result.Some? && |result.value| == |Filter(StatedKept(db, q), Pairs(db, c))|
  {
    var q := QueryOf(c, nullsLast);
    ContextsAgree(db, c, nullsLast);
    JoinsExposed(c, nullsLast);
    FilterOfMap(CtxOf(), StatedKept(db, q), Keeps(db, q.alias, q.having), Pairs(db, c));
    ResultCounts(db, q);
  }

  lemma ChainCounts(db: Db, c: Clauses)
    requires OnlyGroups(c)
    ensures |Outputs(Applied(db, c))| == |Filter(MeantKept(db, c), Pairs(db, c))|
  {
    KeptAreRows(db, c);
  }

  /** One group more is kept by the statement than by the chain. */
  lemma GroupTells(db: Db, e: Expr, c: Clauses, nullsLast: bool, k: nat)
    requires FlattenInput(e) == Ok(c) && Shaped(e) && Renderable(c) && NamesSound(c) && OnlyGroups(c)
    requires var q, zs := QueryOf(c, nullsLast), Pairs(db, c);
             && k < |zs| && StatedKept(db, q)(zs[k]) && !MeantKept(db, c)(zs[k])
             && forall z :: z in zs && MeantKept(db, c)(z) ==> StatedKept(db, q)(z)
    ensures Result(db, QueryOf(c, nullsLast), LimitOf(c), OffsetOf(c)) != Some(Outputs(Eval(db, e)))
  {
    FlattenKeepsMeaning(db, e);
    StatementCounts(db, c, nullsLast);
    ChainCounts(db, c);
    FilterFewer(MeantKept(db, c), StatedKept(db, QueryOf(c, nullsLast)), Pairs(db, c), k);
  }

  // --- the groups of two rows ---

  lemma GroupsTwo(groupBy: seq<string>, rs: seq<Record>, u: Record, n: Record)
    requires rs == [u, n]
    ensures var gs := Groups(groupBy, rs); |gs| > 0 && gs[0] != [] && gs[0][0] == u
    ensures Lookups(u.env, groupBy) != Lookups(n.env, groupBy) ==>
              var gs := Groups(groupBy, rs); |gs| == 2 && gs[1] != [] && gs[1][0] == n
  {
    if groupBy != [] {
      var f := KeyOf(groupBy);
      assert rs == [] + [u] + [n];
      DedupSnoc(f, [], u);
      DedupSnoc(f, [u], n);
      assert Dedup(f, [u]) == [u] && Has(f, [u], f(n)) == (f(u) == f(n)) by {
        assert [u][..0] == [];
      }
      FilterFirst(InGroup(groupBy, Lookups(u.env, groupBy)), rs, u, n);
      FilterFirst(InGroup(groupBy, Lookups(n.env, groupBy)), rs, u, n);
    }
  }

  lemma FilterFirst<A(!new)>(p: A -> bool, xs: seq<A>, a: A, b: A)
    requires xs == [a, b]
    ensures p(a) ==> Filter(p, xs) != [] && Filter(p, xs)[0] == a
    ensures !p(a) && p(b) ==> Filter(p, xs) == [b]
  {
    assert xs == [] + [a] + [b];
    FilterSnoc(p, [], a);
    FilterSnoc(p, [a], b);
  }

  // --- a group only the statement keeps ---

  function HavingDb(groupBy: seq<string>, on: seq<JoinPair>): Db {
    TwoRows(OnNames(on) + set i | 0 <= i < |groupBy| :: groupBy[i])
  }

  /** The first of a group's rows is what the statement sees of it. */
  lemma OuterSeen(db: Db, from: string, own: string, ctx: Ctx, row: Row, left: string, u: Row)
    requires from == RootOf(own) && Get(row, left) == Num(1.0) && Get(u, left) == Num(1.0)
    requires Frame(Representative(ctx), from) == u
    ensures ColumnValue(db, "", Inside(from, ctx, ExistsAlias(1), row), Col(Names(RootOf(own), {}), left)) == Num(1.0)
  {
    var c := Col(Names(RootOf(own), {}), left);
    if c.qualifier == ExistsAlias(1) {
      HiddenColumn(db, from, ctx, row, c);
    } else {
      OuterColumn(db, from, ctx, ExistsAlias(1), row, c);
    }
  }

  lemma StatedTrue(own: string, ctx: Ctx, groupBy: seq<string>, s: RelationRef, on: seq<JoinPair>)
    requires Frame(Representative(ctx), RootOf(own)) == HavingDb(groupBy, on).table(s)[0] ||
             RootOf(own) == ExistsAlias(1)
    ensures Truth3(HavingDb(groupBy, on), RootOf(own), ctx,
            Resolved(Names(RootOf(own), {}), [], Exists(s, on, Nil), 0).0) == True
  {
    var db, ns := HavingDb(groupBy, on), Names(RootOf(own), {});
    var row := db.table(s)[0];
    forall i | 0 <= i < |on|
      ensures Get(row, on[i].right) == Num(1.0)
      ensures ColumnValue(db, "", Inside(RootOf(own), ctx, ExistsAlias(1), row), Col(ns, on[i].left)) == Num(1.0)
    {
      assert Get(row, on[i].left) == Num(1.0);
      if RootOf(own) == ExistsAlias(1) {
        HiddenColumn(db, RootOf(own), ctx, row, Col(ns, on[i].left));
      } else {
        OuterSeen(db, RootOf(own), own, ctx, row, on[i].left, row);
      }
    }
    ExistsTrue(db, RootOf(own), ctx, s, ns, on, 0);
  }

  lemma {:induction false} GroupRowWithout(
    groupBy: seq<string>, key: seq<Value>, cs: seq<AggCall>, vs: seq<Value>, name: string)
    requires |key| == |groupBy| && |vs| == |cs| && Named(cs, name) < 0 && name !in groupBy
    ensures name !in GroupRow(groupBy, key, cs, vs)
    decreases |cs|, |groupBy|
  {
    if cs != [] {
      GroupRowWithout(groupBy, key, cs[..|cs|-1], vs[..|vs|-1], name);
    } else if groupBy != [] {
      var n := |groupBy| - 1;
      assert name !in groupBy[..n];
      GroupRowWithout(groupBy[..n], key[..n], [], [], name);
    }
  }

  /** A column that is no group-by field, or that a call takes, is nothing or the
      call's value to the chain. */
  lemma ChainSees(groupBy: seq<string>, calls: seq<AggCall>, on: seq<JoinPair>, g: seq<Record>, left: string)
    requires !(left in groupBy && Named(calls, left) < 0)
    ensures var v := Get(RecordOfGroup(HavingDb(groupBy, on), groupBy, calls, g).env.own, left);
                v == Null || v == Num(2.0)
  {
    var key, vs := GroupKey(groupBy, g), CallValues(HavingDb(groupBy, on), calls, g);
    if Named(calls, left) >= 0 {
      GroupRowGet(groupBy, key, calls, vs, left);
    } else {
      GroupRowWithout(groupBy, key, calls, vs, left);
    }
  }

  /** A pair no row satisfies. */
  lemma PairDrops(db: Db, env: Env, s: RelationRef, on: seq<JoinPair>, i: nat)
    requires i < |on|
    requires forall j :: 0 <= j < |db.table(s)| ==>
             Compare(db, Eq, Get(db.table(s)[j], on[i].right), Lookup(env, on[i].left)) != True
    ensures Meaning(db, env, Exists(s, on, Nil)) != True
  {
    forall j | 0 <= j < |db.table(s)| ensures !OnTrue(db, env, on, db.table(s)[j]) {
    }
  }

  lemma ChainDrops(groupBy: seq<string>, calls: seq<AggCall>, s: RelationRef, on: seq<JoinPair>, g: seq<Record>)
    requires !Compared(groupBy, calls, on)
    ensures var db := HavingDb(groupBy, on);
                Meaning(db, RecordOfGroup(db, groupBy, calls, g).env, Exists(s, on, Nil)) != True
  {
    var db := HavingDb(groupBy, on);
    var i :| 0 <= i < |on| && !(on[i].left in groupBy && Named(calls, on[i].left) < 0);
    ChainSees(groupBy, calls, on, g, on[i].left);
    PairDrops(db, RecordOfGroup(db, groupBy, calls, g).env, s, on, i);
  }

  /** The group of nothing has nothing in its fields. */
  lemma NothingSees(db: Db, groupBy: seq<string>, calls: seq<AggCall>, g: seq<Record>, left: string)
    requires left in groupBy && Named(calls, left) < 0 && g != [] && g[0] == ScannedRow(Nothing())
    ensures Get(RecordOfGroup(db, groupBy, calls, g).env.own, left) == Null
  {
    var key, vs := GroupKey(groupBy, g), CallValues(db, calls, g);
    GroupRowGet(groupBy, key, calls, vs, left);
    var i :| 0 <= i < |groupBy| && groupBy[i] == left && Get(GroupRow(groupBy, key, calls, vs), left) == key[i];
    assert key[i] == Lookup(g[0].env, left);
  }

  lemma ChainDropsNothing(groupBy: seq<string>, calls: seq<AggCall>, s: RelationRef, on: seq<JoinPair>, g: seq<Record>)
    requires on != [] && Compared(groupBy, calls, on) && g != [] && g[0] == ScannedRow(Nothing())
    ensures var db := HavingDb(groupBy, on);
                Meaning(db, RecordOfGroup(db, groupBy, calls, g).env, Exists(s, on, Nil)) != True
  {
    var db := HavingDb(groupBy, on);
    NothingSees(db, groupBy, calls, g, on[0].left);
    PairDrops(db, RecordOfGroup(db, groupBy, calls, g).env, s, on, 0);
  }

  lemma HavingDiffers(
    r: RelationRef, own: string, groupBy: seq<string>, calls: seq<AggCall>, s: RelationRef, on: seq<JoinPair>,
    nullsLast: bool)
    requires groupBy != [] || calls != []
    requires !Compared(groupBy, calls, on) || (on != [] && RootOf(own) == ExistsAlias(1))
    ensures var e, c, db := HavingExists(r, own, groupBy, calls, s, on), HavingClauses(r, own, groupBy, calls, s, on),
                HavingDb(groupBy, on);
            Renderable(c) && Ordered(db) &&
                Result(db, QueryOf(c, nullsLast), LimitOf(c), OffsetOf(c)) != Some(Outputs(Eval(db, e)))
  {
    var e, c, db := HavingExists(r, own, groupBy, calls, s, on), HavingClauses(r, own, groupBy, calls, s, on),
        HavingDb(groupBy, on);
    AllTablesOrdered(db.table(r), Num(2.0));
    HavingFlattened(r, own, groupBy, calls, s, on);
    HavingNames(r, own, groupBy, calls, s, on);
    HavingOf(c, nullsLast);
    var k := HavingGroup(c, r, own, groupBy, calls, s, on, QueryOf(c, nullsLast));
    GroupTells(db, e, c, nullsLast, k);
  }

  lemma HavingPairs(db: Db, c: Clauses, u: Record, n: Record)
    requires Aggregates(c) && c.joins == [] && c.wheres == [] && ScanRows(db, c.relation) == [u, n]
    ensures Pairs(db, c) == Map(GroupPair(db, c), Groups(c.groupBy, [u, n]))
  {
  }

  /** q's HAVING is the EXISTS of the clauses. */
  predicate HavingIs(q: Query, own: string, calls: seq<AggCall>, s: RelationRef, on: seq<JoinPair>) {
    q.alias == RootOf(own) && q.having == Resolved(Names(RootOf(own), {}), calls, Exists(s, on, Nil), 0).0
  }

  lemma NoneMeant(
    c: Clauses, q: Query, own: string, s: RelationRef, on: seq<JoinPair>, gs: seq<seq<Record>>, zs: seq<Paired>)
    requires c.having == Exists(s, on, Nil) && !Compared(c.groupBy, c.aggregates, on) &&
             HavingIs(q, own, c.aggregates, s, on)
    requires zs == Map(GroupPair(HavingDb(c.groupBy, on), c), gs) && FromAlias(c) == RootOf(own)
    requires |gs| > 0 && gs[0] != [] && gs[0][0] == ScannedRow(HavingDb(c.groupBy, on).table(s)[0])
    ensures var db := HavingDb(c.groupBy, on);
            StatedKept(db, q)(zs[0]) && forall i :: 0 <= i < |zs| ==> !MeantKept(db, c)(zs[i])
  {
    var db := HavingDb(c.groupBy, on);
    forall i | 0 <= i < |zs| ensures !MeantKept(db, c)(zs[i]) {
      ChainDrops(c.groupBy, c.aggregates, s, on, gs[i]);
    }
    StatedTrue(own, zs[0].ctx, c.groupBy, s, on);
  }

  lemma AllStated(
    c: Clauses, q: Query, own: string, s: RelationRef, on: seq<JoinPair>, gs: seq<seq<Record>>, zs: seq<Paired>)
    requires c.having == Exists(s, on, Nil) && Compared(c.groupBy, c.aggregates, on) &&
             HavingIs(q, own, c.aggregates, s, on)
    requires on != [] && RootOf(own) == ExistsAlias(1)
    requires zs == Map(GroupPair(HavingDb(c.groupBy, on), c), gs)
    requires |gs| > 1 && gs[1] != [] && gs[1][0] == ScannedRow(Nothing())
    ensures var db := HavingDb(c.groupBy, on);
            !MeantKept(db, c)(zs[1]) && forall i :: 0 <= i < |zs| ==> StatedKept(db, q)(zs[i])
  {
    var db := HavingDb(c.groupBy, on);
    ChainDropsNothing(c.groupBy, c.aggregates, s, on, gs[1]);
    forall i | 0 <= i < |zs| ensures StatedKept(db, q)(zs[i]) {
      StatedTrue(own, zs[i].ctx, c.groupBy, s, on);
    }
  }

  lemma KeysApart(groupBy: seq<string>, u: Record, n: Record, f: string)
    requires f in groupBy && Lookup(u.env, f) != Lookup(n.env, f)
    ensures Lookups(u.env, groupBy) != Lookups(n.env, groupBy)
  {
    var i :| 0 <= i < |groupBy| && groupBy[i] == f;
    assert Lookups(u.env, groupBy)[i] != Lookups(n.env, groupBy)[i];
  }

  lemma HavingScanned(groupBy: seq<string>, on: seq<JoinPair>, r: RelationRef)
    ensures var db := HavingDb(groupBy, on);
            && ScanRows(db, r) == [ScannedRow(db.table(r)[0]), ScannedRow(Nothing())]
            && (on != [] ==>
                  Lookup(ScannedRow(db.table(r)[0]).env, on[0].left) != Lookup(ScannedRow(Nothing()).env, on[0].left))
  {
    var db := HavingDb(groupBy, on);
    if on != [] {
      assert Get(db.table(r)[0], on[0].left) == Num(1.0);
    }
  }

  lemma HavingGroup(
    c: Clauses, r: RelationRef, own: string, groupBy: seq<string>, calls: seq<AggCall>, s: RelationRef,
    on: seq<JoinPair>, q: Query)
    returns (k: nat)
    requires (groupBy != [] || calls != []) && c == HavingClauses(r, own, groupBy, calls, s, on)
    requires !Compared(groupBy, calls, on) || (on != [] && RootOf(own) == ExistsAlias(1))
    requires FromAlias(c) == RootOf(own) && HavingIs(q, own, calls, s, on)
    ensures var db := HavingDb(groupBy, on);
            var zs := Pairs(db, c);
            && k < |zs| && StatedKept(db, q)(zs[k]) && !MeantKept(db, c)(zs[k])
            && forall z :: z in zs && MeantKept(db, c)(z) ==> StatedKept(db, q)(z)
  {
    var db := HavingDb(groupBy, on);
    var u, n := ScannedRow(db.table(r)[0]), ScannedRow(Nothing());
    HavingScanned(groupBy, on, r);
    HavingPairs(db, c, u, n);
    GroupsTwo(groupBy, [u, n], u, n);
    var zs, gs := Pairs(db, c), Groups(groupBy, [u, n]);
    if !Compared(groupBy, calls, on) {
      k := 0;
      NoneMeant(c, q, own, s, on, gs, zs);
    } else {
      k := 1;
      KeysApart(groupBy, u, n, on[0].left);
      AllStated(c, q, own, s, on, gs, zs);
    }
  }

  /** An aggregate that asks for rows related to its groups means in SQL what it
      means as a chain exactly when it compares group-by fields that no call
      takes the name of, under an alias the subquery's does not hide. */
  lemma HavingExact(
    r: RelationRef, own: string, groupBy: seq<string>, calls: seq<AggCall>, s: RelationRef, on: seq<JoinPair>,
    nullsLast: bool)
    requires groupBy != [] || calls != []
    ensures var e, c := HavingExists(r, own, groupBy, calls, s, on), HavingClauses(r, own, groupBy, calls, s, on);
            FlattenInput(e) == Ok(c) && Renderable(c) &&
            (Agrees(e, nullsLast) <==> Compared(groupBy, calls, on) && (on == [] || RootOf(own) != ExistsAlias(1)))
  {
    var e, c := HavingExists(r, own, groupBy, calls, s, on), HavingClauses(r, own, groupBy, calls, s, on);
    HavingFlattened(r, own, groupBy, calls, s, on);
    if Compared(groupBy, calls, on) && (on == [] || RootOf(own) != ExistsAlias(1)) {
      HavingPlaced(r, own, groupBy, calls, s, on);
      forall db | Ordered(db)
        ensures Result(db, QueryOf(c, nullsLast), LimitOf(c), OffsetOf(c)) == Some(Outputs(Eval(db, e)))
      {
        SelectKeepsMeaning(db, e, nullsLast);
      }
    } else {
      HavingDiffers(r, own, groupBy, calls, s, on, nullsLast);
    }
  }
}
