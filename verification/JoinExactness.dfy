/** Where a join and its statement part: a join that compares a column of the
    relation it joins with another of its own is not the one the chain means, and
    one under the read's own alias is refused. Nothing else of a join does. */
module JoinExactness {
  import opened Lists
  import opened Relalg
  import opened SqlSelect
  import opened Flatten
  import opened Resolve
  import opened SelectCorrect
  import opened SelectOrder
  import opened SelectMain
  import opened Witnesses

  function JoinRead(r: RelationRef, own: string, right: RelationRef, alias: string, on: seq<JoinPair>): Expr {
    Join(Scan(r, own), right, alias, on, Nil)
  }

  function JoinClauses(r: RelationRef, own: string, right: RelationRef, alias: string, on: seq<JoinPair>): Clauses {
    NO_CLAUSES.(relation := r, scanAlias := own, joins := [JoinPart(right, alias, on, Nil)], rank := 1)
  }

  function RootOf(own: string): string {
    if own != "" then own else ROOT_ALIAS
  }

  predicate Joinable(alias: string, on: seq<JoinPair>) {
    alias != "" && alias != ROOT_ALIAS && on != []
  }

  lemma FlattenedJoin(r: RelationRef, own: string, right: RelationRef, alias: string, on: seq<JoinPair>)
    requires Joinable(alias, on)
    ensures FlattenInput(JoinRead(r, own, right, alias, on)) == Ok(JoinClauses(r, own, right, alias, on))
    ensures Renderable(JoinClauses(r, own, right, alias, on)) && Shaped(JoinRead(r, own, right, alias, on))
  {
    assert FlattenInput(Scan(r, own)) == Ok(NO_CLAUSES.(relation := r, scanAlias := own));
    assert Aliases([]) == {};
    assert [] + [JoinPart(right, alias, on, Nil)] == [JoinPart(right, alias, on, Nil)];
  }

  /** left is a column of the relation being joined. */
  predicate OwnColumn(own: string, alias: string, left: string) {
    Col(Names(RootOf(own), {alias}), left).qualifier == alias
  }

  predicate ComparesOther(own: string, alias: string, on: seq<JoinPair>) {
    forall i :: 0 <= i < |on| ==> !OwnColumn(own, alias, on[i].left)
  }

  lemma JoinNames(r: RelationRef, own: string, right: RelationRef, alias: string, on: seq<JoinPair>)
    ensures var c := JoinClauses(r, own, right, alias, on);
                NamesOf(c) == Names(RootOf(own), {alias}) && FromAlias(c) == RootOf(own)
  {
    var joins := JoinClauses(r, own, right, alias, on).joins;
    assert joins[0].alias == alias;
    assert Aliases(joins) == {alias};
  }

  lemma JoinPlaced(r: RelationRef, own: string, right: RelationRef, alias: string, on: seq<JoinPair>)
    requires Joinable(alias, on) && alias != own && ComparesOther(own, alias, on)
    ensures Unambiguous(JoinClauses(r, own, right, alias, on))
  {
    JoinNames(r, own, right, alias, on);
  }

  // --- a table that tells them apart ---

  /** A row that has the columns on compares of the read's own relation. */
  function LeftRow(own: string, alias: string, on: seq<JoinPair>): Row {
    Const(set i | 0 <= i < |on| && !OwnColumn(own, alias, on[i].left) :: on[i].left, Num(1.0))
  }

  /** A row that has every column on names of the relation joined, by whatever
      name. */
  function RightRow(own: string, alias: string, on: seq<JoinPair>): Row {
    Const((set i | 0 <= i < |on| :: on[i].right) +
          (set i | 0 <= i < |on| && OwnColumn(own, alias, on[i].left) ::
              Col(Names(RootOf(own), {alias}), on[i].left).name) +
          (set i | 0 <= i < |on| && OwnColumn(own, alias, on[i].left) :: on[i].left), Num(1.0))
  }

  function TwoMatches(own: string, alias: string, on: seq<JoinPair>): Db {
    AllTables([LeftRow(own, alias, on), RightRow(own, alias, on), RightRow(own, alias, on)], Null)
  }

  lemma LeftColumns(own: string, alias: string, on: seq<JoinPair>, i: nat)
    requires i < |on|
    ensures Get(LeftRow(own, alias, on), on[i].left) == if OwnColumn(own, alias, on[i].left) then Null else Num(1.0)
  {
    var names := set i | 0 <= i < |on| && !OwnColumn(own, alias, on[i].left) :: on[i].left;
    assert on[i].left in names <==> !OwnColumn(own, alias, on[i].left);
  }

  lemma RightColumns(own: string, alias: string, on: seq<JoinPair>, i: nat)
    requires i < |on|
    ensures Get(RightRow(own, alias, on), on[i].right) == Num(1.0)
    ensures OwnColumn(own, alias, on[i].left) ==>
              && Get(RightRow(own, alias, on), Col(Names(RootOf(own), {alias}), on[i].left).name) == Num(1.0)
              && Get(RightRow(own, alias, on), on[i].left) == Num(1.0)
  {
  }

  // --- the chain ---

  lemma FilterNone<A(!new)>(p: A -> bool, xs: seq<A>)
    requires forall x :: x in xs ==> !p(x)
    ensures Filter(p, xs) == []
  {
    if Filter(p, xs) != [] {
      assert Filter(p, xs)[0] in Filter(p, xs);
    }
  }

  /** The chain joins the first row to none. */
  lemma NoneMatches(own: string, alias: string, on: seq<JoinPair>, row: Row)
    requires !ComparesOther(own, alias, on)
    ensures !Matching(TwoMatches(own, alias, on), Env(LeftRow(own, alias, on), map[]), on, Nil)(row)
  {
    var i :| 0 <= i < |on| && OwnColumn(own, alias, on[i].left);
    LeftColumns(own, alias, on, i);
    assert Lookup(Env(LeftRow(own, alias, on), map[]), on[i].left) == Null;
  }

  lemma JoinedOutputs(db: Db, right: RelationRef, alias: string, on: seq<JoinPair>, row: Row)
    ensures var rs := JoinRow(db, right, alias, on, Nil)(ScannedRow(row)); rs != [] && rs[0].out == Output.Whole(row)
  {
    var j := JoinPart(right, alias, on, Nil);
    var rs := JoinPartRow(db, j)(ScannedRow(row));
    assert rs[0] in rs;
    JoinRowMember(db, j, ScannedRow(row), rs[0]);
  }

  lemma FlatThree<A, B>(f: A -> seq<B>, xs: seq<A>, a: A, b: A, c: A)
    requires xs == [a, b, c]
    ensures FlatMap(f, xs) == f(a) + f(b) + f(c)
  {
    assert xs[..2] == [a, b] && [a, b][..1] == [a] && [a][..0] == [];
    assert FlatMap(f, [a]) == f(a);
    assert FlatMap(f, [a, b]) == f(a) + f(b);
  }

  lemma EvalJoin(db: Db, e: Expr)
    requires e.Join?
    ensures Eval(db, e) == FlatMap(JoinRow(db, e.right, e.joinAlias, e.on, e.rightPred), Eval(db, e.input))
  {
  }

  lemma EvalScan(db: Db, e: Expr)
    requires e.Scan?
    ensures Eval(db, e) == ScanRows(db, e.relation)
  {
  }

  lemma JoinsNone(db: Db, right: RelationRef, alias: string, on: seq<JoinPair>, own: Record)
    requires forall row :: row in db.table(right) ==> !Matching(db, own.env, on, Nil)(row)
    ensures |JoinRow(db, right, alias, on, Nil)(own)| == 1
  {
    FilterNone(Matching(db, own.env, on, Nil), db.table(right));
  }

  lemma SecondOutput(rs: seq<Record>, ss: seq<Record>, us: seq<Record>)
    requires |rs| == 1 && ss != []
    ensures var outs := Outputs(rs + ss + us); |outs| > 1 && outs[1] == ss[0].out
  {
    assert (rs + ss + us)[1] == ss[0];
  }

  lemma ScannedThree(db: Db, r: RelationRef, a: Row, b: Row)
    requires db.table(r) == [a, b, b]
    ensures ScanRows(db, r) == [ScannedRow(a), ScannedRow(b), ScannedRow(b)]
  {
  }

  /** So its second row is another. */
  lemma ChainSecond(r: RelationRef, own: string, right: RelationRef, alias: string, on: seq<JoinPair>)
    requires !ComparesOther(own, alias, on)
    ensures var outs := Outputs(Eval(TwoMatches(own, alias, on), JoinRead(r, own, right, alias, on)));
            |outs| > 1 && outs[1] == Output.Whole(RightRow(own, alias, on))
  {
    var db, left, other := TwoMatches(own, alias, on), ScannedRow(LeftRow(own, alias, on)),
        ScannedRow(RightRow(own, alias, on));
    var f := JoinRow(db, right, alias, on, Nil);
    EvalJoin(db, JoinRead(r, own, right, alias, on));
    EvalScan(db, Scan(r, own));
    ScannedThree(db, r, LeftRow(own, alias, on), RightRow(own, alias, on));
    FlatThree(f, ScanRows(db, r), left, other, other);
    forall row | row in db.table(right) ensures !Matching(db, left.env, on, Nil)(row) {
      NoneMatches(own, alias, on, row);
    }
    JoinsNone(db, right, alias, on, left);
    JoinedOutputs(db, right, alias, on, RightRow(own, alias, on));
    SecondOutput(f(left), f(other), f(other));
  }

  // --- the statement ---

  /** Every pair holds of the two rows, as the statement writes it. */
  lemma PairsHold(own: string, alias: string, on: seq<JoinPair>)
    requires Joinable(alias, on) && alias != own
    ensures var db, left, other := TwoMatches(own, alias, on), LeftRow(own, alias, on), RightRow(own, alias, on);
            OnPairsTrue(db, RootOf(own), Extend(RowCtx(map[RootOf(own) := left]), alias, other),
                OnPairs(Names(RootOf(own), {alias}), on), other)
  {
    var db, left, other := TwoMatches(own, alias, on), LeftRow(own, alias, on), RightRow(own, alias, on);
    var ns := Names(RootOf(own), {alias});
    forall i | 0 <= i < |on|
      ensures Compare(db, Eq, Get(other, on[i].right),
                      ColumnOf(RootOf(own), map[RootOf(own) := left][alias := other], Col(ns, on[i].left).qualifier,
                          Col(ns, on[i].left).name)) == True
    {
      LeftColumns(own, alias, on, i);
      RightColumns(own, alias, on, i);
    }
  }

  lemma FilterTwo<A(!new)>(p: A -> bool, xs: seq<A>, a: A, b: A)
    requires xs == [a, b, b] && p(b)
    ensures |Filter(p, xs)| >= 2
  {
    assert xs == [a] + [b] + [b];
    FilterSnoc(p, [a] + [b], b);
    FilterSnoc(p, [a], b);
  }

  lemma JoinedFrames(frames: Frames, from: string, alias: string, found: seq<Row>)
    requires |found| >= 2 && alias != from
    ensures var ms := Map(SqlJoining(frames, alias), OrNone(found));
                |ms| >= 2 && Frame(ms[1], from) == Frame(frames, from)
  {
  }

  /** The statement joins the first row to both others. */
  lemma StatementJoinsBoth(db: Db, j: SqlJoin, from: string, left: Row, other: Row)
    requires db.table(j.right) == [left, other, other] && j.pred.SqlNil? && j.alias != from
    requires OnPairsTrue(db, from, Extend(RowCtx(map[from := left]), j.alias, other), j.on, other)
    ensures var ms := SqlJoinRow(db, from, j)(map[from := left]); |ms| >= 2 && Frame(ms[1], from) == left
  {
    var p := SqlMatching(db, from, j, map[from := left]);
    assert p(other);
    FilterTwo(p, db.table(j.right), left, other);
    JoinedFrames(map[from := left], from, j.alias, Filter(p, db.table(j.right)));
  }

  predicate NoClauses(q: Query) {
    q.where == [] && q.having.SqlNil? && !Grouped(q) && !q.distinct && q.orderBy == [] && q.list.Star?
  }

  /** A statement without other clauses returns the rows of its FROM. */
  lemma PlainOutputs(db: Db, q: Query)
    requires NoClauses(q)
    ensures Sortable(db, q) && |SelectedOutputs(db, q)| == |FromRows(db, q, |q.joins|)|
    ensures forall i :: 0 <= i < |SelectedOutputs(db, q)| ==>
              SelectedOutputs(db, q)[i] == Output.Whole(Frame(FromRows(db, q, |q.joins|)[i], q.alias))
  {
    FilterAll(TrueOn(db, q.alias, SqlAnd(q.where)), FromRows(db, q, |q.joins|));
    FilterAll(Keeps(db, q.alias, q.having), Contexts(db, q));
  }

  lemma FromThree(db: Db, q: Query, left: Row, other: Row)
    requires db.table(q.relation) == [left, other, other]
    ensures var a, b: Frames := map[q.alias := left], map[q.alias := other]; FromRows(db, q, 0) == [a, b, b]
  {
  }

  lemma FromSecond(db: Db, q: Query, left: Row, other: Row)
    requires db.table(q.relation) == [left, other, other] && |q.joins| == 1
    requires var ms := SqlJoinRow(db, q.alias, q.joins[0])(map[q.alias := left]);
             |ms| >= 2 && Frame(ms[1], q.alias) == left
    ensures |FromRows(db, q, 1)| > 1 && Frame(FromRows(db, q, 1)[1], q.alias) == left
  {
    var f := SqlJoinRow(db, q.alias, q.joins[0]);
    var a, b: Frames := map[q.alias := left], map[q.alias := other];
    FromThree(db, q, left, other);
    FlatThree(f, FromRows(db, q, 0), a, b, b);
    assert (f(a) + f(b) + f(b))[1] == f(a)[1];
  }

  lemma PlainResult(db: Db, q: Query, rows: seq<Frames>, i: nat)
    requires NoClauses(q) && Exposed(q) && rows == FromRows(db, q, |q.joins|) && i < |rows|
    ensures var result := Result(db, q, 0, 0);
                result.Some? && |result.value| > i && result.value[i] == Output.Whole(Frame(rows[i], q.alias))
  {
    PlainOutputs(db, q);
  }

  lemma SecondRow(db: Db, q: Query, left: Row, other: Row)
    requires NoClauses(q) && Exposed(q) && |q.joins| == 1 && q.joins[0].pred.SqlNil? && q.joins[0].alias != q.alias
    requires db.table(q.relation) == db.table(q.joins[0].right) == [left, other, other]
    requires OnPairsTrue(db, q.alias, Extend(RowCtx(map[q.alias := left]), q.joins[0].alias, other), q.joins[0].on,
             other)
    ensures |FromRows(db, q, |q.joins|)| > 1 && Frame(FromRows(db, q, |q.joins|)[1], q.alias) == left
  {
    StatementJoinsBoth(db, q.joins[0], q.alias, left, other);
    FromSecond(db, q, left, other);
  }

  /** q is the statement of the join. */
  predicate Joins(q: Query, r: RelationRef, own: string, right: RelationRef, alias: string, on: seq<JoinPair>) {
    && NoClauses(q) && q.relation == r && q.alias == RootOf(own)
    && q.joins == [SqlJoin(right, alias, OnPairs(Names(RootOf(own), {alias}), on), SqlNil)]
  }

  lemma JoinQuery(r: RelationRef, own: string, right: RelationRef, alias: string, on: seq<JoinPair>, nullsLast: bool)
    requires Joinable(alias, on)
    ensures Renderable(JoinClauses(r, own, right, alias, on))
    ensures Joins(QueryOf(JoinClauses(r, own, right, alias, on), nullsLast), r, own, right, alias, on)
  {
    FlattenedJoin(r, own, right, alias, on);
    JoinNames(r, own, right, alias, on);
    var c := JoinClauses(r, own, right, alias, on);
    assert SqlJoins(NamesOf(c), c.joins) == [SqlJoin(right, alias, OnPairs(NamesOf(c), on), SqlNil)];
  }

  /** So its second row is the first again. */
  lemma StatementSecond(q: Query, r: RelationRef, own: string, right: RelationRef, alias: string, on: seq<JoinPair>)
    requires Joinable(alias, on) && alias != own && Joins(q, r, own, right, alias, on)
    ensures var result := Result(TwoMatches(own, alias, on), q, 0, 0);
            result.Some? && |result.value| > 1 && result.value[1] == Output.Whole(LeftRow(own, alias, on))
  {
    var db := TwoMatches(own, alias, on);
    PairsHold(own, alias, on);
    SecondRow(db, q, LeftRow(own, alias, on), RightRow(own, alias, on));
    PlainResult(db, q, FromRows(db, q, |q.joins|), 1);
  }

  // --- exactly when the two agree ---

  lemma OwnColumnDiffers(
    r: RelationRef, own: string, right: RelationRef, alias: string, on: seq<JoinPair>, nullsLast: bool)
    returns (db: Db)
    requires Joinable(alias, on) && alias != own && !ComparesOther(own, alias, on)
    ensures Renderable(JoinClauses(r, own, right, alias, on))
    ensures var c := JoinClauses(r, own, right, alias, on);
            Ordered(db) && Result(db, QueryOf(c, nullsLast), LimitOf(c), OffsetOf(c)) !=
                Some(Outputs(Eval(db, JoinRead(r, own, right, alias, on))))
  {
    db := TwoMatches(own, alias, on);
    AllTablesOrdered(db.table(r), Null);
    JoinQuery(r, own, right, alias, on, nullsLast);
    StatementSecond(QueryOf(JoinClauses(r, own, right, alias, on), nullsLast), r, own, right, alias, on);
    ChainSecond(r, own, right, alias, on);
    var i :| 0 <= i < |on| && OwnColumn(own, alias, on[i].left);
    LeftColumns(own, alias, on, i);
    RightColumns(own, alias, on, i);
  }

  /** Two relations of one name are refused. */
  lemma OwnAliasRefused(db: Db, r: RelationRef, own: string, right: RelationRef, on: seq<JoinPair>, nullsLast: bool)
    requires Joinable(own, on)
    ensures Renderable(JoinClauses(r, own, right, own, on))
    ensures var c := JoinClauses(r, own, right, own, on);
                Result(db, QueryOf(c, nullsLast), LimitOf(c), OffsetOf(c)).None?
  {
    JoinQuery(r, own, right, own, on, nullsLast);
    var q := QueryOf(JoinClauses(r, own, right, own, on), nullsLast);
    assert q.joins[0].alias == q.alias;
  }

  /** A join of two relations, or of one with itself, means in SQL what it means
      as a chain exactly when its alias is not the read's own and it compares no
      column of the relation it joins with another of its own. */
  lemma JoinExact(r: RelationRef, own: string, right: RelationRef, alias: string, on: seq<JoinPair>, nullsLast: bool)
    requires Joinable(alias, on)
    ensures var e, c := JoinRead(r, own, right, alias, on), JoinClauses(r, own, right, alias, on);
            FlattenInput(e) == Ok(c) && Renderable(c) &&
                (Agrees(e, nullsLast) <==> alias != own && ComparesOther(own, alias, on))
  {
    var e, c := JoinRead(r, own, right, alias, on), JoinClauses(r, own, right, alias, on);
    FlattenedJoin(r, own, right, alias, on);
    if alias == own {
      AllTablesOrdered([], Null);
      OwnAliasRefused(AllTables([], Null), r, own, right, on, nullsLast);
    } else if !ComparesOther(own, alias, on) {
      var db := OwnColumnDiffers(r, own, right, alias, on, nullsLast);
    } else {
      JoinPlaced(r, own, right, alias, on);
      forall db | Ordered(db)
        ensures Result(db, QueryOf(c, nullsLast), LimitOf(c), OffsetOf(c)) == Some(Outputs(Eval(db, e)))
      {
        SelectKeepsMeaning(db, e, nullsLast);
      }
    }
  }

  // --- a join that names a later one ---

  function JoinsRead(r: RelationRef, own: string, joins: seq<JoinPart>): Expr {
    if joins == [] then Scan(r, own)
    else
      var j := joins[|joins|-1];
      Join(JoinsRead(r, own, joins[..|joins|-1]), j.right, j.alias, j.on, j.pred)
  }

  function JoinsClauses(r: RelationRef, own: string, joins: seq<JoinPart>): Clauses {
    NO_CLAUSES.(relation := r, scanAlias := own, joins := joins, rank := if joins == [] then 0 else 1)
  }

  /** What the renderer asks of joins: aliases of their own, pairs, and no EXISTS. */
  predicate AllJoinable(joins: seq<JoinPart>) {
    && (forall i :: 0 <= i < |joins| ==> Joinable(joins[i].alias, joins[i].on) && !HasExists(joins[i].pred))
    && (forall i, k :: 0 <= i < k < |joins| ==> joins[i].alias != joins[k].alias)
  }

  lemma {:induction false} JoinsFlattened(r: RelationRef, own: string, joins: seq<JoinPart>)
    requires AllJoinable(joins)
    ensures FlattenInput(JoinsRead(r, own, joins)) == Ok(JoinsClauses(r, own, joins))
    ensures Renderable(JoinsClauses(r, own, joins)) && Shaped(JoinsRead(r, own, joins))
  {
    if joins != [] {
      var front, j := joins[..|joins|-1], joins[|joins|-1];
      JoinsFlattened(r, own, front);
      assert joins == front + [j];
      assert j.alias !in Aliases(front);
    }
  }

  /** A join compares no column of one that comes after it. */
  predicate NoneLater(c: Clauses) {
    forall i, m, n :: 0 <= i < m < |c.joins| && 0 <= n < |c.joins[i].on| ==>
      Col(NamesOf(c), c.joins[i].on[n].left).qualifier != c.joins[m].alias
  }

  /** Nothing else is wrong with the joins: no alias is the read's own, none
      compares its own column, and every name is cut to the alias it starts with. */
  predicate ElseSound(c: Clauses) {
    && (forall i :: 0 <= i < |c.joins| ==> c.joins[i].alias != c.scanAlias)
    && (forall i, n :: 0 <= i < |c.joins| && 0 <= n < |c.joins[i].on| ==>
          Col(NamesOf(c), c.joins[i].on[n].left).qualifier != c.joins[i].alias)
    && (forall i, n :: 0 <= i < |c.joins| && 0 <= n < |c.joins[i].on| ==>
          Clear(Aliases(c.joins[..i]), c.joins[i].on[n].left))
  }

  /** A relation named before it is joined is refused. */
  lemma LaterRefused(db: Db, r: RelationRef, own: string, joins: seq<JoinPart>, nullsLast: bool)
    requires AllJoinable(joins) && !NoneLater(JoinsClauses(r, own, joins))
    ensures var c := JoinsClauses(r, own, joins);
            Renderable(c) && Result(db, QueryOf(c, nullsLast), LimitOf(c), OffsetOf(c)).None?
  {
    hide Exposed, QueryOf, NamesOf;
    var c := JoinsClauses(r, own, joins);
    JoinsFlattened(r, own, joins);
    var i, m, n :| 0 <= i < m < |joins| && 0 <= n < |joins[i].on| &&
                   Col(NamesOf(c), joins[i].on[n].left).qualifier == joins[m].alias;
    NotExposed(c, nullsLast, i, m, n);
  }

  lemma NotExposed(c: Clauses, nullsLast: bool, i: nat, m: nat, n: nat)
    requires Renderable(c) && i < m < |c.joins| && n < |c.joins[i].on|
    requires Col(NamesOf(c), c.joins[i].on[n].left).qualifier == c.joins[m].alias
    ensures !Exposed(QueryOf(c, nullsLast))
  {
    hide NamesOf, Renderable;
    var q := QueryOf(c, nullsLast);
    assert q.joins[i].on[n].left.qualifier == q.joins[m].alias;
  }

  /** Any number of joins, otherwise sound, mean in SQL what they mean as a chain
      exactly when none compares a column of one that comes after it. */
  lemma ScopeExact(r: RelationRef, own: string, joins: seq<JoinPart>, nullsLast: bool)
    requires AllJoinable(joins) && ElseSound(JoinsClauses(r, own, joins))
    ensures var e, c := JoinsRead(r, own, joins), JoinsClauses(r, own, joins);
            FlattenInput(e) == Ok(c) && Renderable(c) && (Agrees(e, nullsLast) <==> NoneLater(c))
  {
    hide Result, QueryOf, Eval, Outputs, NamesOf;
    var e, c := JoinsRead(r, own, joins), JoinsClauses(r, own, joins);
    JoinsFlattened(r, own, joins);
    if NoneLater(c) {
      assert JoinsInScope(c) && Unambiguous(c);
      forall db | Ordered(db)
        ensures Result(db, QueryOf(c, nullsLast), LimitOf(c), OffsetOf(c)) == Some(Outputs(Eval(db, e)))
      {
        SelectKeepsMeaning(db, e, nullsLast);
      }
    } else {
      AllTablesOrdered([], Null);
      LaterRefused(AllTables([], Null), r, own, joins, nullsLast);
    }
  }
}
