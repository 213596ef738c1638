/** Where a dotted alias and its statement part: the columns of a join are named
    alias.column, and a name is cut at its first dot, so those of a join whose
    alias holds a dot are taken for the read's own. */
module AliasExactness {
  import opened Lists
  import opened Relalg
  import opened SqlSelect
  import opened Flatten
  import opened Resolve
  import opened SelectCorrect
  import opened SelectOrder
  import opened SelectMain
  import opened Witnesses
  import opened JoinExactness
  import opened ExistsExactness

  function Present(field: string): Predicate {
    Condition(field, IsNotNull, Scalar(Value.Null))
  }

  /** A join, and of its rows those that have field. */
  function JoinHaving(
    r: RelationRef, own: string, right: RelationRef, alias: string, on: seq<JoinPair>, field: string): Expr
  {
    Select(JoinRead(r, own, right, alias, on), Present(field))
  }

  function JoinHavingClauses(
    r: RelationRef, own: string, right: RelationRef, alias: string, on: seq<JoinPair>, field: string): Clauses
  {
    JoinClauses(r, own, right, alias, on).(wheres := [Present(field)], rank := 2)
  }

  lemma JoinHavingFlattened(
    r: RelationRef, own: string, right: RelationRef, alias: string, on: seq<JoinPair>, field: string)
    requires JoinsOther(own, alias, on)
    ensures var e, c := JoinHaving(r, own, right, alias, on, field), JoinHavingClauses(r, own, right, alias, on, field);
            FlattenInput(e) == Ok(c) && Shaped(e) && Filtered(c, Present(field)) && Renderable(c)
  {
    FlattenedJoin(r, own, right, alias, on);
    assert [] + [Present(field)] == [Present(field)];
  }

  lemma JoinHavingNamed(
    r: RelationRef, own: string, right: RelationRef, alias: string, on: seq<JoinPair>, field: string)
    requires JoinsOther(own, alias, on)
    ensures var c := JoinHavingClauses(r, own, right, alias, on, field);
            NamesOf(c) == Names(RootOf(own), {alias}) && FromAlias(c) == RootOf(own) && JoinsSound(c)
  {
    JoinNames(r, own, right, alias, on);
    JoinPlaced(r, own, right, alias, on);
    var c := JoinHavingClauses(r, own, right, alias, on, field);
    assert NamesOf(c) == Names(RootOf(own), {alias});
  }

  lemma JoinHavingPlaced(
    r: RelationRef, own: string, right: RelationRef, alias: string, on: seq<JoinPair>, field: string)
    requires JoinsOther(own, alias, on) && Clear({alias}, field)
    ensures Unambiguous(JoinHavingClauses(r, own, right, alias, on, field))
  {
    var c := JoinHavingClauses(r, own, right, alias, on, field);
    JoinHavingNamed(r, own, right, alias, on, field);
    assert c.wheres == [Present(field)] && c.wheres[1..] == [];
    assert ClearIn({alias}, Present(field)) && ClearInAll({alias}, c.wheres[1..]);
    assert UncapturedAll(NamesOf(c), c.wheres, 0);
  }

  // --- one row that has the field ---

  function OneRow(field: string): Db {
    AllTables([map[field := Num(1.0)]], Null)
  }

  /** Such a field is the row's own to the statement. */
  lemma TakenForOwn(own: string, alias: string, field: string)
    requires !Clear({alias}, field)
    ensures Col(Names(RootOf(own), {alias}), field) == Column(RootOf(own), field)
  {
  }

  /** The joined row, if there is one, has no column but field. */
  lemma NoneJoined(db: Db, c: Clauses, field: string, x: Record)
    requires db == OneRow(field) && |c.joins| == 1 && x in Sources(db, c, 1)
    ensures x.env.own == map[field := Num(1.0)] && x.env.joined.Keys == {c.joins[0].alias}
    ensures x.env.joined[c.joins[0].alias] == map[] || x.env.joined[c.joins[0].alias] == map[field := Num(1.0)]
  {
    hide JoinPartRow, Sources;
    SourcesStep(db, c, 1);
    var y := FlatMapMember(JoinPartRow(db, c.joins[0]), Sources(db, c, 0), x);
    ScannedOnly(db, c, field, y);
    var row := RowJoined(db, c.joins[0], y, x);
  }

  lemma ScannedOnly(db: Db, c: Clauses, field: string, y: Record)
    requires db == OneRow(field) && y in Sources(db, c, 0)
    ensures y == ScannedRow(map[field := Num(1.0)])
  {
    assert c.joins[..0] == [];
  }

  lemma RowJoined(db: Db, j: JoinPart, y: Record, x: Record) returns (row: Row)
    requires x in JoinPartRow(db, j)(y)
    ensures (row == map[] || row in db.table(j.right)) && x == Joining(y, j.alias)(row)
  {
    var found := OrNone(Filter(Matching(db, y.env, j.on, j.pred), db.table(j.right)));
    var i :| 0 <= i < |found| && x == Map(Joining(y, j.alias), found)[i];
    row := found[i];
    assert row in found;
  }

  lemma LookedUpNull(db: Db, c: Clauses, field: string, x: Record)
    requires db == OneRow(field) && |c.joins| == 1 && x in Sources(db, c, 1) && !Clear({c.joins[0].alias}, field)
    ensures Lookup(x.env, field) == Null
  {
    var alias := c.joins[0].alias;
    NoneJoined(db, c, field, x);
    LookupOnly(x.env, field, alias);
    assert |field[|alias| + 1..]| < |field|;
  }

  lemma OneJoined(db: Db, c: Clauses, field: string) returns (x: Record)
    requires db == OneRow(field) && |c.joins| == 1
    ensures x in Sources(db, c, 1)
  {
    var y := ScannedRow(map[field := Num(1.0)]);
    assert c.joins[..0] == [];
    assert Sources(db, c, 0)[0] == y;
    x := JoinPartRow(db, c.joins[0])(y)[0];
    SourcesStep(db, c, 1);
    FlatMapHas(JoinPartRow(db, c.joins[0]), Sources(db, c, 0), y, x);
  }

  /** The statement returns the row, which has the field; the chain none, whose
      joined row has no such column. */
  lemma DottedDiffers(
    r: RelationRef, own: string, right: RelationRef, alias: string, on: seq<JoinPair>, field: string, nullsLast: bool)
    requires JoinsOther(own, alias, on) && !Clear({alias}, field)
    ensures var e, c := JoinHaving(r, own, right, alias, on, field), JoinHavingClauses(r, own, right, alias, on, field);
            Renderable(c) && Ordered(OneRow(field)) &&
            Result(OneRow(field), QueryOf(c, nullsLast), LimitOf(c), OffsetOf(c)) !=
                Some(Outputs(Eval(OneRow(field), e)))
  {
    hide JoinsSound, Sources, Outputs, Eval, Result, QueryOf;
    var e, c := JoinHaving(r, own, right, alias, on, field), JoinHavingClauses(r, own, right, alias, on, field);
    var db := OneRow(field);
    AllTablesOrdered(db.table(r), Null);
    JoinHavingFlattened(r, own, right, alias, on, field);
    JoinHavingNamed(r, own, right, alias, on, field);
    var x := OneJoined(db, c, field);
    forall y | y in Sources(db, c, 1) ensures Meaning(db, y.env, Present(field)) != True {
      LookedUpNull(db, c, field, y);
    }
    NoneJoined(db, c, field, x);
    TakenForOwn(own, alias, field);
    RowTells(db, e, c, Present(field), x, nullsLast);
  }

  /** A join and a condition on its rows mean in SQL what they mean as a chain
      exactly when the field it names does not start with a dotted alias. */
  lemma DottedExact(
    r: RelationRef, own: string, right: RelationRef, alias: string, on: seq<JoinPair>, field: string, nullsLast: bool)
    requires JoinsOther(own, alias, on)
    ensures var e, c := JoinHaving(r, own, right, alias, on, field), JoinHavingClauses(r, own, right, alias, on, field);
            FlattenInput(e) == Ok(c) && Renderable(c) &&
                (Agrees(e, nullsLast) <==> DotFree(alias) || !(alias + "." <= field))
  {
    var e, c := JoinHaving(r, own, right, alias, on, field), JoinHavingClauses(r, own, right, alias, on, field);
    JoinHavingFlattened(r, own, right, alias, on, field);
    if Clear({alias}, field) {
      JoinHavingPlaced(r, own, right, alias, on, field);
      forall db | Ordered(db)
        ensures Result(db, QueryOf(c, nullsLast), LimitOf(c), OffsetOf(c)) == Some(Outputs(Eval(db, e)))
      {
        SelectKeepsMeaning(db, e, nullsLast);
      }
    } else {
      DottedDiffers(r, own, right, alias, on, field, nullsLast);
    }
  }
}
