/** Where a condition in HAVING and its statement part: it names a group-by field
    or a call, and a name that is neither is nothing to the chain and a column to
    the statement. */
module HavingExactness {
  import opened Lists
  import opened Relalg
  import opened SqlSelect
  import opened Flatten
  import opened Resolve
  import opened SelectCorrect
  import opened SelectGroups
  import opened SelectOrder
  import opened SelectMain
  import opened Witnesses
  import opened ExistsExactness

  // --- a value that tells a column from nothing ---

  function Length(v: Value): nat {
    if v.Text? then |v.s| else 0
  }

  function Longest(vs: seq<Value>): (n: nat)
    ensures forall i :: 0 <= i < |vs| ==> Length(vs[i]) <= n
  {
    if vs == [] then 0
    else
      var n := Longest(vs[1..]);
      assert forall i :: 0 < i < |vs| ==> vs[i] == vs[1..][i-1];
      if Length(vs[0]) > n then Length(vs[0]) else n
  }

  /** A text none of vs is. */
  function Other(vs: seq<Value>): (v: Value)
    ensures !v.Null? && v !in vs
  {
    var v := Text(seq(Longest(vs) + 1, _ => 'x'));
    assert forall i :: 0 <= i < |vs| ==> Length(vs[i]) < Length(v);
    v
  }

  /** A value a condition is true of and not of NULL, or the other way round. */
  ghost function Telling(op: Op, operand: Operand): (v: Value)
    requires !Blind(op, operand)
    ensures op.In? ==> v in operand.values && !v.Null?
  {
    match op
    case In => var i :| 0 <= i < |operand.values| && !operand.values[i].Null?; operand.values[i]
    case NotIn => Other(operand.values)
    case Ne => Other([operand.value])
    case Gt => if operand.value.Text? then Text(operand.value.s + "x") else Text("")
    case Lt => if operand.value.Num? then Num(operand.value.n - 1.0) else Num(0.0)
    case Eq => operand.value
    case Gte => operand.value
    case Lte => operand.value
    case _ => Num(1.0)
  }

  lemma {:induction false} LongerIsGreater(s: string, t: string)
    requires t == s + "x"
    ensures !ValueLe(Text(t), Text(s))
  {
    if s != [] {
      assert t[1..] == s[1..] + "x";
      LongerIsGreater(s[1..], t[1..]);
    }
  }

  lemma InTells(db: Db, values: seq<Value>, i: nat)
    requires i < |values| && !values[i].Null?
    ensures InList(db, values[i], values) == True && InList(db, Null, values) != True
  {
    var ts, us := Map(w => Compare(db, Eq, values[i], w), values), Map(w => Compare(db, Eq, Null, w), values);
    OrAllTrue(ts);
    OrAllTrue(us);
    assert ts[i] == True;
  }

  lemma {:induction false} NoneTrue(ts: seq<Truth>)
    requires forall i :: 0 <= i < |ts| ==> ts[i] == False
    ensures OrAll(ts) == False
  {
    if ts != [] {
      NoneTrue(ts[1..]);
    }
  }

  lemma NotInTells(db: Db, values: seq<Value>)
    requires values != [] && forall i :: 0 <= i < |values| ==> !values[i].Null?
    ensures InList(db, Other(values), values) == False && InList(db, Null, values) != False
  {
    NoneTrue(Map(w => Compare(db, Eq, Other(values), w), values));
    var us := Map(w => Compare(db, Eq, Null, w), values);
    assert us[0] == Unknown;
    OrAllFalse(us, 0);
  }

  lemma TellingTells(rows: seq<Row>, v: Value, op: Op, operand: Operand)
    requires !Blind(op, operand)
    ensures var db := AllTables(rows, v);
            (ConditionTruth(db, Telling(op, operand), op, operand) == True) !=
                (ConditionTruth(db, Null, op, operand) == True)
  {
    var db := AllTables(rows, v);
    match op
    case In =>
      var known := Telling(op, operand);
      assert known in operand.values && !known.Null?;
      var i :| 0 <= i < |operand.values| && operand.values[i] == known;
      InTells(db, operand.values, i);
    case NotIn => NotInTells(db, operand.values);
    case Gt =>
      if operand.value.Text? {
        LongerIsGreater(operand.value.s, operand.value.s + "x");
      }
    case Gte => ValueLeTotalOrder();
    case Lte => ValueLeTotalOrder();
    case _ =>
  }

  // --- a condition in HAVING ---

  function HavingOn(r: RelationRef, own: string, groupBy: seq<string>, calls: seq<AggCall>, p: Predicate): Expr {
    Having(Aggregate(Scan(r, own), groupBy, calls), p)
  }

  function HavingOnClauses(
    r: RelationRef, own: string, groupBy: seq<string>, calls: seq<AggCall>, p: Predicate): Clauses
  {
    NO_CLAUSES.(relation := r, scanAlias := own, groupBy := groupBy, aggregates := calls, having := p, rank := 4)
  }

  lemma HavingOnFlattened(r: RelationRef, own: string, groupBy: seq<string>, calls: seq<AggCall>, p: Predicate)
    requires (groupBy != [] || calls != []) && p.Condition?
    ensures var e, c := HavingOn(r, own, groupBy, calls, p), HavingOnClauses(r, own, groupBy, calls, p);
            && FlattenInput(e) == Ok(c) && Shaped(e) && Renderable(c) && NamesSound(c) && OnlyGroups(c)
            && NamesOf(c) == Names("", {}) && FromAlias(c) == own
  {
    var scanned := NO_CLAUSES.(relation := r, scanAlias := own);
    assert FlattenInput(Scan(r, own)) == Ok(scanned);
    assert FlattenInput(Aggregate(Scan(r, own), groupBy, calls)) ==
           Ok(scanned.(groupBy := groupBy, aggregates := calls, rank := 3));
    assert Shaped(Aggregate(Scan(r, own), groupBy, calls));
    assert Aliases([]) == {};
  }

  /** One row that has v in field, and 1 in every other field of names. */
  function RowWith(names: seq<string>, field: string, v: Value): Row {
    Const(set i | 0 <= i < |names| :: names[i], Num(1.0))[field := v]
  }

  lemma OneGroup(groupBy: seq<string>, x: Record)
    ensures Groups(groupBy, [x]) == [[x]]
  {
    if groupBy != [] {
      var f := KeyOf(groupBy);
      assert [x] == [] + [x];
      DedupSnoc(f, [], x);
      FilterSnoc(InGroup(groupBy, Lookups(x.env, groupBy)), [], x);
      assert Dedup(f, [x]) == [x];
      assert GroupOf(groupBy, [x])(x) == [x];
    }
  }

  lemma OnePair(db: Db, c: Clauses, row: Row)
    requires Aggregates(c) && c.joins == [] && c.wheres == [] && db.table(c.relation) == [row]
    ensures Pairs(db, c) == [GroupPair(db, c)([ScannedRow(row)])]
  {
    assert ScanRows(db, c.relation) == [ScannedRow(row)];
    OneGroup(c.groupBy, ScannedRow(row));
  }

  /** What the statement sees under a name that is no call's. */
  lemma ColumnSeen(db: Db, c: Clauses, row: Row, name: string)
    requires NamesOf(c) == Names("", {})
    ensures Col(NamesOf(c), name) == Column("", name)
    ensures Named(c.aggregates, name) < 0 ==> OutputColumn(NamesOf(c), c.aggregates, name) == Column("", name)
    ensures ColumnValue(db, FromAlias(c), GroupPair(db, c)([ScannedRow(row)]).ctx, Column("", name)) == Get(row, name)
  {
    assert Map(Framed(FromAlias(c)), [ScannedRow(row)])[0] == FramesOf(FromAlias(c), Env(row, map[]));
  }

  /** To the chain a name that is no output is nothing, to the statement a column
      of the group's row. */
  lemma SeesColumn(db: Db, c: Clauses, row: Row, field: string)
    requires NamesOf(c) == Names("", {}) && !OutputName(c, field)
    ensures var z := GroupPair(db, c)([ScannedRow(row)]);
            && Lookup(z.rec.env, field) == Null
            && ColumnValue(db, FromAlias(c), z.ctx, OutputColumn(NamesOf(c), c.aggregates, field)) == Get(row, field)
  {
    var g := [ScannedRow(row)];
    GroupRowWithout(c.groupBy, GroupKey(c.groupBy, g), c.aggregates, CallValues(db, c.aggregates, g), field);
    ColumnSeen(db, c, row, field);
  }

  lemma CountTells(db: Db, e: Expr, c: Clauses, nullsLast: bool)
    requires FlattenInput(e) == Ok(c) && Shaped(e) && Renderable(c) && NamesSound(c) && OnlyGroups(c)
    requires |Filter(MeantKept(db, c), Pairs(db, c))| != |Filter(StatedKept(db, QueryOf(c, nullsLast)), Pairs(db, c))|
    ensures Result(db, QueryOf(c, nullsLast), LimitOf(c), OffsetOf(c)) != Some(Outputs(Eval(db, e)))
  {
    hide Result, QueryOf, NamesSound, Pairs, Eval;
    FlattenKeepsMeaning(db, e);
    StatementCounts(db, c, nullsLast);
    ChainCounts(db, c);
  }

  lemma OneKept<A(!new)>(p: A -> bool, q: A -> bool, x: A)
    requires p(x) != q(x)
    ensures |Filter(p, [x])| != |Filter(q, [x])|
  {
    assert [x] == [] + [x];
    FilterSnoc(p, [], x);
    FilterSnoc(q, [], x);
  }

  /** One row, whose value the condition tells from NULL. */
  ghost function TellingDb(groupBy: seq<string>, p: Predicate): Db
    requires p.Condition? && !Blind(p.op, p.operand)
  {
    AllTables([RowWith(groupBy, p.field, Telling(p.op, p.operand))], Null)
  }

  lemma ConditionTells(db: Db, c: Clauses, q: Query, row: Row)
    requires c.having.Condition? && NamesOf(c) == Names("", {}) && !OutputName(c, c.having.field)
    requires q.alias == FromAlias(c)
    requires q.having == Resolved(NamesOf(c), c.aggregates, c.having, 0).0
    requires (ConditionTruth(db, Get(row, c.having.field), c.having.op, c.having.operand) == True) !=
             (ConditionTruth(db, Null, c.having.op, c.having.operand) == True)
    ensures var z := GroupPair(db, c)([ScannedRow(row)]); MeantKept(db, c)(z) != StatedKept(db, q)(z)
  {
    hide NamesOf, FromAlias, OutputName, GroupPair, OutputColumn, ColumnValue, Lookup, ConditionTruth;
    SeesColumn(db, c, row, c.having.field);
  }

  lemma RowTold(db: Db, e: Expr, c: Clauses, nullsLast: bool, row: Row)
    requires FlattenInput(e) == Ok(c) && Shaped(e) && Renderable(c) && NamesSound(c) && OnlyGroups(c)
    requires c.having.Condition? && NamesOf(c) == Names("", {}) && !OutputName(c, c.having.field)
    requires Aggregates(c) && c.joins == [] && db.table(c.relation) == [row]
    requires (ConditionTruth(db, Get(row, c.having.field), c.having.op, c.having.operand) == True) !=
             (ConditionTruth(db, Null, c.having.op, c.having.operand) == True)
    ensures Result(db, QueryOf(c, nullsLast), LimitOf(c), OffsetOf(c)) != Some(Outputs(Eval(db, e)))
  {
    hide Result, Eval, Outputs, FlattenInput, Shaped, NamesSound, NamesOf, FromAlias, OutputName, GroupPair;
    hide Pairs, ConditionTruth, Resolved, LimitOf, OffsetOf, MeantKept, StatedKept;
    QueryClauses(c, nullsLast);
    HavingOf(c, nullsLast);
    OnePair(db, c, row);
    ConditionTells(db, c, QueryOf(c, nullsLast), row);
    OneKept(MeantKept(db, c), StatedKept(db, QueryOf(c, nullsLast)), GroupPair(db, c)([ScannedRow(row)]));
    CountTells(db, e, c, nullsLast);
  }

  lemma ConditionDiffers(
    r: RelationRef, own: string, groupBy: seq<string>, calls: seq<AggCall>, p: Predicate, nullsLast: bool)
    requires (groupBy != [] || calls != []) && p.Condition? && !Blind(p.op, p.operand)
    requires !OutputName(HavingOnClauses(r, own, groupBy, calls, p), p.field)
    ensures var e, c := HavingOn(r, own, groupBy, calls, p), HavingOnClauses(r, own, groupBy, calls, p);
            var db := TellingDb(groupBy, p);
            && Renderable(c) && Ordered(db)
            && Result(db, QueryOf(c, nullsLast), LimitOf(c), OffsetOf(c)) != Some(Outputs(Eval(db, e)))
  {
    hide Result, Eval, Outputs, FlattenInput, Shaped, NamesSound, NamesOf, FromAlias, OutputName;
    hide QueryOf, ConditionTruth;
    var e, c := HavingOn(r, own, groupBy, calls, p), HavingOnClauses(r, own, groupBy, calls, p);
    var db, row := TellingDb(groupBy, p), RowWith(groupBy, p.field, Telling(p.op, p.operand));
    AllTablesOrdered([row], Null);
    HavingOnFlattened(r, own, groupBy, calls, p);
    TellingTells([row], Null, p.op, p.operand);
    RowTold(db, e, c, nullsLast, row);
  }

  /** A condition on the groups of an aggregate means in SQL what it means as a
      chain exactly when it names a group-by field or a call, or is true of every
      value or of none. */
  lemma ConditionExact(
    r: RelationRef, own: string, groupBy: seq<string>, calls: seq<AggCall>, p: Predicate, nullsLast: bool)
    requires (groupBy != [] || calls != []) && p.Condition?
    ensures var e, c := HavingOn(r, own, groupBy, calls, p), HavingOnClauses(r, own, groupBy, calls, p);
            FlattenInput(e) == Ok(c) && Renderable(c) &&
            (Agrees(e, nullsLast) <==> OutputName(c, p.field) || Blind(p.op, p.operand))
  {
    var e, c := HavingOn(r, own, groupBy, calls, p), HavingOnClauses(r, own, groupBy, calls, p);
    HavingOnFlattened(r, own, groupBy, calls, p);
    if OutputName(c, p.field) || Blind(p.op, p.operand) {
      forall db | Ordered(db)
        ensures Result(db, QueryOf(c, nullsLast), LimitOf(c), OffsetOf(c)) == Some(Outputs(Eval(db, e)))
      {
        SelectKeepsMeaning(db, e, nullsLast);
      }
    } else {
      ConditionDiffers(r, own, groupBy, calls, p, nullsLast);
    }
  }
}
