/** From plan to rows: the text and arguments a plan is compiled to, read as SQL
    gives the plan's meaning. */
module Execution {
  import opened Relalg
  import opened SqlSelect
  import opened Flatten
  import opened Resolve
  import opened Printing
  import opened Parsing
  import opened Statement
  import opened StatementParsing
  import opened StatementRoundTrip
  import opened ReadMeaning
  import opened Validate
  import opened Render
  import SelectCorrect
  import SelectOrder
  import opened ReadBack
  import opened Compile
  import opened Gate

  // --- what is accepted reads back ---

  lemma {:induction false} EachIsValid(ps: seq<Predicate>, maxIn: int)
    requires ValidEach(ps, maxIn) && NoneNil(ps)
    ensures ValidAll(ps, maxIn)
  {
    if ps != [] {
      EachIsValid(ps[1..], maxIn);
    }
  }

  predicate EachHasPairs(joins: seq<JoinPart>) {
    forall i :: 0 <= i < |joins| ==> joins[i].on != []
  }

  lemma {:induction false} FlattenedPairs(e: Expr)
    requires FlattenInput(e).Ok?
    ensures EachHasPairs(FlattenInput(e).value.joins)
  {
    match e
    case Scan(_, _) =>
    case Select(input, _) => FlattenedPairs(input);
    case Project(input, _) => FlattenedPairs(input);
    case Aggregate(input, _, _) => FlattenedPairs(input);
    case Having(input, _) => FlattenedPairs(input);
    case Sort(input, _) => FlattenedPairs(input);
    case Limit(input, _, _) => FlattenedPairs(input);
    case Distinct(input) => FlattenedPairs(input);
    case Join(input, _, _, _, _) => FlattenedPairs(input);
  }

  lemma JoinIsProper(ns: Names, j: JoinPart, maxIn: int)
    requires ValidJoin(j, maxIn) && j.on != []
    ensures ProperJoin(WrittenJoin(ns, j))
  {
    if !j.pred.Nil? {
      ValidIsProper(ns, [], j.alias, j.pred, 0, maxIn);
    }
  }

  lemma {:induction false} JoinsAreProper(ns: Names, joins: seq<JoinPart>, maxIn: int)
    requires ValidJoins(joins, maxIn) && EachHasPairs(joins)
    ensures ProperJoins(WrittenJoins(ns, joins))
  {
    if joins != [] {
      JoinIsProper(ns, joins[0], maxIn);
      JoinsAreProper(ns, joins[1..], maxIn);
      assert WrittenJoins(ns, joins)[1..] == WrittenJoins(ns, joins[1..]);
    }
  }

  lemma {:induction false} OrderIsProper(ns: Names, calls: seq<AggCall>, nullsLast: bool, order: seq<OrderTerm>)
    ensures forall i :: 0 <= i < |SortItems(ns, calls, nullsLast, order)| ==>
              ProperColumn(SortItems(ns, calls, nullsLast, order)[i].column)
  {
    if order != [] {
      OrderIsProper(ns, calls, nullsLast, order[1..]);
      assert ProperColumn(OutputColumn(ns, calls, order[0].field));
    }
  }

  lemma ListIsProper(c: Clauses)
    ensures ProperList(ListOf(c))
  {
  }

  lemma HavingIsProper(ns: Names, calls: seq<AggCall>, p: Predicate, k: nat, maxIn: int)
    requires Valid(p, maxIn)
    ensures var q := Written(ns, calls, "", p, k).0; q.SqlNil? || Proper(q)
  {
    if !p.Nil? {
      ValidIsProper(ns, calls, "", p, k, maxIn);
    }
  }

  lemma AcceptedIsProper(c: Clauses, maxIn: int, nullsLast: bool)
    requires Accepted(c, maxIn) && NoneNil(c.wheres) && EachHasPairs(c.joins)
    ensures ProperQuery(WrittenQuery(c, nullsLast))
  {
    var ns := NamesOf(c);
    EachIsValid(c.wheres, maxIn);
    AllValidProper(ns, [], "", c.wheres, 0, maxIn);
    JoinsAreProper(ns, c.joins, maxIn);
    HavingIsProper(ns, c.aggregates, c.having, WhereCount(c), maxIn);
    ListIsProper(c);
    OrderIsProper(ns, c.aggregates, nullsLast, c.order);
  }

  // --- reads ---

  /** What a database makes of a text: the statement it is, and no more text. */
  function ReadText(t: Rendering): Option<Command> {
    var r := ParseCommand(Onto(t.sql, End), t.args);
    if r.Done? && r.rest.End? then Some(r.value) else None
  }

  /** The result of a SELECT; None for another statement. */
  ghost function RowsOf(db: Db, c: Option<Command>): Option<seq<Output>> {
    if c.Some? && c.value.Reads? then Result(db, c.value.query, c.value.limit, c.value.offset) else None
  }

  lemma ProperTextMeans(db: Db, q: Query, limit: int, offset: int)
    requires ProperQuery(q)
    ensures RowsOf(db, ReadText(OfQuery(q, limit, offset))) == Result(db, q, limit, offset)
  {
    hide ProperQuery, Result, ParseCommand, PrintQuery, QueryArgs, PrintBase, ReadQuery, ReadLimit, ReadOffset;
    QueryReadsBack(q, limit, offset);
    ReadBackMeans(db, q, limit, offset);
  }

  /** Whatever the limit, the text of a query an accepted read resolves to has,
      read as SQL, the query's result. */
  lemma TextMeans(db: Db, e: Expr, maxIn: int, nullsLast: bool, limit: int, offset: int)
    requires FlattenInput(e).Ok? && Accepted(FlattenInput(e).value, maxIn) && Renderable(FlattenInput(e).value)
    ensures var q := QueryOf(FlattenInput(e).value, nullsLast);
            RowsOf(db, ReadText(OfQuery(q, limit, offset))) == Result(db, q, limit, offset)
  {
    hide FlattenInput, Accepted, Renderable, QueryOf, RowsOf, ReadText, OfQuery, Result, ProperQuery, WrittenQuery;
    var c := FlattenInput(e).value;
    FlattenedShape(e);
    FlattenedPairs(e);
    AcceptedWritten(c, maxIn, nullsLast);
    AcceptedIsProper(c, maxIn, nullsLast);
    ProperTextMeans(db, QueryOf(c, nullsLast), limit, offset);
  }

  lemma RenderedAccepted(e: Expr, maxIn: int, nullsLast: bool, returning: seq<string>)
    requires IsRead(e) && Rendered(e, maxIn, nullsLast, returning).Some?
    ensures FlattenInput(e).Ok? && Accepted(FlattenInput(e).value, maxIn)
  {
  }

  /** The text and arguments a read is compiled to, read as SQL, give the rows
      the plan means node by node, in order: on every database and dialect. */
  lemma CompiledReadMeans(db: Db, e: Expr, maxIn: int, nullsLast: bool, returning: seq<string>)
    requires IsRead(e) && Rendered(e, maxIn, nullsLast, returning).Some? && SelectOrder.Ordered(db) && Shaped(e)
    requires FlattenInput(e).Ok? && SelectCorrect.Unambiguous(FlattenInput(e).value)
    ensures RowsOf(db, ReadText(Rendered(e, maxIn, nullsLast, returning).value)) == Some(Outputs(Eval(db, e)))
  {
    hide FlattenInput, Accepted, Renderable, QueryOf, RowsOf, ReadText, OfQuery, Result, Rendered, Shaped;
    hide SelectCorrect.Unambiguous;
    var q, limit, offset := ReadMeans(e, maxIn, nullsLast, returning, db);
    RenderedAccepted(e, maxIn, nullsLast, returning);
    TextMeans(db, e, maxIn, nullsLast, limit, offset);
  }

  /** The text the gate lets run under a row cap gives, read as SQL, a prefix, at
      most the cap long, of the rows the text it was asked about gives, and all of
      them when they fit: whatever the plan, the database and the dialect. */
  lemma AdmittedTextIsPrefix(
    th: Threshold, rejected: Compiled -> bool, allowed: Compiled -> bool, explain: Option<Compiled -> Explained>,
    t: Tightening, c: Compiled, nullsLast: bool, returning: seq<string>, maxIn: int, pk: seq<string>,
    keys: Option<seq<seq<string>>>, db: Db)
    requires th.maxRows > 0 && IsRead(c.expr) && CompiledOf(c, c.expr, nullsLast, returning, maxIn, pk, keys)
    requires var r := Judged(th, rejected, allowed, explain, t, c); r.Some? && r.value.allow
    ensures var v := Judged(th, rejected, allowed, explain, t, c).value;
            var rows, all := RowsOf(db, ReadText(Admitted(c, v).text)), RowsOf(db, ReadText(c.text));
            && (rows.Some? <==> all.Some?)
            && (all.Some? ==> && |rows.value| <= th.maxRows && rows.value <= all.value
                              && (|all.value| <= th.maxRows ==> rows == all))
  {
    hide Judged, FlattenInput, Accepted, Renderable, QueryOf, RowsOf, ReadText, OfQuery, Result, Rendered, Admitted;
    ReadKind(c, nullsLast, returning, maxIn, pk, keys);
    AdmittedQuery(th, rejected, allowed, explain, t, c, nullsLast, returning, maxIn);
    RenderedAccepted(c.expr, maxIn, nullsLast, returning);
    var f := FlattenInput(c.expr).value;
    TextMeans(db, c.expr, maxIn, nullsLast, LimitOf(f), OffsetOf(f));
    TextMeans(db, c.expr, maxIn, nullsLast, Capped(LimitOf(f), th.maxRows), OffsetOf(f));
    CapRowsPrefix(db, QueryOf(f, nullsLast), LimitOf(f), OffsetOf(f), th.maxRows);
  }

  /** So it gives a prefix of the rows the plan means. */
  lemma AdmittedTextMeans(
    th: Threshold, rejected: Compiled -> bool, allowed: Compiled -> bool, explain: Option<Compiled -> Explained>,
    t: Tightening, c: Compiled, nullsLast: bool, returning: seq<string>, maxIn: int, pk: seq<string>,
    keys: Option<seq<seq<string>>>, db: Db)
    requires th.maxRows > 0 && IsRead(c.expr) && CompiledOf(c, c.expr, nullsLast, returning, maxIn, pk, keys)
    requires var r := Judged(th, rejected, allowed, explain, t, c); r.Some? && r.value.allow
    requires FlattenInput(c.expr).Ok? && SelectOrder.Ordered(db) && Shaped(c.expr)
    requires SelectCorrect.Unambiguous(FlattenInput(c.expr).value)
    ensures var v := Judged(th, rejected, allowed, explain, t, c).value;
            var rows, all := RowsOf(db, ReadText(Admitted(c, v).text)), Outputs(Eval(db, c.expr));
            rows.Some? && |rows.value| <= th.maxRows && rows.value <= all && (|all| <= th.maxRows ==> rows.value == all)
  {
    hide Judged, FlattenInput, RowsOf, ReadText, Rendered, Admitted, Shaped, SelectCorrect.Unambiguous;
    AdmittedTextIsPrefix(th, rejected, allowed, explain, t, c, nullsLast, returning, maxIn, pk, keys, db);
    CompiledReadMeans(db, c.expr, maxIn, nullsLast, returning);
  }

  // --- writes ---

  /** p is true of the rows a plan's predicate is, where no EXISTS compares a
      column its own relation has. */
  ghost predicate Bounds(p: SqlPredicate, pred: Predicate) {
    forall db, row :: SelectCorrect.Unshadowed(db, BARE, pred) ==>
      Truth3(db, "", RowCtx(map["" := row]), p) == Meaning(db, Env(row, map[]), pred)
  }

  /** What a write or a call says, as SQL says it. */
  ghost predicate Says(c: Command, e: Expr, returning: seq<string>) {
    match e
    case Insert(target, columns, tuples) => c == Inserts(target, columns, tuples, returning)
    case Update(target, pred, sets) => c.Updates? && c.target == target && c.sets == sets && Bounds(c.pred, pred)
    case Delete(target, pred) => c.Deletes? && c.target == target && Bounds(c.pred, pred)
    case Call(procedure, args) => c == Calls(procedure, args)
    case _ => false
  }

  lemma WrittenBounds(pred: Predicate, maxIn: int)
    requires Valid(pred, maxIn) && !pred.Nil?
    ensures var q := Written(BARE, [], "", pred, 0).0; Proper(q) && Bounds(Unwrapped(q), pred)
  {
    var q := Written(BARE, [], "", pred, 0).0;
    ValidIsProper(BARE, [], "", pred, 0, maxIn);
    ValidIsWritable(pred, false, maxIn);
    WrittenResolved(BARE, [], pred, 0);
    forall db, row | SelectCorrect.Unshadowed(db, BARE, pred)
      ensures Truth3(db, "", RowCtx(map["" := row]), Unwrapped(q)) == Meaning(db, Env(row, map[]), pred)
    {
      UnwrappedMeans(db, "", RowCtx(map["" := row]), q);
      WriteMeans(db, row, pred, 0);
    }
  }

  /** The text and arguments of a write or a call, read as SQL, are that write:
      each column with its own value, each row it is bounded to. */
  lemma CompiledWriteMeans(e: Expr, maxIn: int, nullsLast: bool, returning: seq<string>)
    requires !IsRead(e) && Rendered(e, maxIn, nullsLast, returning).Some?
    ensures var c := ReadText(Rendered(e, maxIn, nullsLast, returning).value);
            c.Some? && Says(c.value, e, returning)
  {
    match e
    case Insert(target, columns, tuples) => InsertReadsBack(target, columns, tuples, returning);
    case Update(target, pred, sets) =>
      WrittenBounds(pred, maxIn);
      UpdateReadsBack(target, sets, Written(BARE, [], "", pred, 0).0);
    case Delete(target, pred) =>
      WrittenBounds(pred, maxIn);
      DeleteReadsBack(target, Written(BARE, [], "", pred, 0).0);
    case Call(procedure, args) => CallReadsBack(procedure, args);
  }
}
