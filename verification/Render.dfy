/** The renderer: it flattens a plan into the clauses of one statement and
    writes them part by part, appending text and arguments. */
module Render {
  import opened Texts
  import Lists
  import opened Buffers
  import opened Relalg
  import opened SqlSelect
  import opened Flatten
  import opened Resolve
  import opened Printing
  import opened Statement
  import opened Validate
  import opened Progress

  /** The calls by name, as they are written; the last of a name stands. */
  function OutputMap(ns: Names, calls: seq<AggCall>): map<string, seq<Token>> {
    if calls == [] then map[]
    else
      var before, last := OutputMap(ns, calls[..|calls|-1]), calls[|calls|-1];
      if last.name == "" then before else before[last.name := PrintColumn(CallColumn(ns, last))]
  }

  lemma {:induction false} OutputMapNamed(ns: Names, calls: seq<AggCall>, name: string)
    ensures name in OutputMap(ns, calls) <==> Named(calls, name) >= 0
    ensures name in OutputMap(ns, calls) ==>
              OutputMap(ns, calls)[name] == PrintColumn(CallColumn(ns, calls[Named(calls, name)]))
  {
    if calls != [] {
      OutputMapNamed(ns, calls[..|calls|-1], name);
    }
  }

  predicate ValidCall(a: AggCall) {
    !a.fn.OtherFunc? && (a.field != "" || a.fn.Count?)
  }

  predicate ValidCalls(cs: seq<AggCall>) {
    forall i :: 0 <= i < |cs| ==> ValidCall(cs[i])
  }

  // --- the statement of clauses ---

  function WrittenJoin(ns: Names, j: JoinPart): SqlJoin {
    SqlJoin(j.right, j.alias, OnPairs(ns, j.on), Written(ns, [], j.alias, j.pred, 0).0)
  }

  function WrittenJoins(ns: Names, joins: seq<JoinPart>): (js: seq<SqlJoin>)
    ensures |js| == |joins| && forall i :: 0 <= i < |joins| ==> js[i] == WrittenJoin(ns, joins[i])
  {
    seq(|joins|, i requires 0 <= i < |joins| => WrittenJoin(ns, joins[i]))
  }

  /** The statement written for c, accepted or not. */
  function WrittenQuery(c: Clauses, nullsLast: bool): Query {
    var ns := NamesOf(c);
    var (where, k) := WrittenAll(ns, [], "", c.wheres, 0);
    Query(c.relation, FromAlias(c), WrittenJoins(ns, c.joins), where, GroupColumns(ns, c.groupBy),
          Written(ns, c.aggregates, "", c.having, k).0, ListOf(c), c.distinct,
          SortItems(ns, c.aggregates, nullsLast, c.order))
  }

  predicate ValidJoin(j: JoinPart, maxIn: int) {
    Valid(j.pred, maxIn) && !HasExists(j.pred)
  }

  predicate ValidJoins(joins: seq<JoinPart>, maxIn: int) {
    joins == [] || (ValidJoin(joins[0], maxIn) && ValidJoins(joins[1..], maxIn))
  }

  predicate ValidEach(ps: seq<Predicate>, maxIn: int) {
    ps == [] || (Valid(ps[0], maxIn) && ValidEach(ps[1..], maxIn))
  }

  /** What is written without an error. */
  predicate Writes(c: Clauses, maxIn: int) {
    && ValidCalls(c.aggregates) && ValidJoins(c.joins, maxIn)
    && Writable(WhereOf(c.wheres), false, maxIn) && Writable(c.having, false, maxIn)
  }

  /** What the renderer accepts of the clauses of a chain. */
  predicate Accepted(c: Clauses, maxIn: int) {
    && ValidEach(c.wheres, maxIn)
    && Valid(c.having, maxIn)
    && ValidCalls(c.aggregates)
    && ValidJoins(c.joins, maxIn)
  }

  lemma {:induction false} ValidEachFlat(ps: seq<Predicate>, maxIn: int)
    requires ValidEach(ps, maxIn)
    ensures FlatAll(ps) && AllWritable(ps, false, maxIn)
  {
    if ps != [] {
      ValidIsWritable(ps[0], false, maxIn);
      ValidEachFlat(ps[1..], maxIn);
    }
  }

  predicate JoinsNamed(joins: seq<JoinPart>) {
    forall i :: 0 <= i < |joins| ==> joins[i].alias != ""
  }

  lemma {:induction false} ValidJoinsFlat(joins: seq<JoinPart>, maxIn: int)
    requires ValidJoins(joins, maxIn)
    ensures forall i :: 0 <= i < |joins| ==> !HasExists(joins[i].pred)
  {
    if joins != [] {
      ValidJoinsFlat(joins[1..], maxIn);
      assert joins == [joins[0]] + joins[1..];
    }
  }

  lemma JoinsWritten(ns: Names, joins: seq<JoinPart>)
    requires JoinsNamed(joins) && forall i :: 0 <= i < |joins| ==> !HasExists(joins[i].pred)
    ensures WrittenJoins(ns, joins) == SqlJoins(ns, joins)
  {
    forall i | 0 <= i < |joins| ensures WrittenJoins(ns, joins)[i] == SqlJoins(ns, joins)[i] {
      WrittenScoped(ns, [], joins[i].alias, joins[i].pred, 0);
    }
  }

  /** What is accepted is written as the query it resolves to. */
  lemma AcceptedWritten(c: Clauses, maxIn: int, nullsLast: bool)
    requires Accepted(c, maxIn) && JoinsNamed(c.joins)
    ensures Renderable(c) && WrittenQuery(c, nullsLast) == QueryOf(c, nullsLast)
  {
    var ns := NamesOf(c);
    ValidEachFlat(c.wheres, maxIn);
    ValidIsWritable(c.having, false, maxIn);
    ValidJoinsFlat(c.joins, maxIn);
    JoinsWritten(ns, c.joins);
    AllWrittenResolved(ns, [], c.wheres, 0);
    WrittenResolved(ns, c.aggregates, c.having, ResolvedAll(ns, [], c.wheres, 0).1);
  }

  lemma GroupText(ns: Names, groupBy: seq<string>, cs: seq<AggCall>, i: nat)
    requires i < |groupBy|
    ensures PrintItem(AggregateColumns(ns, groupBy, cs)[i]) == PrintColumn(GroupColumns(ns, groupBy)[i])
  {
    AggregateItem(ns, groupBy, cs, i);
  }

  lemma AggregateTexts(
    ns: Names, groupBy: seq<string>, cs: seq<AggCall>, groups: seq<seq<Token>>, calls: seq<seq<Token>>)
    requires groups == ColumnTexts(GroupColumns(ns, groupBy)) && |calls| == |cs|
    requires forall j :: 0 <= j < |cs| ==> calls[j] == PrintColumn(CallColumn(ns, cs[j]))
    ensures groups + calls == ItemTexts(AggregateColumns(ns, groupBy, cs))
  {
    var items := AggregateColumns(ns, groupBy, cs);
    forall i | 0 <= i < |groups| ensures groups[i] == PrintItem(items[i]) {
      GroupText(ns, groupBy, cs, i);
    }
    forall i | |groups| <= i < |items| ensures calls[i - |groups|] == PrintItem(items[i]) {
      AggregateItem(ns, groupBy, cs, i);
    }
    TextsOf(groups, calls, items);
  }

  lemma TextsOf(groups: seq<seq<Token>>, calls: seq<seq<Token>>, items: seq<SelectItem>)
    requires |items| == |groups| + |calls| && (forall i :: 0 <= i < |groups| ==> groups[i] == PrintItem(items[i]))
    requires forall i :: |groups| <= i < |items| ==> calls[i - |groups|] == PrintItem(items[i])
    ensures groups + calls == ItemTexts(items)
  {
    Lists.SameHalves(groups, calls, ItemTexts(items));
  }

  lemma AggregateItem(ns: Names, groupBy: seq<string>, cs: seq<AggCall>, i: nat)
    requires i < |groupBy| + |cs|
    ensures PrintItem(AggregateColumns(ns, groupBy, cs)[i]) ==
            PrintColumn(if i < |groupBy| then Col(ns, groupBy[i]) else CallColumn(ns, cs[i - |groupBy|]))
  {
    PlainItem(AggregateColumns(ns, groupBy, cs)[i].column);
  }

  lemma PlainItem(c: Column)
    ensures PrintItem(SelectItem(c, "")) == PrintColumn(c)
  {
  }

  lemma AddSelect(w: Progress, q: Query)
    ensures Add(w, PrintSelect(q), []) ==
            Add(Add(Add(w, [SELECT], []), if q.distinct then [DISTINCT] else [], []), PrintList(q), [])
  {
    var distinct := if q.distinct then [DISTINCT] else [];
    AddPlain(w, [SELECT], [], distinct);
    AddPlain(w, [SELECT] + distinct, [], PrintList(q));
  }

  // --- FROM ---

  /** w, then the joins. */
  function AddJoins(w: Progress, js: seq<SqlJoin>): Progress {
    Add(w, PrintJoins(js, w.ph), JoinArgs(js))
  }

  lemma AddJoinsCons(w: Progress, js: seq<SqlJoin>)
    requires js != []
    ensures AddJoins(w, js) == AddJoins(Add(w, PrintJoin(js[0], w.ph), ArgsOf(js[0].pred)), js[1..])
  {
    var j, more := js[0], js[1..];
    var first, os := PrintJoin(j, w.ph), ArgsOf(j.pred);
    JoinsSplit(js, w.ph, j, more, first, os);
    AddConcat(w, first, os, PrintJoins(more, w.ph + |os|), JoinArgs(more));
  }

  lemma JoinsSplit(js: seq<SqlJoin>, n: nat, j: SqlJoin, more: seq<SqlJoin>, first: seq<Token>, os: seq<Operand>)
    requires js != [] && j == js[0] && more == js[1..] && first == PrintJoin(j, n) && os == ArgsOf(j.pred)
    ensures PrintJoins(js, n) == first + PrintJoins(more, n + |os|) && JoinArgs(js) == os + JoinArgs(more)
  {
  }

  /** w, then the joins of a plan. */
  function AfterJoins(w: Progress, ns: Names, joins: seq<JoinPart>): Progress {
    AddJoins(w, WrittenJoins(ns, joins))
  }

  lemma AfterJoinsCons(w: Progress, ns: Names, joins: seq<JoinPart>)
    requires joins != []
    ensures var j := WrittenJoin(ns, joins[0]);
            AfterJoins(w, ns, joins) == AfterJoins(Add(w, PrintJoin(j, w.ph), ArgsOf(j.pred)), ns, joins[1..])
  {
    AddJoinsCons(w, WrittenJoins(ns, joins));
    assert WrittenJoins(ns, joins)[1..] == WrittenJoins(ns, joins[1..]);
  }

  function JoinHead(j: JoinPart): seq<Token> {
    [LEFT_JOIN] + PrintTable(j.right) + [AS, Ident(j.alias), ON]
  }

  /** One join. */
  lemma AddJoin(w: Progress, ns: Names, j: JoinPart)
    requires w.nested == 0 && j.alias != "" && !HasExists(j.pred)
    ensures var k := WrittenJoin(ns, j);
            Add(w, PrintJoin(k, w.ph), ArgsOf(k.pred)) ==
                AfterOn(Add(w, JoinHead(j), []), ns, [], j.alias, j.on, j.pred)
  {
    var k := WrittenJoin(ns, j);
    WrittenScoped(ns, [], j.alias, j.pred, 0);
    AddPlain(w, JoinHead(j), ArgsOf(k.pred), PrintOn(k.alias, k.on, k.pred, w.ph));
  }

  lemma AddFrom(w: Progress, q: Query)
    requires w.ph == 0
    ensures Add(w, PrintFrom(q), JoinArgs(q.joins)) ==
            AddJoins(Add(Add(w, [FROM] + PrintTable(q.relation), []), if q.alias == "" then []
                else [AS, Ident(q.alias)], []), q.joins)
  {
    var table, words := [FROM] + PrintTable(q.relation), if q.alias == "" then [] else [AS, Ident(q.alias)];
    AddPlain(w, table, [], words);
    AddPlain(w, table + words, JoinArgs(q.joins), PrintJoins(q.joins, 0));
  }

  // --- WHERE, HAVING and ORDER BY ---

  lemma AddClause(w: Progress, word: Token, q: SqlPredicate)
    ensures Add(w, PrintClause(word, q, w.ph), ArgsOf(q)) ==
            if q.SqlNil? then w else Add(Add(w, [word], []), Print(q, w.ph), ArgsOf(q))
  {
    if !q.SqlNil? {
      AddPlain(w, [word], ArgsOf(q), Print(q, w.ph));
    }
  }

  predicate NoneNil(ps: seq<Predicate>) {
    forall i :: 0 <= i < |ps| ==> !ps[i].Nil?
  }

  function WhereOf(ps: seq<Predicate>): Predicate {
    if ps == [] then Nil else if |ps| == 1 then ps[0] else And(ps)
  }

  lemma WhereWritten(ns: Names, ps: seq<Predicate>, k: nat)
    requires NoneNil(ps)
    ensures var (qs, n) := WrittenAll(ns, [], "", ps, k);
            Written(ns, [], "", WhereOf(ps), k) == (WherePredicate(qs), n)
  {
    if |ps| == 1 {
      assert WrittenAll(ns, [], "", ps[1..], Written(ns, [], "", ps[0], k).1).0 == [];
    }
  }

  lemma WhereWritable(ps: seq<Predicate>, maxIn: int)
    requires ValidEach(ps, maxIn)
    ensures Writable(WhereOf(ps), false, maxIn)
  {
    ValidEachFlat(ps, maxIn);
  }

  /** The items a term sorts by. */
  function TermItems(c: Column, t: OrderTerm, nullsLast: bool): seq<SortItem> {
    (if t.nullable && !nullsLast then [NullCase(c)] else []) + [SortBy(c, t.desc, t.nullable && nullsLast)]
  }

  lemma SortItemsCons(ns: Names, calls: seq<AggCall>, nullsLast: bool, order: seq<OrderTerm>)
    requires order != []
    ensures SortItems(ns, calls, nullsLast, order) ==
            TermItems(OutputColumn(ns, calls, order[0].field), order[0], nullsLast) +
                SortItems(ns, calls, nullsLast, order[1..])
  {
  }

  /** w, then the items. */
  function AddItems(w: Progress, first: bool, items: seq<SortItem>): Progress {
    Add(w, PrintParts(first, SortTexts(items)), [])
  }

  lemma AddItemsCons(w: Progress, first: bool, item: SortItem, more: seq<SortItem>)
    ensures AddItems(w, first, [item] + more) ==
            AddItems(Add(Add(w, Separator(COMMA, first), []), PrintSortItem(item), []), false, more)
  {
    SortTextsCons(item, more);
    AddPart(w, first, PrintSortItem(item), [], SortTexts(more), []);
  }

  lemma SortTextsCons(item: SortItem, more: seq<SortItem>)
    ensures SortTexts([item] + more) == [PrintSortItem(item)] + SortTexts(more)
  {
  }

  lemma TermItemsFirst(c: Column, t: OrderTerm, nullsLast: bool, more: seq<SortItem>)
    ensures var last := [SortBy(c, t.desc, t.nullable && nullsLast)] + more;
            TermItems(c, t, nullsLast) + more == if t.nullable && !nullsLast then [NullCase(c)] + last else last
  {
  }

  lemma AddSortBy(w: Progress, c: Column, desc: bool, nullsLast: bool)
    ensures Add(w, PrintSortItem(SortBy(c, desc, nullsLast)), []) ==
            Add(Add(Add(w, PrintColumn(c), []), [if desc then DESC else ASC], []), if nullsLast then [NULLS_LAST]
                else [], [])
  {
    AddPlain(w, PrintColumn(c), [], [if desc then DESC else ASC]);
    AddPlain(w, PrintColumn(c) + [if desc then DESC else ASC], [], if nullsLast then [NULLS_LAST] else []);
  }

  lemma AliasesSnoc(joins: seq<JoinPart>, j: JoinPart)
    ensures Aliases(joins + [j]) == Aliases(joins) + {j.alias}
  {
    var all := joins + [j];
    assert j.alias in Aliases(all) by {
      assert all[|joins|] == j;
    }
    forall a | a in Aliases(joins) ensures a in Aliases(all) {
      var i :| 0 <= i < |joins| && joins[i].alias == a;
      assert all[i].alias == a;
    }
  }

  // --- the whole statement ---

  /** The parts of q that c gives, clause by clause. */
  predicate HeadOf(q: Query, c: Clauses) {
    && q.relation == c.relation && q.alias == FromAlias(c) && q.distinct == c.distinct && q.list == ListOf(c)
    && q.joins == WrittenJoins(NamesOf(c), c.joins)
    && q.where == WrittenAll(NamesOf(c), [], "", c.wheres, 0).0
  }

  predicate GroupsOf(q: Query, c: Clauses) {
    && q.groupBy == GroupColumns(NamesOf(c), c.groupBy)
    && q.having == Written(NamesOf(c), c.aggregates, "", c.having, WhereCount(c)).0
  }

  predicate OrderOf(q: Query, c: Clauses, nullsLast: bool) {
    q.orderBy == SortItems(NamesOf(c), c.aggregates, nullsLast, c.order)
  }

  lemma ClauseParts(c: Clauses, nullsLast: bool)
    ensures var q := WrittenQuery(c, nullsLast);
            HeadOf(q, c) && GroupsOf(q, c) && OrderOf(q, c, nullsLast)
  {
  }

  /** The count of EXISTS in WHERE. */
  function WhereCount(c: Clauses): nat {
    WrittenAll(NamesOf(c), [], "", c.wheres, 0).1
  }

  function WhereArgs(q: Query): seq<Operand> {
    JoinArgs(q.joins) + ArgsOf(WherePredicate(q.where))
  }

  lemma AddThroughWhere(w: Progress, q: Query)
    requires w.ph == 0
    ensures var x := Add(Add(w, PrintSelect(q), []), PrintFrom(q), JoinArgs(q.joins));
            var where := WherePredicate(q.where);
            Add(x, PrintClause(WHERE, where, x.ph), ArgsOf(where)) == Add(w, PrintThroughWhere(q), WhereArgs(q))
  {
    var where, n := WherePredicate(q.where), |JoinArgs(q.joins)|;
    AddPlain(w, PrintSelect(q), JoinArgs(q.joins), PrintFrom(q));
    AddConcat(w, PrintSelect(q) + PrintFrom(q), JoinArgs(q.joins), PrintClause(WHERE, where, n), ArgsOf(where));
  }

  lemma AddThroughHaving(w: Progress, q: Query)
    requires w.ph == 0
    ensures var y := Add(Add(w, PrintThroughWhere(q), WhereArgs(q)), PrintGroupBy(q.groupBy), []);
            Add(y, PrintClause(HAVING, q.having, y.ph), ArgsOf(q.having)) == Add(w, PrintThroughHaving(q), QueryArgs(q))
  {
    var n := |WhereArgs(q)|;
    AddPlain(w, PrintThroughWhere(q), WhereArgs(q), PrintGroupBy(q.groupBy));
    AddConcat(w, PrintThroughWhere(q) + PrintGroupBy(q.groupBy), WhereArgs(q),
              PrintClause(HAVING, q.having, n), ArgsOf(q.having));
  }

  lemma {:induction false} FlattenedShape(e: Expr)
    requires FlattenInput(e).Ok?
    ensures NoneNil(FlattenInput(e).value.wheres) && JoinsNamed(FlattenInput(e).value.joins)
  {
    match e
    case Scan(_, _) =>
    case Select(input, _) => FlattenedShape(input);
    case Project(input, _) => FlattenedShape(input);
    case Aggregate(input, _, _) => FlattenedShape(input);
    case Having(input, _) => FlattenedShape(input);
    case Sort(input, _) => FlattenedShape(input);
    case Limit(input, _, _) => FlattenedShape(input);
    case Distinct(input) => FlattenedShape(input);
    case Join(input, _, _, _, _) => FlattenedShape(input);
  }

  // --- writes ---

  const BARE := Names("", {})

  /** w, then the tuples. */
  function AddTuples(w: Progress, first: bool, tuples: seq<seq<Value>>): Progress {
    Add(w, PrintParts(first, TupleTexts(tuples, w.ph)), TupleArgs(tuples))
  }

  lemma AddTuplesCons(w: Progress, first: bool, tuples: seq<seq<Value>>)
    requires tuples != []
    ensures AddTuples(w, first, tuples) ==
            AddTuples(Add(Add(w, Separator(COMMA, first), []), PrintTuple(w.ph, |tuples[0]|), Scalars(tuples[0])),
                false, tuples[1..])
  {
    AddPart(w, first, PrintTuple(w.ph, |tuples[0]|), Scalars(tuples[0]),
            TupleTexts(tuples[1..], w.ph + |tuples[0]|), TupleArgs(tuples[1..]));
  }

  lemma AddNoTuples(w: Progress, first: bool)
    ensures AddTuples(w, first, []) == w
  {
  }

  /** w, then the assignments. */
  function AddSets(w: Progress, first: bool, sets: seq<SetItem>): Progress {
    Add(w, PrintParts(first, SetTexts(sets, w.ph)), SetArgs(sets))
  }

  lemma AddSetsCons(w: Progress, first: bool, sets: seq<SetItem>)
    requires sets != []
    ensures AddSets(w, first, sets) ==
            AddSets(Add(Add(Add(w, Separator(COMMA, first), []), [Ident(sets[0].field), Cmp(Eq)], []),
                        [Param(w.ph)], [Scalar(sets[0].value)]), false, sets[1..])
  {
    AddSet(Add(w, Separator(COMMA, first), []), sets[0]);
    AddPart(w, first, [Ident(sets[0].field), Cmp(Eq), Param(w.ph)], [Scalar(sets[0].value)],
            SetTexts(sets[1..], w.ph + 1), SetArgs(sets[1..]));
  }

  lemma AddSet(w: Progress, item: SetItem)
    ensures Add(w, [Ident(item.field), Cmp(Eq), Param(w.ph)], [Scalar(item.value)]) ==
            Add(Add(w, [Ident(item.field), Cmp(Eq)], []), [Param(w.ph)], [Scalar(item.value)])
  {
    AddPlain(w, [Ident(item.field), Cmp(Eq)], [Scalar(item.value)], [Param(w.ph)]);
    assert [Ident(item.field), Cmp(Eq)] + [Param(w.ph)] == [Ident(item.field), Cmp(Eq), Param(w.ph)];
  }

  function InsertHead(target: RelationRef, columns: seq<string>): seq<Token> {
    [INSERT_INTO] + PrintTable(target) + [OPEN] + Joined(IdentTexts(columns)) + [CLOSE, VALUES]
  }

  function Returning(names: seq<string>): seq<Token> {
    if names == [] then [] else [RETURNING] + Joined(IdentTexts(names))
  }

  /** The clauses of a chain, as they accumulate. */
  class SelectCtx {
    var relation: RelationRef
    var scanAlias: string
    var joins: seq<JoinPart>
    var wheres: seq<Predicate>
    var cols: seq<ProjectItem>
    var order: seq<OrderTerm>
    var groupBy: seq<string>
    var aggregates: seq<AggCall>
    var having: Predicate
    var limit: int
    var offset: int
    var hasLimit: bool
    var distinct: bool
    var rank: int

    constructor ()
      ensures Value() == NO_CLAUSES
    {
      relation, scanAlias, joins, wheres, cols, order := RelationRef("", ""), "", [], [], [], [];
      groupBy, aggregates, having, limit, offset, hasLimit, distinct, rank := [], [], Nil, -1, 0, false, false, 0;
    }

    function Value(): Clauses
      reads this
    {
      Clauses(relation, scanAlias, joins, wheres, cols, order, groupBy, aggregates, having, limit, offset,
              hasLimit, distinct, rank)
    }
  }

  class Builder {
    const maxIn: int
    const nullsLast: bool
    const returning: seq<string>

    var sql: Buffer<Token>
    var args: Buffer<Operand>
    var ph: nat
    var readOnly: bool
    var capBase: Buffer<Token>
    var capLimit: int
    var capOffset: int
    var outputs: map<string, seq<Token>>
    var root: string
    var joins: set<string>
    var scope: string
    var nested: nat
    ghost var calls: seq<AggCall>

    constructor (maxIn: int, nullsLast: bool, returning: seq<string>)
      ensures this.maxIn == maxIn && this.nullsLast == nullsLast && this.returning == returning
      ensures Valid() && Now() == Progress(Empty, Empty, 0, 0) && capLimit == 0 && capOffset == 0 && !readOnly
      ensures root == "" && joins == {} && scope == "" && calls == []
    {
      this.maxIn, this.nullsLast, this.returning := maxIn, nullsLast, returning;
      sql, args, ph, readOnly, capBase, capLimit, capOffset := Empty, Empty, 0, false, Empty, 0, 0;
      outputs, root, joins, scope, nested, calls := map[], "", {}, "", 0, [];
    }

    /** The calls in scope are calls; no join goes by no name. */
    ghost predicate Valid()
      reads this`joins, this`outputs, this`root, this`calls
    {
      "" !in joins && outputs == OutputMap(Names(root, joins), calls)
    }

    function NamesNow(): Names
      reads this`root, this`joins
    {
      Names(root, joins)
    }

    function Now(): Progress
      reads this`sql, this`args, this`ph, this`nested
    {
      Progress(sql, args, ph, nested)
    }

    // --- columns and placeholders ---

    function ColText(name: string): seq<Token>
      reads this
    {
      if scope != "" then [Ident(scope), DOT, Ident(name)]
      else
        var i := Find(name, '.');
        if i < |name| && name[..i] in joins then [Ident(name[..i]), DOT, Ident(name[i + 1..])]
        else if root != "" then [Ident(root), DOT, Ident(name)]
        else [Ident(name)]
    }

    function ColumnText(name: string): seq<Token>
      reads this
    {
      if name in outputs && scope == "" then outputs[name] else ColText(name)
    }

    lemma ColumnWritten(name: string)
      requires Valid()
      ensures ColumnText(name) ==
              PrintColumn(if scope != "" then Column(scope, name) else OutputColumn(NamesNow(), calls, name))
      ensures scope == "" ==> ColText(name) == PrintColumn(Col(NamesNow(), name))
    {
      OutputMapNamed(NamesNow(), calls, name);
    }

    method Placeholder() returns (t: Token)
      modifies this`ph
      ensures ph == old(ph) + 1 && t == Param(old(ph))
    {
      ph := ph + 1;
      t := Param(ph - 1);
    }

    method Write(ts: seq<Token>)
      modifies this`sql
      ensures Now() == Add(old(Now()), ts, [])
    {
      sql := Append(sql, ts);
    }

    method Bind(value: Operand)
      modifies this`sql, this`args, this`ph
      ensures Now() == Add(old(Now()), [Param(old(ph))], [value])
    {
      var t := Placeholder();
      Write([t]);
      args := Append(args, [value]);
    }

    /** Placeholders for the values of a list, each with its argument. */
    method RenderValues(values: seq<Value>)
      modifies this`sql, this`args, this`ph
      ensures Now() == Add(old(Now()), PrintParams(old(ph), |values|), Scalars(values))
    {
      ghost var all := AddValues(Now(), true, values);
      assert values[0..] == values;
      for i := 0 to |values|
        invariant AddValues(Now(), i == 0, values[i..]) == all
      {
        assert values[i..][1..] == values[i + 1..];
        AddValuesCons(Now(), i == 0, values[i..]);
        if i > 0 {
          Write([COMMA]);
        }
        Bind(Scalar(values[i]));
      }
    }

    method RenderTuple(values: seq<Value>)
      modifies this`sql, this`args, this`ph
      ensures Now() == Add(old(Now()), PrintTuple(old(ph), |values|), Scalars(values))
    {
      AddWrapped(Now(), PrintParams(ph, |values|), Scalars(values));
      Write([OPEN]);
      RenderValues(values);
      Write([CLOSE]);
    }

    // --- predicates ---

    method RenderIn(op: Op, values: seq<Value>) returns (r: Outcome<()>)
      requires op.In? || op.NotIn?
      modifies this`sql, this`args, this`ph
      ensures r.Ok? <==> 0 < |values| <= maxIn
      ensures r.Ok? ==> Now() == Add(old(Now()), PrintOperator(op, List(values), old(ph)), Scalars(values))
    {
      if values == [] || |values| > maxIn {
        return Err(InvalidPredicate);
      }
      AddPlain(Now(), if op.In? then [IN] else [NOT, IN], Scalars(values), PrintTuple(ph, |values|));
      if op.NotIn? {
        AddPlain(Now(), [NOT], [], [IN]);
        assert [NOT] + [IN] == [NOT, IN];
        Write([NOT]);
      }
      Write([IN]);
      RenderTuple(values);
      r := Ok(());
    }

    method RenderOperator(op: Op, operand: Operand) returns (r: Outcome<()>)
      modifies this`sql, this`args, this`ph
      ensures r.Ok? <==> (op.In? || op.NotIn? ==> operand.List? && 0 < |operand.values| <= maxIn)
      ensures r.Ok? ==> Now() == Add(old(Now()), PrintOperator(op, operand, old(ph)), ConditionArgs(op, operand))
    {
      if op.IsNull? || op.IsNotNull? {
        Write([if op.IsNull? then IS_NULL else IS_NOT_NULL]);
      } else if op.In? || op.NotIn? {
        if !operand.List? {
          return Err(InvalidPredicate);
        }
        r := RenderIn(op, operand.values);
        return;
      } else {
        AddPlain(Now(), [Cmp(op)], [operand], [Param(ph)]);
        assert [Cmp(op)] + [Param(ph)] == PrintOperator(op, operand, ph);
        Write([Cmp(op)]);
        Bind(operand);
      }
      r := Ok(());
    }

    method RenderCondition(field: string, op: Op, operand: Operand) returns (r: Outcome<()>)
      requires Valid()
      modifies this`sql, this`args, this`ph
      ensures r.Ok? <==> Writable(Condition(field, op, operand), scope != "", maxIn)
      ensures r.Ok? ==> Now() == After(old(Now()), NamesNow(), calls, scope, Condition(field, op, operand))
    {
      ColumnWritten(field);
      AddPlain(Now(), ColumnText(field), ConditionArgs(op, operand), PrintOperator(op, operand, ph));
      Write(ColumnText(field));
      r := RenderOperator(op, operand);
    }

    /** p is written after the rest, unless it is not Writable. */
    method RenderPredicate(p: Predicate) returns (r: Outcome<()>)
      requires Valid()
      modifies this`sql, this`args, this`ph, this`scope, this`nested
      ensures scope == old(scope)
      ensures r.Ok? <==> Writable(p, scope != "", maxIn)
      ensures r.Ok? ==> Now() == After(old(Now()), NamesNow(), calls, scope, p)
      decreases p, 1
    {
      match p {
        case Nil => r := Ok(());
        case Condition(field, op, operand) => r := RenderCondition(field, op, operand);
        case And(ps) => r := RenderListed(AND, ps);
        case Or(ps) => r := RenderListed(OR, ps);
        case Not(q) => r := RenderNot(q);
        case Exists(relation, on, inner) => r := RenderExists(relation, on, inner);
      }
    }

    method RenderNot(q: Predicate) returns (r: Outcome<()>)
      requires Valid()
      modifies this`sql, this`args, this`ph, this`scope, this`nested
      ensures scope == old(scope)
      ensures r.Ok? <==> Writable(q, scope != "", maxIn)
      ensures r.Ok? ==> Now() == After(old(Now()), NamesNow(), calls, scope, Not(q))
      decreases q, 2
    {
      ghost var (s, _) := Written(NamesNow(), calls, scope, q, nested);
      AddPlain(Now(), [NOT], ArgsOf(s), Print(s, ph));
      Write([NOT]);
      r := RenderPredicate(q);
    }

    method RenderListed(sep: Token, ps: seq<Predicate>) returns (r: Outcome<()>)
      requires Valid() && (sep == AND || sep == OR)
      modifies this`sql, this`args, this`ph, this`scope, this`nested
      ensures scope == old(scope)
      ensures r.Ok? <==> AllWritable(ps, scope != "", maxIn)
      ensures r.Ok? ==> Now() == After(old(Now()), NamesNow(), calls, scope, Listed(sep, ps))
      decreases ps, 1
    {
      AfterListed(Now(), NamesNow(), calls, scope, sep, ps);
      Write([OPEN]);
      r := RenderList(sep, ps);
      if r.Ok? {
        Write([CLOSE]);
      }
    }

    method RenderList(sep: Token, ps: seq<Predicate>) returns (r: Outcome<()>)
      requires Valid()
      modifies this`sql, this`args, this`ph, this`scope, this`nested
      ensures scope == old(scope)
      ensures r.Ok? <==> AllWritable(ps, scope != "", maxIn)
      ensures r.Ok? ==> Now() == AfterAll(old(Now()), NamesNow(), calls, scope, sep, true, ps)
      decreases ps, 0
    {
      hide After, Written;
      ghost var all := AfterAll(Now(), NamesNow(), calls, scope, sep, true, ps);
      assert ps[0..] == ps;
      for i := 0 to |ps|
        invariant scope == old(scope)
        invariant AllWritable(ps, scope != "", maxIn) <==> AllWritable(ps[i..], scope != "", maxIn)
        invariant AfterAll(Now(), NamesNow(), calls, scope, sep, i == 0, ps[i..]) == all
      {
        assert ps[i..][1..] == ps[i + 1..];
        AfterAllCons(Now(), NamesNow(), calls, scope, sep, i == 0, ps[i..]);
        r := RenderNext(sep, i == 0, ps[i]);
        if r.Err? {
          return;
        }
      }
      r := Ok(());
    }

    method RenderNext(sep: Token, first: bool, p: Predicate) returns (r: Outcome<()>)
      requires Valid()
      modifies this`sql, this`args, this`ph, this`scope, this`nested
      ensures scope == old(scope)
      ensures r.Ok? <==> Writable(p, scope != "", maxIn)
      ensures r.Ok? ==> Now() == After(Add(old(Now()), Separator(sep, first), []), NamesNow(), calls, scope, p)
      decreases p, 5
    {
      if !first {
        Write([sep]);
      }
      r := RenderPredicate(p);
    }

    // --- joins and EXISTS ---

    method RenderExists(relation: RelationRef, on: seq<JoinPair>, inner: Predicate) returns (r: Outcome<()>)
      requires Valid()
      modifies this`sql, this`args, this`ph, this`scope, this`nested
      ensures scope == old(scope)
      ensures r.Ok? <==> scope == "" && Writable(inner, true, maxIn)
      ensures r.Ok? ==> Now() == After(old(Now()), NamesNow(), calls, "", Exists(relation, on, inner))
      decreases inner, 4
    {
      if scope != "" {
        return Err(Unsupported);
      }
      AfterExists(Now(), NamesNow(), calls, relation, on, inner);
      nested := nested + 1;
      r := RenderSubquery(relation, ExistsAlias(nested), on, inner);
    }

    method RenderSubquery(
      relation: RelationRef, alias: string, on: seq<JoinPair>, inner: Predicate) returns (r: Outcome<()>)
      requires Valid() && alias != "" && scope == ""
      modifies this`sql, this`args, this`ph, this`scope, this`nested
      ensures scope == ""
      ensures r.Ok? <==> Writable(inner, true, maxIn)
      ensures r.Ok? ==> Now() == AfterSubquery(old(Now()), NamesNow(), calls, relation, alias, on, inner)
      decreases inner, 3
    {
      Write(ExistsHead(relation, alias));
      r := RenderOn(alias, on, inner);
      if r.Ok? {
        Write([CLOSE]);
      }
    }

    /** The pairs, of the outer columns, then pred, of those of alias. */
    method RenderOn(alias: string, on: seq<JoinPair>, pred: Predicate) returns (r: Outcome<()>)
      requires Valid() && alias != "" && scope == ""
      modifies this`sql, this`args, this`ph, this`scope, this`nested
      ensures scope == ""
      ensures r.Ok? <==> Writable(pred, true, maxIn)
      ensures r.Ok? ==> Now() == AfterOn(old(Now()), NamesNow(), calls, alias, on, pred)
      decreases pred, 2
    {
      AfterOnStep(Now(), NamesNow(), calls, alias, on, pred);
      RenderPairs(alias, on);
      if pred.Nil? {
        return Ok(());
      }
      Write([AND]);
      scope := alias;
      r := RenderPredicate(pred);
      scope := "";
    }

    method RenderPairs(alias: string, on: seq<JoinPair>)
      requires Valid() && scope == ""
      modifies this`sql
      ensures Now() == Add(old(Now()), PrintPairs(alias, OnPairs(NamesNow(), on)), [])
    {
      ghost var all := AfterOnPairs(Now(), NamesNow(), alias, true, on);
      assert on[0..] == on;
      for i := 0 to |on|
        invariant AfterOnPairs(Now(), NamesNow(), alias, i == 0, on[i..]) == all
      {
        assert on[i..][1..] == on[i + 1..];
        AfterOnPairsCons(Now(), NamesNow(), alias, i == 0, on[i..]);
        if i > 0 {
          Write([AND]);
        }
        ColumnWritten(on[i].left);
        Write([Ident(alias), DOT, Ident(on[i].right), Cmp(Eq)] + ColText(on[i].left));
      }
    }

    // --- SELECT ---

    /** The text of an aggregate call, when it is one. */
    method AggregateCall(a: AggCall) returns (r: Outcome<seq<Token>>)
      requires Valid() && scope == ""
      ensures r.Ok? <==> ValidCall(a)
      ensures r.Ok? ==> r.value == PrintColumn(CallColumn(NamesNow(), a))
    {
      if a.fn.OtherFunc? {
        return Err(InvalidAggregate);
      }
      var field := [ALL];
      if a.field != "" {
        ColumnWritten(a.field);
        field := ColText(a.field);
      } else if !a.fn.Count? {
        return Err(InvalidAggregate);
      }
      if a.distinct {
        field := [DISTINCT] + field;
      }
      assert [Func(a.fn), OPEN] + field + [CLOSE] == PrintColumn(CallColumn(NamesNow(), a));
      r := Ok([Func(a.fn), OPEN] + field + [CLOSE]);
    }

    method RenderCols(items: seq<ProjectItem>) returns (text: seq<Token>)
      requires Valid() && scope == ""
      ensures text == Joined(ItemTexts(ProjectColumns(NamesNow(), items)))
    {
      var parts: seq<seq<Token>> := [];
      for i := 0 to |items|
        invariant |parts| == i
        invariant forall j :: 0 <= j < i ==>
                  parts[j] == PrintItem(SelectItem(Col(NamesNow(), items[j].field), items[j].alias))
      {
        ColumnWritten(items[i].field);
        var part := ColText(items[i].field);
        if items[i].alias != "" {
          part := part + [AS, Ident(items[i].alias)];
        }
        parts := parts + [part];
      }
      assert parts == ItemTexts(ProjectColumns(NamesNow(), items));
      text := Joined(parts);
    }

    method ColumnParts(fields: seq<string>) returns (parts: seq<seq<Token>>)
      requires Valid() && scope == ""
      ensures parts == ColumnTexts(GroupColumns(NamesNow(), fields))
    {
      parts := [];
      for i := 0 to |fields|
        invariant |parts| == i
        invariant forall j :: 0 <= j < i ==> parts[j] == PrintColumn(Col(NamesNow(), fields[j]))
      {
        ColumnWritten(fields[i]);
        parts := parts + [ColText(fields[i])];
      }
    }

    method CallParts(cs: seq<AggCall>) returns (r: Outcome<seq<seq<Token>>>)
      requires Valid() && scope == ""
      ensures r.Ok? <==> ValidCalls(cs)
      ensures r.Ok? ==> |r.value| == |cs|
      ensures r.Ok? ==> forall j :: 0 <= j < |cs| ==> r.value[j] == PrintColumn(CallColumn(NamesNow(), cs[j]))
    {
      var parts: seq<seq<Token>> := [];
      for i := 0 to |cs|
        invariant |parts| == i
        invariant forall j :: 0 <= j < i ==> ValidCall(cs[j])
        invariant forall j :: 0 <= j < i ==> parts[j] == PrintColumn(CallColumn(NamesNow(), cs[j]))
      {
        var call := AggregateCall(cs[i]);
        if call.Err? {
          return Err(call.error);
        }
        parts := parts + [call.value];
      }
      r := Ok(parts);
    }

    method RenderAggregateCols(groupBy: seq<string>, cs: seq<AggCall>) returns (r: Outcome<seq<Token>>)
      requires Valid() && scope == ""
      ensures r.Ok? <==> ValidCalls(cs)
      ensures r.Ok? ==> r.value == Joined(ItemTexts(AggregateColumns(NamesNow(), groupBy, cs)))
    {
      var groups := ColumnParts(groupBy);
      var calls := CallParts(cs);
      if calls.Err? {
        return Err(calls.error);
      }
      AggregateTexts(NamesNow(), groupBy, cs, groups, calls.value);
      r := Ok(Joined(groups + calls.value));
    }

    method WriteSelectClause(c: Clauses, ghost q: Query) returns (r: Outcome<()>)
      requires Valid() && scope == "" && NamesNow() == NamesOf(c)
      requires q.distinct == c.distinct && q.list == ListOf(c) && q.alias == FromAlias(c) && |q.joins| == |c.joins|
      modifies this`sql
      ensures r.Ok? <==> ValidCalls(c.aggregates)
      ensures r.Ok? ==> Now() == Add(old(Now()), PrintSelect(q), [])
    {
      AddSelect(Now(), q);
      Write([SELECT]);
      if c.distinct {
        Write([DISTINCT]);
      }
      if c.aggregates != [] || c.groupBy != [] {
        var text := RenderAggregateCols(c.groupBy, c.aggregates);
        if text.Err? {
          return Err(text.error);
        }
        Write(text.value);
      } else if c.cols != [] {
        var text := RenderCols(c.cols);
        Write(text);
      } else if c.joins != [] {
        Write([Ident(root), DOT, ALL]);
      } else {
        Write([ALL]);
      }
      r := Ok(());
    }

    method WriteFromClause(c: Clauses, ghost q: Query) returns (r: Outcome<()>)
      requires Valid() && scope == "" && calls == [] && NamesNow() == NamesOf(c) && ph == nested == 0
      requires JoinsNamed(c.joins)
      requires q.relation == c.relation && q.alias == FromAlias(c) && q.joins == WrittenJoins(NamesNow(), c.joins)
      modifies this`sql, this`args, this`ph, this`scope, this`nested
      ensures scope == ""
      ensures r.Ok? <==> ValidJoins(c.joins, maxIn)
      ensures r.Ok? ==> Now() == Add(old(Now()), PrintFrom(q), JoinArgs(q.joins))
    {
      AddFrom(Now(), q);
      Write([FROM] + PrintTable(c.relation));
      var alias := if c.scanAlias != "" then c.scanAlias else root;
      if alias != "" {
        Write([AS, Ident(alias)]);
      }
      r := WriteJoins(c.joins);
    }

    method WriteJoins(joins: seq<JoinPart>) returns (r: Outcome<()>)
      requires Valid() && scope == "" && calls == [] && nested == 0 && JoinsNamed(joins)
      modifies this`sql, this`args, this`ph, this`scope, this`nested
      ensures scope == ""
      ensures r.Ok? <==> ValidJoins(joins, maxIn)
      ensures r.Ok? ==> Now() == AfterJoins(old(Now()), NamesNow(), joins)
    {
      hide WrittenJoin, PrintJoin;
      ghost var all := AfterJoins(Now(), NamesNow(), joins);
      assert joins[0..] == joins;
      for i := 0 to |joins|
        invariant scope == "" && nested == 0
        invariant ValidJoins(joins, maxIn) <==> ValidJoins(joins[i..], maxIn)
        invariant AfterJoins(Now(), NamesNow(), joins[i..]) == all
      {
        assert joins[i..][1..] == joins[i + 1..];
        AfterJoinsCons(Now(), NamesNow(), joins[i..]);
        r := WriteJoin(joins[i]);
        if r.Err? {
          return;
        }
      }
      r := Ok(());
    }

    /** A join's predicate is validated before it is written. */
    method WriteJoin(j: JoinPart) returns (r: Outcome<()>)
      requires Valid() && scope == "" && calls == [] && nested == 0 && j.alias != ""
      modifies this`sql, this`args, this`ph, this`scope, this`nested
      ensures scope == ""
      ensures r.Ok? <==> ValidJoin(j, maxIn)
      ensures r.Ok? ==> var k := WrittenJoin(NamesNow(), j);
              Now() == Add(old(Now()), PrintJoin(k, old(ph)), ArgsOf(k.pred))
    {
      if !Validate.Valid(j.pred, maxIn) {
        return Err(InvalidPredicate);
      }
      ValidIsWritable(j.pred, true, maxIn);
      if !HasExists(j.pred) {
        AddJoin(Now(), NamesNow(), j);
      }
      Write(JoinHead(j));
      r := RenderOn(j.alias, j.on, j.pred);
    }

    method WriteWhereClause(wheres: seq<Predicate>) returns (r: Outcome<()>)
      requires Valid() && scope == "" && calls == [] && NoneNil(wheres)
      modifies this`sql, this`args, this`ph, this`scope, this`nested
      ensures scope == ""
      ensures r.Ok? <==> Writable(WhereOf(wheres), false, maxIn)
      ensures r.Ok? ==> var (qs, k) := WrittenAll(NamesNow(), [], "", wheres, old(nested));
                        var q := WherePredicate(qs);
                        Now() == Add(old(Now()), PrintClause(WHERE, q, old(ph)), ArgsOf(q)).(nested := k)
    {
      WhereWritten(NamesNow(), wheres, nested);
      AddClause(Now(), WHERE, Written(NamesNow(), [], "", WhereOf(wheres), nested).0);
      if wheres == [] {
        return Ok(());
      }
      Write([WHERE]);
      r := RenderPredicate(WhereOf(wheres));
    }

    method WriteGroupByClause(groupBy: seq<string>)
      requires Valid() && scope == ""
      modifies this`sql
      ensures Now() == Add(old(Now()), PrintGroupBy(GroupColumns(NamesNow(), groupBy)), [])
    {
      if groupBy == [] {
        return;
      }
      AddPlain(Now(), [GROUP_BY], [], Joined(ColumnTexts(GroupColumns(NamesNow(), groupBy))));
      Write([GROUP_BY]);
      var parts := ColumnParts(groupBy);
      Write(Joined(parts));
    }

    /** The calls by name, for HAVING and ORDER BY to write in their place. */
    method SetOutputs(cs: seq<AggCall>)
      requires Valid() && scope == "" && calls == [] && ValidCalls(cs)
      modifies this`outputs, this`calls
      ensures Valid() && calls == cs
    {
      outputs := map[];
      for i := 0 to |cs|
        invariant outputs == OutputMap(NamesNow(), cs[..i]) && Valid()
        modifies this`outputs, this`calls
      {
        assert cs[..i + 1][..i] == cs[..i];
        calls := cs[..i];
        if cs[i].name != "" {
          var call := AggregateCall(cs[i]);
          outputs := outputs[cs[i].name := call.value];
        }
        calls := cs[..i + 1];
      }
      assert cs[..|cs|] == cs;
      calls := cs;
    }

    method WriteHavingClause(having: Predicate) returns (r: Outcome<()>)
      requires Valid() && scope == ""
      modifies this`sql, this`args, this`ph, this`scope, this`nested
      ensures scope == ""
      ensures r.Ok? <==> Writable(having, false, maxIn)
      ensures r.Ok? ==> var (q, k) := Written(NamesNow(), calls, "", having, old(nested));
                        Now() == Add(old(Now()), PrintClause(HAVING, q, old(ph)), ArgsOf(q)).(nested := k)
    {
      AddClause(Now(), HAVING, Written(NamesNow(), calls, "", having, nested).0);
      if having.Nil? {
        return Ok(());
      }
      Write([HAVING]);
      r := RenderPredicate(having);
    }

    method WriteOrderByClause(order: seq<OrderTerm>)
      requires Valid() && scope == ""
      modifies this`sql
      ensures Now() == Add(old(Now()), PrintOrderBy(SortItems(NamesNow(), calls, nullsLast, order)), [])
    {
      if order == [] {
        return;
      }
      AddPlain(Now(), [ORDER_BY], [], Joined(SortTexts(SortItems(NamesNow(), calls, nullsLast, order))));
      Write([ORDER_BY]);
      WriteTerms(order);
    }

    method WriteTerms(order: seq<OrderTerm>)
      requires Valid() && scope == ""
      modifies this`sql
      ensures Now() == AddItems(old(Now()), true, SortItems(NamesNow(), calls, nullsLast, order))
    {
      ghost var all := AddItems(Now(), true, SortItems(NamesNow(), calls, nullsLast, order));
      assert order[0..] == order;
      for i := 0 to |order|
        invariant AddItems(Now(), i == 0, SortItems(NamesNow(), calls, nullsLast, order[i..])) == all
      {
        assert order[i..][1..] == order[i + 1..];
        SortItemsCons(NamesNow(), calls, nullsLast, order[i..]);
        WriteTerm(order[i], i == 0, SortItems(NamesNow(), calls, nullsLast, order[i + 1..]));
      }
    }

    /** The next term; more items are to come. */
    method WriteTerm(t: OrderTerm, first: bool, ghost more: seq<SortItem>)
      requires Valid() && scope == ""
      modifies this`sql
      ensures AddItems(Now(), false, more) ==
              AddItems(old(Now()), first, TermItems(OutputColumn(NamesNow(), calls, t.field), t, nullsLast) + more)
    {
      ghost var c := OutputColumn(NamesNow(), calls, t.field);
      ghost var last := SortBy(c, t.desc, t.nullable && nullsLast);
      TermItemsFirst(c, t, nullsLast, more);
      ColumnWritten(t.field);
      var col := ColumnText(t.field);
      var next := first;
      if t.nullable && !nullsLast {
        WriteNullCase(col, first, c, [last] + more);
        next := false;
      }
      WriteDirection(col, t, next, c, more);
    }

    method WriteNullCase(col: seq<Token>, first: bool, ghost c: Column, ghost more: seq<SortItem>)
      requires col == PrintColumn(c)
      modifies this`sql
      ensures AddItems(Now(), false, more) == AddItems(old(Now()), first, [NullCase(c)] + more)
    {
      AddItemsCons(Now(), first, NullCase(c), more);
      if !first {
        Write([COMMA]);
      }
      Write([CASE_WHEN] + col + [IS_NULL, THEN, Numeral(1), ELSE, Numeral(0), END]);
    }

    method WriteDirection(col: seq<Token>, t: OrderTerm, first: bool, ghost c: Column, ghost more: seq<SortItem>)
      requires col == PrintColumn(c)
      modifies this`sql
      ensures AddItems(Now(), false, more) ==
              AddItems(old(Now()), first, [SortBy(c, t.desc, t.nullable && nullsLast)] + more)
    {
      AddItemsCons(Now(), first, SortBy(c, t.desc, t.nullable && nullsLast), more);
      if !first {
        Write([COMMA]);
      }
      AddSortBy(Now(), c, t.desc, t.nullable && nullsLast);
      Write(col);
      Write([if t.desc then DESC else ASC]);
      if t.nullable && nullsLast {
        Write([NULLS_LAST]);
      }
    }

    // --- flattening ---

    method Flatten(e: Expr, ctx: SelectCtx) returns (r: Outcome<()>)
      requires ctx.Value() == NO_CLAUSES && joins == {}
      modifies ctx, this`joins
      ensures r.Ok? <==> FlattenInput(e).Ok?
      ensures r.Err? ==> FlattenInput(e) == Err(r.error)
      ensures r.Ok? ==> FlattenInput(e) == Ok(ctx.Value()) && joins == Aliases(ctx.joins)
      decreases e, 1
    {
      if e.Select? && e.pred.Nil? {
        return Err(Unsupported);
      }
      r := FlattenChain(e, ctx);
      if r.Err? {
        return;
      }
      var (rank, repeats) := RankOf(e);
      if !e.Scan? && (ctx.rank > rank || (ctx.rank == rank && !repeats)) {
        return Err(Unsupported);
      }
      ctx.rank := rank;
    }

    method FlattenChain(e: Expr, ctx: SelectCtx) returns (r: Outcome<()>)
      requires ctx.Value() == NO_CLAUSES && joins == {}
      modifies ctx, this`joins
      ensures r.Ok? <==> FlattenNode(e).Ok?
      ensures r.Err? ==> FlattenNode(e) == Err(r.error)
      ensures r.Ok? ==> FlattenNode(e) == Ok(ctx.Value()) && joins == Aliases(ctx.joins)
      decreases e, 0
    {
      match e {
        case Scan(relation, alias) =>
          ctx.relation, ctx.scanAlias := relation, alias;
          r := Ok(());
        case Select(_, _) => r := FlattenClause(e, ctx);
        case Sort(_, _) => r := FlattenClause(e, ctx);
        case Distinct(_) => r := FlattenClause(e, ctx);
        case Aggregate(_, _, _) => r := FlattenClause(e, ctx);
        case Project(_, _) => r := FlattenProject(e, ctx);
        case Limit(_, _, _) => r := FlattenLimit(e, ctx);
        case Having(_, _) => r := FlattenHaving(e, ctx);
        case Join(input, right, alias, on, pred) => r := FlattenJoin(input, JoinPart(right, alias, on, pred), ctx);
        case _ => r := Err(Unsupported);
      }
    }

    method FlattenClause(e: Expr, ctx: SelectCtx) returns (r: Outcome<()>)
      requires (e.Select? || e.Sort? || e.Distinct? || e.Aggregate?) && ctx.Value() == NO_CLAUSES && joins == {}
      modifies ctx, this`joins
      ensures r.Ok? <==> FlattenNode(e).Ok?
      ensures r.Err? ==> FlattenNode(e) == Err(r.error)
      ensures r.Ok? ==> FlattenNode(e) == Ok(ctx.Value()) && joins == Aliases(ctx.joins)
      decreases e.input, 2
    {
      r := Flatten(e.input, ctx);
      if r.Ok? {
        if e.Select? {
          ctx.wheres := ctx.wheres + [e.pred];
        } else if e.Sort? {
          ctx.order := e.orderBy;
        } else if e.Distinct? {
          ctx.distinct := true;
        } else {
          ctx.groupBy, ctx.aggregates := e.groupBy, e.aggregates;
        }
      }
    }

    method FlattenProject(e: Expr, ctx: SelectCtx) returns (r: Outcome<()>)
      requires e.Project? && ctx.Value() == NO_CLAUSES && joins == {}
      modifies ctx, this`joins
      ensures r.Ok? <==> FlattenNode(e).Ok?
      ensures r.Err? ==> FlattenNode(e) == Err(r.error)
      ensures r.Ok? ==> FlattenNode(e) == Ok(ctx.Value()) && joins == Aliases(ctx.joins)
      decreases e.input, 2
    {
      r := Flatten(e.input, ctx);
      if r.Ok? {
        if |ctx.aggregates| > 0 || |ctx.groupBy| > 0 {
          return Err(Unsupported);
        }
        ctx.cols := e.items;
      }
    }

    method FlattenLimit(e: Expr, ctx: SelectCtx) returns (r: Outcome<()>)
      requires e.Limit? && ctx.Value() == NO_CLAUSES && joins == {}
      modifies ctx, this`joins
      ensures r.Ok? <==> FlattenNode(e).Ok?
      ensures r.Err? ==> FlattenNode(e) == Err(r.error)
      ensures r.Ok? ==> FlattenNode(e) == Ok(ctx.Value()) && joins == Aliases(ctx.joins)
      decreases e.input, 2
    {
      if e.count < 1 || e.offset < 0 {
        return Err(InvalidLimit);
      }
      r := Flatten(e.input, ctx);
      if r.Ok? {
        ctx.limit, ctx.offset, ctx.hasLimit := e.count, e.offset, true;
      }
    }

    method FlattenHaving(e: Expr, ctx: SelectCtx) returns (r: Outcome<()>)
      requires e.Having? && ctx.Value() == NO_CLAUSES && joins == {}
      modifies ctx, this`joins
      ensures r.Ok? <==> FlattenNode(e).Ok?
      ensures r.Err? ==> FlattenNode(e) == Err(r.error)
      ensures r.Ok? ==> FlattenNode(e) == Ok(ctx.Value()) && joins == Aliases(ctx.joins)
      decreases e.input, 2
    {
      if !e.input.Aggregate? || e.pred.Nil? {
        return Err(Unsupported);
      }
      r := Flatten(e.input, ctx);
      if r.Ok? {
        ctx.having := e.pred;
      }
    }

    method FlattenJoin(input: Expr, j: JoinPart, ctx: SelectCtx) returns (r: Outcome<()>)
      requires ctx.Value() == NO_CLAUSES && joins == {}
      modifies ctx, this`joins
      ensures var o := FlattenNode(Join(input, j.right, j.alias, j.on, j.pred));
              && (r.Ok? <==> o.Ok?)
              && (r.Err? ==> o == Err(r.error))
              && (r.Ok? ==> o == Ok(ctx.Value()) && joins == Aliases(ctx.joins))
      decreases input, 2
    {
      if j.alias == "" || j.alias == ROOT_ALIAS || j.on == [] {
        return Err(Unsupported);
      }
      r := Flatten(input, ctx);
      if r.Err? {
        return;
      }
      if j.alias in joins {
        return Err(Unsupported);
      }
      AliasesSnoc(ctx.joins, j);
      joins := joins + {j.alias};
      ctx.joins := ctx.joins + [j];
    }

    /** Decides whether the read qualifies its columns. */
    method Qualify(c: Clauses)
      requires root == "" && Valid() && calls == [] && joins == Aliases(c.joins)
      modifies this`root
      ensures Valid() && NamesNow() == NamesOf(c)
    {
      var nests := |c.joins| > 0 || HasExists(c.having);
      for i := 0 to |c.wheres|
        invariant nests <==> c.joins != [] || HasExists(c.having) || exists j :: 0 <= j < i && HasExists(c.wheres[j])
      {
        nests := nests || HasExists(c.wheres[i]);
      }
      if nests {
        root := if c.scanAlias != "" then c.scanAlias else ROOT_ALIAS;
      }
    }

    method ValidatePredicates(ps: seq<Predicate>) returns (r: Outcome<()>)
      ensures r.Ok? <==> ValidEach(ps, maxIn)
    {
      var i := 0;
      while i < |ps|
        invariant i <= |ps|
        invariant ValidEach(ps, maxIn) <==> ValidEach(ps[i..], maxIn)
      {
        assert ps[i..][1..] == ps[i + 1..];
        if !Validate.Valid(ps[i], maxIn) {
          return Err(InvalidPredicate);
        }
        i := i + 1;
      }
      r := Ok(());
    }

    method WriteThroughWhere(c: Clauses, ghost q: Query) returns (r: Outcome<()>)
      requires Valid() && scope == "" && calls == [] && NamesNow() == NamesOf(c) && ph == nested == 0
      requires HeadOf(q, c) && JoinsNamed(c.joins) && NoneNil(c.wheres)
      modifies this`sql, this`args, this`ph, this`scope, this`nested
      ensures scope == ""
      ensures r.Ok? <==>
              ValidCalls(c.aggregates) && ValidJoins(c.joins, maxIn) && Writable(WhereOf(c.wheres), false, maxIn)
      ensures r.Ok? ==> Now() == Add(old(Now()), PrintThroughWhere(q), WhereArgs(q)).(nested := WhereCount(c))
    {
      r := WriteSelectClause(c, q);
      if r.Err? {
        return;
      }
      r := WriteFromClause(c, q);
      if r.Err? {
        return;
      }
      AddThroughWhere(old(Now()), q);
      r := WriteWhereClause(c.wheres);
    }

    method WriteThroughHaving(c: Clauses, ghost q: Query, ghost w: Progress) returns (r: Outcome<()>)
      requires Valid() && scope == "" && calls == [] && NamesNow() == NamesOf(c) && w.ph == 0
      requires Now() == Add(w, PrintThroughWhere(q), WhereArgs(q)).(nested := WhereCount(c))
      requires GroupsOf(q, c) && ValidCalls(c.aggregates)
      modifies this`sql, this`args, this`ph, this`scope, this`nested, this`outputs, this`calls
      ensures Valid() && scope == "" && calls == c.aggregates
      ensures r.Ok? <==> Writable(c.having, false, maxIn)
      ensures r.Ok? ==> Now() == Add(w, PrintThroughHaving(q), QueryArgs(q)).(nested := nested)
    {
      WriteGroupByClause(c.groupBy);
      SetOutputs(c.aggregates);
      AddThroughHaving(w, q);
      r := WriteHavingClause(c.having);
    }

    method WriteClauses(c: Clauses, ghost q: Query) returns (r: Outcome<()>)
      requires Valid() && scope == "" && calls == [] && NamesNow() == NamesOf(c) && ph == nested == 0
      requires HeadOf(q, c) && GroupsOf(q, c) && JoinsNamed(c.joins) && NoneNil(c.wheres)
      modifies this`sql, this`args, this`ph, this`scope, this`nested, this`outputs, this`calls
      ensures r.Ok? <==> Writes(c, maxIn)
      ensures r.Ok? ==> Valid() && scope == "" && calls == c.aggregates
      ensures r.Ok? ==> Now() == Add(old(Now()), PrintThroughHaving(q), QueryArgs(q)).(nested := nested)
    {
      hide HeadOf, GroupsOf, PrintThroughWhere, PrintThroughHaving, QueryArgs, WhereArgs;
      r := WriteThroughWhere(c, q);
      if r.Ok? {
        r := WriteThroughHaving(c, q, old(Now()));
      }
    }

    /** Everything before LIMIT. */
    method WriteBase(c: Clauses, ghost q: Query) returns (r: Outcome<()>)
      requires Valid() && scope == "" && calls == [] && NamesNow() == NamesOf(c) && ph == nested == 0
      requires HeadOf(q, c) && GroupsOf(q, c) && OrderOf(q, c, nullsLast)
      requires JoinsNamed(c.joins) && NoneNil(c.wheres)
      modifies this`sql, this`args, this`ph, this`scope, this`nested, this`outputs, this`calls
      ensures r.Ok? <==> Writes(c, maxIn)
      ensures r.Ok? ==> sql == Append(old(sql), PrintBase(q)) && args == Append(old(args), QueryArgs(q))
    {
      hide HeadOf, GroupsOf, Writes, PrintThroughHaving, QueryArgs;
      r := WriteClauses(c, q);
      if r.Ok? {
        AppendConcat(old(sql), PrintThroughHaving(q), PrintOrderBy(q.orderBy));
        WriteOrderByClause(c.order);
        outputs, calls := map[], [];
      }
    }

    /** Reads the chain into clauses, and refuses an invalid predicate. */
    method ReadChain(e: Expr) returns (r: Outcome<Clauses>)
      requires joins == {} && root == "" && Valid() && calls == []
      modifies this`joins, this`root
      ensures r.Ok? <==> FlattenInput(e).Ok? && ValidEach(FlattenInput(e).value.wheres, maxIn) &&
                         Validate.Valid(FlattenInput(e).value.having, maxIn)
      ensures r.Ok? ==> r.value == FlattenInput(e).value && NamesNow() == NamesOf(r.value) && Valid()
    {
      var ctx := new SelectCtx();
      var ok := Flatten(e, ctx);
      if ok.Err? {
        return Err(ok.error);
      }
      var c := ctx.Value();
      ok := ValidatePredicates(c.wheres);
      if ok.Err? || !Validate.Valid(c.having, maxIn) {
        return Err(InvalidPredicate);
      }
      FlattenedShape(e);
      Qualify(c);
      r := Ok(c);
    }

    /** A read is rendered as the query it resolves to, or refused. */
    method RenderSelect(e: Expr) returns (r: Outcome<()>)
      requires Valid() && Now() == Progress(Empty, Empty, 0, 0) && capLimit == 0 && capOffset == 0
      requires root == "" && joins == {} && scope == "" && calls == []
      modifies this`sql, this`args, this`ph, this`scope, this`nested, this`outputs, this`calls, this`capBase,
          this`capLimit, this`capOffset, this`joins, this`root
      ensures r.Ok? <==> FlattenInput(e).Ok? && Accepted(FlattenInput(e).value, maxIn)
      ensures r.Ok? ==> var c := FlattenInput(e).value;
                        && Renderable(c)
                        && var q := QueryOf(c, nullsLast);
                           && sql == Append(Empty, PrintQuery(q, LimitOf(c), OffsetOf(c))) &&
                              args == Append(Empty, QueryArgs(q))
                           && capBase == Append(Empty, PrintBase(q)) && capLimit == LimitOf(c) &&
                              capOffset == OffsetOf(c)
    {
      var read := ReadChain(e);
      if read.Err? {
        return Err(read.error);
      }
      FlattenedShape(e);
      WhereWritable(read.value.wheres, maxIn);
      ValidIsWritable(read.value.having, false, maxIn);
      ClauseParts(read.value, nullsLast);
      r := RenderClauses(read.value, WrittenQuery(read.value, nullsLast));
      if r.Ok? {
        AcceptedWritten(read.value, maxIn, nullsLast);
      }
    }

    method RenderClauses(c: Clauses, ghost q: Query) returns (r: Outcome<()>)
      requires Valid() && Now() == Progress(Empty, Empty, 0, 0) && capLimit == 0 && capOffset == 0
      requires NamesNow() == NamesOf(c) && scope == "" && calls == []
      requires JoinsNamed(c.joins) && NoneNil(c.wheres)
      requires HeadOf(q, c) && GroupsOf(q, c) && OrderOf(q, c, nullsLast)
      modifies this`sql, this`args, this`ph, this`scope, this`nested, this`outputs, this`calls, this`capBase,
          this`capLimit, this`capOffset
      ensures r.Ok? <==> Writes(c, maxIn)
      ensures r.Ok? ==>
              sql == Append(Empty, PrintQuery(q, LimitOf(c), OffsetOf(c))) && args == Append(Empty, QueryArgs(q))
      ensures r.Ok? ==> capBase == Append(Empty, PrintBase(q)) && capLimit == LimitOf(c) && capOffset == OffsetOf(c)
    {
      hide HeadOf, GroupsOf, OrderOf, Writes, QueryArgs;
      r := WriteBase(c, q);
      if r.Ok? {
        WriteLimit(c, q);
      }
    }

    method WriteLimit(c: Clauses, ghost q: Query)
      requires sql == Append(Empty, PrintBase(q)) && capLimit == 0 && capOffset == 0
      modifies this`sql, this`capBase, this`capLimit, this`capOffset
      ensures sql == Append(Empty, PrintQuery(q, LimitOf(c), OffsetOf(c)))
      ensures capBase == Append(Empty, PrintBase(q)) && capLimit == LimitOf(c) && capOffset == OffsetOf(c)
    {
      capBase := sql;
      if c.hasLimit {
        capLimit, capOffset := c.limit, c.offset;
      }
      AppendConcat(Empty, PrintBase(q), LimitClause(capLimit, capOffset));
      Write(LimitClause(capLimit, capOffset));
    }

    // --- writes ---

    method RenderFieldList(fields: seq<string>) returns (text: seq<Token>)
      ensures text == Joined(IdentTexts(fields))
    {
      var parts: seq<seq<Token>> := [];
      for i := 0 to |fields|
        invariant |parts| == i && forall j :: 0 <= j < i ==> parts[j] == [Ident(fields[j])]
      {
        parts := parts + [[Ident(fields[i])]];
      }
      assert parts == IdentTexts(fields);
      text := Joined(parts);
    }

    method RenderTuples(tuples: seq<seq<Value>>)
      modifies this`sql, this`args, this`ph
      ensures Now() == AddTuples(old(Now()), true, tuples)
    {
      hide AddTuples, PrintTuple, Scalars;
      ghost var all := AddTuples(Now(), true, tuples);
      assert tuples[0..] == tuples;
      for i := 0 to |tuples|
        invariant AddTuples(Now(), i == 0, tuples[i..]) == all
      {
        assert tuples[i..][1..] == tuples[i + 1..];
        AddTuplesCons(Now(), i == 0, tuples[i..]);
        if i > 0 {
          Write([COMMA]);
        }
        RenderTuple(tuples[i]);
      }
      AddNoTuples(Now(), |tuples| == 0);
    }

    /** An insert has columns, tuples, and a value for each column. */
    method RenderInsert(target: RelationRef, columns: seq<string>, tuples: seq<seq<Value>>) returns (r: Outcome<()>)
      requires Now() == Progress(Empty, Empty, 0, 0)
      modifies this`sql, this`args, this`ph
      ensures r.Ok? <==> columns != [] && tuples != [] && forall i :: 0 <= i < |tuples| ==> |tuples[i]| == |columns|
      ensures r.Ok? ==> sql == Append(Empty, PrintInsert(target, columns, tuples, returning))
      ensures r.Ok? ==> args == Append(Empty, TupleArgs(tuples))
    {
      if columns == [] || tuples == [] {
        return Err(MalformedInsert);
      }
      for i := 0 to |tuples|
        invariant forall j :: 0 <= j < i ==> |tuples[j]| == |columns|
      {
        if |tuples[i]| != |columns| {
          return Err(MalformedInsert);
        }
      }
      WriteInsert(target, columns, tuples);
      r := Ok(());
    }

    method WriteInsert(target: RelationRef, columns: seq<string>, tuples: seq<seq<Value>>)
      requires Now() == Progress(Empty, Empty, 0, 0)
      modifies this`sql, this`args, this`ph
      ensures sql == Append(Empty, PrintInsert(target, columns, tuples, returning))
      ensures args == Append(Empty, TupleArgs(tuples))
    {
      ghost var head, rows := InsertHead(target, columns), Joined(TupleTexts(tuples, 0));
      AddPlain(Now(), head, TupleArgs(tuples), rows);
      AddPlain(Now(), head + rows, TupleArgs(tuples), Returning(returning));
      var names := RenderFieldList(columns);
      Write([INSERT_INTO] + PrintTable(target) + [OPEN] + names + [CLOSE, VALUES]);
      RenderTuples(tuples);
      if returning != [] {
        var back := RenderFieldList(returning);
        Write([RETURNING] + back);
      }
    }

    method RenderSets(sets: seq<SetItem>)
      modifies this`sql, this`args, this`ph
      ensures Now() == AddSets(old(Now()), true, sets)
    {
      ghost var all := AddSets(Now(), true, sets);
      assert sets[0..] == sets;
      for i := 0 to |sets|
        invariant AddSets(Now(), i == 0, sets[i..]) == all
      {
        assert sets[i..][1..] == sets[i + 1..];
        AddSetsCons(Now(), i == 0, sets[i..]);
        if i > 0 {
          Write([COMMA]);
        }
        Write([Ident(sets[i].field), Cmp(Eq)]);
        Bind(Scalar(sets[i].value));
      }
    }

    /** An update assigns something to rows a predicate bounds. */
    method RenderUpdate(target: RelationRef, pred: Predicate, sets: seq<SetItem>) returns (r: Outcome<()>)
      requires Valid() && Now() == Progress(Empty, Empty, 0, 0) && NamesNow() == BARE && scope == "" && calls == []
      modifies this`sql, this`args, this`ph, this`scope, this`nested
      ensures r.Ok? <==> sets != [] && !pred.Nil? && Validate.Valid(pred, maxIn)
      ensures r.Ok? ==> var q := Written(BARE, [], "", pred, 0).0;
                        && sql == Append(Empty, PrintUpdate(target, sets, q))
                        && args == Append(Empty, SetArgs(sets) + ArgsOf(q))
    {
      if sets == [] || pred.Nil? {
        return Err(UnboundedWrite);
      }
      ghost var head := [UPDATE] + PrintTable(target) + [SET];
      ghost var q := Written(BARE, [], "", pred, 0).0;
      ghost var items := Joined(SetTexts(sets, 0));
      AddPlain(Now(), head, SetArgs(sets), items);
      AddPlain(Now(), head + items, SetArgs(sets), [WHERE]);
      AddConcat(Now(), head + items + [WHERE], SetArgs(sets), Print(q, |sets|), ArgsOf(q));
      Write([UPDATE] + PrintTable(target) + [SET]);
      RenderSets(sets);
      r := RenderWhere(pred);
    }

    method RenderDelete(target: RelationRef, pred: Predicate) returns (r: Outcome<()>)
      requires Valid() && Now() == Progress(Empty, Empty, 0, 0) && NamesNow() == BARE && scope == "" && calls == []
      modifies this`sql, this`args, this`ph, this`scope, this`nested
      ensures r.Ok? <==> !pred.Nil? && Validate.Valid(pred, maxIn)
      ensures r.Ok? ==> var q := Written(BARE, [], "", pred, 0).0;
                        sql == Append(Empty, PrintDelete(target, q)) && args == Append(Empty, ArgsOf(q))
    {
      if pred.Nil? {
        return Err(UnboundedWrite);
      }
      ghost var head := [DELETE_FROM] + PrintTable(target);
      ghost var q := Written(BARE, [], "", pred, 0).0;
      AddPlain(Now(), head, [], [WHERE]);
      AddPlain(Now(), head + [WHERE], ArgsOf(q), Print(q, 0));
      Write([DELETE_FROM] + PrintTable(target));
      r := RenderWhere(pred);
    }

    method RenderWhere(pred: Predicate) returns (r: Outcome<()>)
      requires Valid() && scope == ""
      modifies this`sql, this`args, this`ph, this`scope, this`nested
      ensures r.Ok? <==> Validate.Valid(pred, maxIn)
      ensures r.Ok? ==> Now() == After(Add(old(Now()), [WHERE], []), NamesNow(), calls, "", pred)
    {
      if !Validate.Valid(pred, maxIn) {
        return Err(InvalidPredicate);
      }
      ValidIsWritable(pred, false, maxIn);
      Write([WHERE]);
      r := RenderPredicate(pred);
    }

    method RenderCall(procedure: RelationRef, values: seq<Value>)
      requires Now() == Progress(Empty, Empty, 0, 0)
      modifies this`sql, this`args, this`ph
      ensures sql == Append(Empty, PrintCall(procedure, values)) && args == Append(Empty, Scalars(values))
    {
      AddPlain(Now(), [CALL] + PrintTable(procedure), Scalars(values), PrintTuple(0, |values|));
      Write([CALL] + PrintTable(procedure));
      RenderTuple(values);
    }
  }
}
