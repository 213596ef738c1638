/** One SELECT statement by its clauses, evaluated in the order SQL gives them:
    FROM and LEFT JOIN, WHERE, GROUP BY, HAVING, the select list, DISTINCT,
    ORDER BY, LIMIT (sections 7.4 and 7.12 of ISO/IEC 9075-2:2003). Columns are
    resolved: qualified by an alias, bare (of the FROM relation), or the call
    of an aggregate. */
module SqlSelect {
  import opened Lists
  import opened Relalg

  datatype Column =
    | Column(qualifier: string, name: string)
    | CallOf(fn: AggFunc, distinct: bool, star: bool, qualifier: string, name: string)

  datatype OnPair = OnPair(right: string, left: Column)

  datatype SqlPredicate =
    | SqlNil
    | SqlCondition(column: Column, op: Op, operand: Operand)
    | SqlAnd(preds: seq<SqlPredicate>)
    | SqlOr(preds: seq<SqlPredicate>)
    | SqlNot(p: SqlPredicate)
    | SqlExists(relation: RelationRef, alias: string, on: seq<OnPair>, inner: SqlPredicate)

  datatype SqlJoin = SqlJoin(right: RelationRef, alias: string, on: seq<OnPair>, pred: SqlPredicate)

  datatype SelectItem = SelectItem(column: Column, alias: string)

  /** Star is every column of the FROM relation. */
  datatype SelectList = Star | Items(items: seq<SelectItem>)

  /** NullCase orders by CASE WHEN column IS NULL THEN 1 ELSE 0 END. */
  datatype SortItem =
    | SortBy(column: Column, desc: bool, nullsLast: bool)
    | NullCase(column: Column)

  datatype Query = Query(
    relation: RelationRef, alias: string, joins: seq<SqlJoin>, where: seq<SqlPredicate>,
    groupBy: seq<Column>, having: SqlPredicate, list: SelectList, distinct: bool,
    orderBy: seq<SortItem>)

  type Frames = map<string, Row>

  /** What a clause is evaluated on: the rows of its relations by alias, or,
      past GROUP BY, a group of those. */
  datatype Ctx = RowCtx(frames: Frames) | GroupCtx(members: seq<Frames>)

  function Frame(frames: Frames, alias: string): Row {
    if alias in frames then frames[alias] else map[]
  }

  function ColumnOf(from: string, frames: Frames, qualifier: string, name: string): Value {
    Get(Frame(frames, if qualifier == "" then from else qualifier), name)
  }

  function MemberValue(from: string, star: bool, qualifier: string, name: string): Frames -> Value {
    (m: Frames) => if star then Bool(true) else ColumnOf(from, m, qualifier, name)
  }

  function Representative(ctx: Ctx): Frames {
    match ctx
    case RowCtx(frames) => frames
    case GroupCtx(members) => if members == [] then map[] else members[0]
  }

  /** A bare or qualified column of a group is that of any of its rows: SQL
      admits only the columns it groups by. */
  function ColumnValue(db: Db, from: string, ctx: Ctx, c: Column): Value {
    match c
    case Column(qualifier, name) => ColumnOf(from, Representative(ctx), qualifier, name)
    case CallOf(fn, distinct, star, qualifier, name) =>
      var members := if ctx.RowCtx? then [ctx.frames] else ctx.members;
      db.aggregate(fn, distinct, Map(MemberValue(from, star, qualifier, name), members))
  }

  function Extend(ctx: Ctx, alias: string, row: Row): Ctx {
    RowCtx(Representative(ctx)[alias := row])
  }

  /** The same inside an EXISTS, where "" is what a bare name is of: the
      subquery's row, when it has a column of that name, else the outer one. */
  function Inside(from: string, ctx: Ctx, alias: string, row: Row): Ctx {
    var outer := Representative(ctx);
    RowCtx(outer[alias := row]["" := Frame(outer, from) + row])
  }

  /** Each pair's right column of row equals its left column in ctx. */
  predicate OnPairsTrue(db: Db, from: string, ctx: Ctx, on: seq<OnPair>, row: Row) {
    forall i :: 0 <= i < |on| ==> Compare(db, Eq, Get(row, on[i].right), ColumnValue(db, from, ctx, on[i].left)) == True
  }

  ghost function Truth3(db: Db, from: string, ctx: Ctx, p: SqlPredicate): Truth
    decreases p, 1
  {
    match p
    case SqlNil => True
    case SqlCondition(c, op, operand) => ConditionTruth(db, ColumnValue(db, from, ctx, c), op, operand)
    case SqlAnd(ps) => AndAll(Truths(db, from, ctx, ps))
    case SqlOr(ps) => OrAll(Truths(db, from, ctx, ps))
    case SqlNot(q) => Not3(Truth3(db, from, ctx, q))
    case SqlExists(relation, alias, on, inner) =>
      var rows := db.table(relation);
      Of(exists i :: 0 <= i < |rows| && OnPairsTrue(db, "", Inside(from, ctx, alias, rows[i]), on, rows[i]) &&
                     Truth3(db, "", Inside(from, ctx, alias, rows[i]), inner) == True)
  }

  ghost function Truths(db: Db, from: string, ctx: Ctx, ps: seq<SqlPredicate>): (ts: seq<Truth>)
    ensures |ts| == |ps|
    ensures forall i :: 0 <= i < |ps| ==> ts[i] == Truth3(db, from, ctx, ps[i])
    decreases ps, 0
  {
    if ps == [] then [] else [Truth3(db, from, ctx, ps[0])] + Truths(db, from, ctx, ps[1..])
  }

  /** One predicate alone is a conjunction. */
  lemma AndOne(db: Db, from: string, ctx: Ctx, p: SqlPredicate)
    ensures Truth3(db, from, ctx, SqlAnd([p])) == Truth3(db, from, ctx, p)
  {
    var ts := Truths(db, from, ctx, [p]);
    assert ts[1..] == [] && ts[0] == Truth3(db, from, ctx, p);
    assert AndAll(ts) == And3(ts[0], AndAll(ts[1..]));
  }

  // --- FROM ... LEFT JOIN ... WHERE ---

  ghost function SqlMatching(db: Db, from: string, j: SqlJoin, frames: Frames): Row -> bool {
    (row: Row) =>
      OnPairsTrue(db, from, Extend(RowCtx(frames), j.alias, row), j.on, row) &&
      Truth3(db, from, Extend(RowCtx(frames), j.alias, row), j.pred) == True
  }

  ghost function SqlJoining(frames: Frames, alias: string): Row -> Frames {
    (row: Row) => frames[alias := row]
  }

  ghost function SqlJoinRow(db: Db, from: string, j: SqlJoin): Frames -> seq<Frames> {
    (frames: Frames) =>
      Map(SqlJoining(frames, j.alias), OrNone(Filter(SqlMatching(db, from, j, frames), db.table(j.right))))
  }

  ghost function FromRows(db: Db, q: Query, n: nat): seq<Frames>
    requires n <= |q.joins|
  {
    if n == 0 then Map(SqlJoining(map[], q.alias), db.table(q.relation))
    else FlatMap(SqlJoinRow(db, q.alias, q.joins[n-1]), FromRows(db, q, n-1))
  }

  ghost function TrueOn(db: Db, from: string, p: SqlPredicate): Frames -> bool {
    (frames: Frames) => Truth3(db, from, RowCtx(frames), p) == True
  }

  ghost function WhereRows(db: Db, q: Query): seq<Frames> {
    Filter(TrueOn(db, q.alias, SqlAnd(q.where)), FromRows(db, q, |q.joins|))
  }

  // --- GROUP BY ... HAVING ---

  predicate Grouped(q: Query) {
    q.groupBy != [] || (q.list.Items? && exists i :: 0 <= i < |q.list.items| && q.list.items[i].column.CallOf?)
  }

  function ColumnValues(db: Db, from: string, ctx: Ctx, cs: seq<Column>): (vs: seq<Value>)
    ensures |vs| == |cs|
    ensures forall i :: 0 <= i < |cs| ==> vs[i] == ColumnValue(db, from, ctx, cs[i])
  {
    if cs == [] then [] else [ColumnValue(db, from, ctx, cs[0])] + ColumnValues(db, from, ctx, cs[1..])
  }

  ghost function SqlKeyOf(db: Db, q: Query): Frames -> seq<Value> {
    (m: Frames) => ColumnValues(db, q.alias, RowCtx(m), q.groupBy)
  }

  ghost function SqlInGroup(db: Db, q: Query, key: seq<Value>): Frames -> bool {
    (m: Frames) => ColumnValues(db, q.alias, RowCtx(m), q.groupBy) == key
  }

  ghost function SqlGroupOf(db: Db, q: Query, rows: seq<Frames>): Frames -> seq<Frames> {
    (first: Frames) => Filter(SqlInGroup(db, q, SqlKeyOf(db, q)(first)), rows)
  }

  ghost function SqlGroups(db: Db, q: Query, rows: seq<Frames>): seq<seq<Frames>> {
    if q.groupBy == [] then [rows] else Map(SqlGroupOf(db, q, rows), Dedup(SqlKeyOf(db, q), rows))
  }

  ghost function OfGroup(): seq<Frames> -> Ctx {
    (g: seq<Frames>) => GroupCtx(g)
  }

  ghost function OfRow(): Frames -> Ctx {
    (m: Frames) => RowCtx(m)
  }

  ghost function Contexts(db: Db, q: Query): seq<Ctx> {
    if Grouped(q) then Map(OfGroup(), SqlGroups(db, q, WhereRows(db, q))) else Map(OfRow(), WhereRows(db, q))
  }

  ghost function Keeps(db: Db, from: string, p: SqlPredicate): Ctx -> bool {
    (ctx: Ctx) => Truth3(db, from, ctx, p) == True
  }

  ghost function HavingRows(db: Db, q: Query): seq<Ctx> {
    Filter(Keeps(db, q.alias, q.having), Contexts(db, q))
  }

  // --- SELECT, DISTINCT, ORDER BY, LIMIT ---

  datatype Selected = Selected(ctx: Ctx, out: Output)

  function ItemColumns(items: seq<SelectItem>): (cs: seq<Column>)
    ensures |cs| == |items|
    ensures forall i :: 0 <= i < |items| ==> cs[i] == items[i].column
  {
    if items == [] then [] else [items[0].column] + ItemColumns(items[1..])
  }

  function SelectOut(db: Db, q: Query, ctx: Ctx): Output {
    match q.list
    case Star => Whole(Frame(Representative(ctx), q.alias))
    case Items(items) => Columns(ColumnValues(db, q.alias, ctx, ItemColumns(items)))
  }

  /** The first item the column is an alias of, or, from a select list of
      distinct rows, the first item it is. */
  function PositionByAlias(items: seq<SelectItem>, c: Column): (i: nat)
    ensures i <= |items|
    ensures i < |items| ==> c.Column? && c.qualifier == "" && items[i].alias == c.name != ""
  {
    if items == [] then 0
    else if c.Column? && c.qualifier == "" && items[0].alias == c.name != "" then 0
    else 1 + PositionByAlias(items[1..], c)
  }

  function PositionByColumn(items: seq<SelectItem>, c: Column): (i: nat)
    ensures i <= |items|
    ensures i < |items| ==> items[i].column == c
    ensures i == |items| ==> forall k :: 0 <= k < |items| ==> items[k].column != c
  {
    if items == [] then 0
    else if items[0].column == c then 0
    else 1 + PositionByColumn(items[1..], c)
  }

  datatype Option<T> = None | Some(value: T)

  /** The value ORDER BY c sorts a selected row by: an output column of that
      name, else c itself, which distinct rows have only when they select it. */
  function OrderValue(db: Db, q: Query, s: Selected, c: Column): Option<Value> {
    var items := if q.list.Items? then q.list.items else [];
    var i, k := PositionByAlias(items, c), PositionByColumn(items, c);
    if i < |items| && s.out.Columns? && i < |s.out.values| then Some(s.out.values[i])
    else if !q.distinct then Some(ColumnValue(db, q.alias, s.ctx, c))
    else if k < |items| && s.out.Columns? && k < |s.out.values| then Some(s.out.values[k])
    else if q.list.Star? && s.out.Whole? && c.Column? && (c.qualifier == "" || c.qualifier == q.alias) then
      Some(Get(s.out.row, c.name))
    else None
  }

  predicate Orderable(db: Db, q: Query, s: Selected) {
    forall i :: 0 <= i < |q.orderBy| ==> OrderValue(db, q, s, q.orderBy[i].column).Some?
  }

  function ItemKey(db: Db, q: Query, s: Selected, item: SortItem): Value {
    match OrderValue(db, q, s, item.column)
    case None => Null
    case Some(v) => if item.NullCase? then (if v.Null? then Num(1.0) else Num(0.0)) else v
  }

  function CompareItem(db: Db, item: SortItem, x: Value, y: Value): int {
    match item
    case NullCase(_) => CompareKeys(db, false, db.nullsFirst(false), x, y)
    case SortBy(_, desc, nullsLast) => CompareKeys(db, desc, !nullsLast && db.nullsFirst(desc), x, y)
  }

  predicate ItemsLe(db: Db, q: Query, items: seq<SortItem>, s: Selected, t: Selected) {
    items == [] ||
    (var c := CompareItem(db, items[0], ItemKey(db, q, s, items[0]), ItemKey(db, q, t, items[0]));
     c < 0 || (c == 0 && ItemsLe(db, q, items[1..], s, t)))
  }

  ghost function Selecting(db: Db, q: Query): Ctx -> Selected {
    (ctx: Ctx) => Selected(ctx, SelectOut(db, q, ctx))
  }

  ghost function SelectedOut(): Selected -> Output {
    (s: Selected) => s.out
  }

  ghost function SqlOrdering(db: Db, q: Query): (Selected, Selected) -> bool {
    (s, t) => ItemsLe(db, q, q.orderBy, s, t)
  }

  ghost function SelectedRows(db: Db, q: Query): seq<Selected> {
    var rows := Map(Selecting(db, q), HavingRows(db, q));
    if q.distinct then Dedup(SelectedOut(), rows) else rows
  }

  ghost function OrderedRows(db: Db, q: Query): seq<Selected> {
    if q.orderBy == [] then SelectedRows(db, q) else Lists.Sort(SqlOrdering(db, q), SelectedRows(db, q))
  }

  /** Every selected row has what ORDER BY sorts by. */
  ghost predicate Sortable(db: Db, q: Query) {
    forall s :: s in SelectedRows(db, q) ==> Orderable(db, q, s)
  }

  ghost function SelectedOutputs(db: Db, q: Query): seq<Output> {
    Map(SelectedOut(), OrderedRows(db, q))
  }

  /** A limit below 1 is none. */
  function Cut<A>(xs: seq<A>, limit: int, offset: int): seq<A> {
    if limit < 1 then xs else Slice(xs, offset, limit)
  }

  /** No two relations of FROM have the same name, and none is named before it is
      joined. */
  predicate Exposed(q: Query) {
    && (forall i :: 0 <= i < |q.joins| ==> q.joins[i].alias != q.alias)
    && (forall i, j :: 0 <= i < j < |q.joins| ==> q.joins[i].alias != q.joins[j].alias)
    && (forall i, j, n :: 0 <= i < j < |q.joins| && 0 <= n < |q.joins[i].on| ==>
          q.joins[i].on[n].left.qualifier != q.joins[j].alias)
  }

  /** The result of the statement; None when it names two relations alike, or one
      before it is joined, or orders by what it may not. */
  ghost function Result(db: Db, q: Query, limit: int, offset: int): Option<seq<Output>> {
    if Exposed(q) && Sortable(db, q) then Some(Cut(SelectedOutputs(db, q), limit, offset)) else None
  }
}
