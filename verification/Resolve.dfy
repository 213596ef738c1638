/** How the renderer names columns: a read that joins or nests qualifies every
    column, HAVING and ORDER BY write the call of an aggregate for its name,
    and an EXISTS names its own relation's columns by its alias. */
module Resolve {
  import opened Texts
  import opened Relalg
  import opened SqlSelect
  import opened Flatten

  /** What a column name may refer to: root qualifies the read's own columns
      ("": bare), joins are the aliases naming joined ones. */
  datatype Names = Names(root: string, joins: set<string>)

  function HasExists(p: Predicate): bool
    decreases p, 1
  {
    match p
    case Exists(_, _, _) => true
    case And(ps) => AnyExists(ps)
    case Or(ps) => AnyExists(ps)
    case Not(q) => HasExists(q)
    case _ => false
  }

  function AnyExists(ps: seq<Predicate>): (b: bool)
    ensures b <==> exists i :: 0 <= i < |ps| && HasExists(ps[i])
    decreases ps, 0
  {
    if ps == [] then false
    else
      var b := HasExists(ps[0]) || AnyExists(ps[1..]);
      assert forall i :: 0 < i < |ps| ==> ps[i] == ps[1..][i-1];
      b
  }

  /** The column name refers to, outside an EXISTS. */
  function Col(ns: Names, name: string): (c: Column)
    ensures c.Column?
  {
    var i := Find(name, '.');
    if i < |name| && name[..i] in ns.joins then Column(name[..i], name[i + 1..])
    else Column(ns.root, name)
  }

  function CallColumn(ns: Names, a: AggCall): Column {
    if a.field == "" then CallOf(a.fn, a.distinct, true, "", "")
    else
      var c := Col(ns, a.field);
      CallOf(a.fn, a.distinct, false, c.qualifier, c.name)
  }

  /** The last of the calls named name. */
  function Named(outputs: seq<AggCall>, name: string): (i: int)
    ensures -1 <= i < |outputs|
    ensures i >= 0 ==> outputs[i].name == name != "" && forall k :: i < k < |outputs| ==> outputs[k].name != name
    ensures i == -1 && name != "" ==> forall k :: 0 <= k < |outputs| ==> outputs[k].name != name
  {
    if outputs == [] then -1
    else if outputs[|outputs|-1].name == name != "" then |outputs|-1
    else Named(outputs[..|outputs|-1], name)
  }

  /** The column a condition or an order term refers to: a call it names, else
      Col; outputs are the calls in scope. */
  function OutputColumn(ns: Names, outputs: seq<AggCall>, name: string): Column {
    var i := Named(outputs, name);
    if i >= 0 then CallColumn(ns, outputs[i]) else Col(ns, name)
  }

  function OnPairs(ns: Names, on: seq<JoinPair>): (ps: seq<OnPair>)
    ensures |ps| == |on|
    ensures forall i :: 0 <= i < |on| ==> ps[i] == OnPair(on[i].right, Col(ns, on[i].left))
  {
    if on == [] then [] else [OnPair(on[0].right, Col(ns, on[0].left))] + OnPairs(ns, on[1..])
  }

  function ExistsAlias(k: nat): (alias: string)
    ensures alias != ""
  {
    "x" + Itoa(k)
  }

  /** p inside an EXISTS or a join, its columns those of alias. */
  function Scoped(alias: string, p: Predicate): SqlPredicate
    requires !HasExists(p)
    decreases p, 1
  {
    match p
    case Nil => SqlNil
    case Condition(f, op, operand) => SqlCondition(Column(alias, f), op, operand)
    case And(ps) => SqlAnd(ScopedAll(alias, ps))
    case Or(ps) => SqlOr(ScopedAll(alias, ps))
    case Not(q) => SqlNot(Scoped(alias, q))
  }

  function ScopedAll(alias: string, ps: seq<Predicate>): (qs: seq<SqlPredicate>)
    requires !AnyExists(ps)
    ensures |qs| == |ps|
    ensures forall i :: 0 <= i < |ps| ==> !HasExists(ps[i]) && qs[i] == Scoped(alias, ps[i])
    decreases ps, 0
  {
    if ps == [] then []
    else
      assert forall i :: 0 < i < |ps| ==> ps[i] == ps[1..][i-1];
      [Scoped(alias, ps[0])] + ScopedAll(alias, ps[1..])
  }

  /** An EXISTS nests no other. */
  predicate Flat(p: Predicate)
    decreases p, 1
  {
    match p
    case Exists(_, _, inner) => !HasExists(inner)
    case And(ps) => FlatAll(ps)
    case Or(ps) => FlatAll(ps)
    case Not(q) => Flat(q)
    case _ => true
  }

  predicate FlatAll(ps: seq<Predicate>)
    decreases ps, 0
  {
    ps == [] || (Flat(ps[0]) && FlatAll(ps[1..]))
  }

  /** p with its columns resolved; k counts the EXISTS rendered before it, and
      the result's count is k plus its own. */
  function Resolved(ns: Names, outputs: seq<AggCall>, p: Predicate, k: nat): (SqlPredicate, nat)
    requires Flat(p)
    decreases p, 1
  {
    match p
    case Nil => (SqlNil, k)
    case Condition(f, op, operand) => (SqlCondition(OutputColumn(ns, outputs, f), op, operand), k)
    case And(ps) => var (qs, n) := ResolvedAll(ns, outputs, ps, k); (SqlAnd(qs), n)
    case Or(ps) => var (qs, n) := ResolvedAll(ns, outputs, ps, k); (SqlOr(qs), n)
    case Not(q) => var (r, n) := Resolved(ns, outputs, q, k); (SqlNot(r), n)
    case Exists(relation, on, inner) =>
      var alias := ExistsAlias(k + 1);
      (SqlExists(relation, alias, OnPairs(ns, on), Scoped(alias, inner)), k + 1)
  }

  function ResolvedAll(ns: Names, outputs: seq<AggCall>, ps: seq<Predicate>, k: nat): (r: (seq<SqlPredicate>, nat))
    requires FlatAll(ps)
    ensures |r.0| == |ps|
    decreases ps, 0
  {
    if ps == [] then ([], k)
    else
      var (q, n) := Resolved(ns, outputs, ps[0], k);
      var (qs, m) := ResolvedAll(ns, outputs, ps[1..], n);
      ([q] + qs, m)
  }

  // --- the SELECT of flattened clauses ---

  predicate Nested(c: Clauses) {
    c.joins != [] || HasExists(c.having) || AnyExists(c.wheres)
  }

  function NamesOf(c: Clauses): Names {
    Names(if !Nested(c) then "" else if c.scanAlias != "" then c.scanAlias else ROOT_ALIAS, Aliases(c.joins))
  }

  /** The alias FROM gives the read's relation; "" gives it none. */
  function FromAlias(c: Clauses): string {
    if c.scanAlias != "" then c.scanAlias else NamesOf(c).root
  }

  function GroupColumns(ns: Names, fields: seq<string>): (cs: seq<Column>)
    ensures |cs| == |fields|
    ensures forall i :: 0 <= i < |fields| ==> cs[i] == Col(ns, fields[i])
  {
    if fields == [] then [] else [Col(ns, fields[0])] + GroupColumns(ns, fields[1..])
  }

  function ProjectColumns(ns: Names, items: seq<ProjectItem>): (ss: seq<SelectItem>)
    ensures |ss| == |items|
    ensures forall i :: 0 <= i < |items| ==> ss[i] == SelectItem(Col(ns, items[i].field), items[i].alias)
  {
    if items == [] then []
    else [SelectItem(Col(ns, items[0].field), items[0].alias)] + ProjectColumns(ns, items[1..])
  }

  function AggregateColumns(ns: Names, groupBy: seq<string>, cs: seq<AggCall>): (ss: seq<SelectItem>)
    ensures |ss| == |groupBy| + |cs|
    ensures forall i :: 0 <= i < |ss| ==>
              ss[i] == SelectItem(if i < |groupBy| then Col(ns, groupBy[i]) else CallColumn(ns, cs[i - |groupBy|]), "")
  {
    seq(|groupBy| + |cs|, i requires 0 <= i < |groupBy| + |cs| =>
      if i < |groupBy| then SelectItem(Col(ns, groupBy[i]), "")
      else SelectItem(CallColumn(ns, cs[i - |groupBy|]), ""))
  }

  function SortItems(ns: Names, outputs: seq<AggCall>, nullsLast: bool, terms: seq<OrderTerm>): seq<SortItem> {
    if terms == [] then []
    else
      var c := OutputColumn(ns, outputs, terms[0].field);
      (if terms[0].nullable && !nullsLast then [NullCase(c)] else [])
      + [SortBy(c, terms[0].desc, terms[0].nullable && nullsLast)]
      + SortItems(ns, outputs, nullsLast, terms[1..])
  }

  function SqlJoins(ns: Names, joins: seq<JoinPart>): (js: seq<SqlJoin>)
    requires forall i :: 0 <= i < |joins| ==> !HasExists(joins[i].pred)
    ensures |js| == |joins|
    ensures forall i :: 0 <= i < |joins| ==>
              js[i] == SqlJoin(joins[i].right, joins[i].alias, OnPairs(ns, joins[i].on),
                  Scoped(joins[i].alias, joins[i].pred))
  {
    if joins == [] then []
    else
      [SqlJoin(joins[0].right, joins[0].alias, OnPairs(ns, joins[0].on), Scoped(joins[0].alias, joins[0].pred))]
      + SqlJoins(ns, joins[1..])
  }

  predicate Renderable(c: Clauses) {
    && (forall i :: 0 <= i < |c.joins| ==> !HasExists(c.joins[i].pred))
    && FlatAll(c.wheres)
    && Flat(c.having)
  }

  function ListOf(c: Clauses): SelectList {
    var ns := NamesOf(c);
    if Aggregates(c) then Items(AggregateColumns(ns, c.groupBy, c.aggregates))
    else if c.cols != [] then Items(ProjectColumns(ns, c.cols))
    else Star
  }

  /** The statement the clauses render as; nullsLast is whether the dialect
      has NULLS LAST. */
  function QueryOf(c: Clauses, nullsLast: bool): Query
    requires Renderable(c)
  {
    var ns := NamesOf(c);
    var (where, k) := ResolvedAll(ns, [], c.wheres, 0);
    var (having, n) := Resolved(ns, c.aggregates, c.having, k);
    Query(c.relation, FromAlias(c), SqlJoins(ns, c.joins), where, GroupColumns(ns, c.groupBy), having, ListOf(c),
          c.distinct, SortItems(ns, c.aggregates, nullsLast, c.order))
  }
}
