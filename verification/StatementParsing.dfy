/** Reading a whole statement back: its clauses in the order SQL gives them, and
    its values, the arguments its placeholders name. */
module StatementParsing {
  import opened Relalg
  import opened SqlSelect
  import opened Printing
  import opened Parsing

  /** A statement as it is read; a limit below 1 is none. */
  datatype Command =
    | Reads(query: Query, limit: int, offset: int)
    | Inserts(target: RelationRef, columns: seq<string>, tuples: seq<seq<Value>>, returning: seq<string>)
    | Updates(target: RelationRef, sets: seq<SetItem>, pred: SqlPredicate)
    | Deletes(target: RelationRef, pred: SqlPredicate)
    | Calls(target: RelationRef, values: seq<Value>)

  // --- lists ---

  ghost predicate Shrinks<T>(parse: Tokens -> Parsed<T>) {
    forall ts :: parse(ts).Done? ==> Len(parse(ts).rest) < Len(ts)
  }

  /** One or more, separated by commas. */
  function ParseCommas<T>(parse: Tokens -> Parsed<T>, ts: Tokens): Parsed<seq<T>>
    requires Shrinks(parse)
    decreases Len(ts)
  {
    var (x, rest) :- parse(ts);
    if Starts(rest, COMMA) then
      var (xs, end) :- ParseCommas(parse, rest.tail);
      Done([x] + xs, end)
    else Done([x], rest)
  }

  function ParseIdent(ts: Tokens): (r: Parsed<string>)
    ensures r.Done? ==> Len(r.rest) < Len(ts)
  {
    if ts.Tok? && ts.head.Ident? then Done(ts.head.name, ts.tail) else Fail
  }

  function ParseTable(ts: Tokens): Parsed<RelationRef> {
    var ((schema, name), rest) :- ParseName(ts);
    Done(RelationRef(schema, name), rest)
  }

  /** The name after an AS, or "". */
  function ParseAlias(ts: Tokens): (r: (string, Tokens))
    ensures Len(r.1) <= Len(ts)
  {
    if Starts(ts, AS) && ts.tail.Tok? && ts.tail.head.Ident? then
      assert Len(ts) == 2 + Len(ts.tail.tail);
      (ts.tail.head.name, ts.tail.tail)
    else ("", ts)
  }

  function ParseItem(ts: Tokens): (r: Parsed<SelectItem>)
    ensures r.Done? ==> Len(r.rest) < Len(ts)
  {
    var (c, rest) :- ParseColumn(ts);
    var (alias, end) := ParseAlias(rest);
    Done(SelectItem(c, alias), end)
  }

  const NULL_CASE := [IS_NULL, THEN, Numeral(1), ELSE, Numeral(0), END]

  function ParseDirection(c: Column, ts: Tokens): (r: Parsed<SortItem>)
    ensures r.Done? ==> Len(r.rest) < Len(ts)
  {
    if Starts(ts, ASC) || Starts(ts, DESC) then
      if Starts(ts.tail, NULLS_LAST) then Done(SortBy(c, ts.head == DESC, true), ts.tail.tail)
      else Done(SortBy(c, ts.head == DESC, false), ts.tail)
    else Fail
  }

  function ParseSortItem(ts: Tokens): (r: Parsed<SortItem>)
    ensures r.Done? ==> Len(r.rest) < Len(ts)
  {
    if Starts(ts, CASE_WHEN) then
      var (c, rest) :- ParseColumn(ts.tail);
      var (_, end) :- Expect(rest, NULL_CASE);
      Done(NullCase(c), end)
    else
      var (c, rest) :- ParseColumn(ts);
      ParseDirection(c, rest)
  }

  // --- SELECT ---

  /** SELECT *, alias.*, or items; with the qualifier of a star. */
  function ParseSelectList(ts: Tokens): Parsed<(SelectList, string)> {
    if Starts(ts, ALL) then Done((Star, ""), ts.tail)
    else if ts.Tok? && ts.head.Ident? && Starts(ts.tail, DOT) && Starts(ts.tail.tail, ALL) then
      Done((Star, ts.head.name), ts.tail.tail.tail)
    else
      var (items, rest) :- ParseCommas(ParseItem, ts);
      Done((Items(items), ""), rest)
  }

  /** A star is every column of the FROM relation: bare, of a FROM with no
      joins, else qualified by its alias. */
  predicate StarOf(list: SelectList, star: string, alias: string, joins: seq<SqlJoin>) {
    list.Star? ==> if joins == [] then star == "" else star == alias != ""
  }

  function ParseJoin(ts: Tokens, args: seq<Operand>): (r: Parsed<SqlJoin>)
    ensures r.Done? ==> Len(r.rest) < Len(ts)
  {
    var ((schema, name), rest) :- ParseName(ts);
    if Starts(rest, AS) && rest.tail.Tok? && rest.tail.head.Ident? && Starts(rest.tail.tail, ON) then
      assert Len(rest.tail) == 2 + Len(rest.tail.tail.tail);
      var ((on, pred), end) :- ParseOn(rest.tail.head.name, rest.tail.tail.tail, args);
      Done(SqlJoin(RelationRef(schema, name), rest.tail.head.name, on, pred), end)
    else Fail
  }

  function ParseJoins(ts: Tokens, args: seq<Operand>): Parsed<seq<SqlJoin>>
    decreases Len(ts)
  {
    if Starts(ts, LEFT_JOIN) then
      var (j, rest) :- ParseJoin(ts.tail, args);
      var (js, end) :- ParseJoins(rest, args);
      Done([j] + js, end)
    else Done([], ts)
  }

  /** The predicate after word, or SqlNil. */
  function ParseClause(word: Token, ts: Tokens, args: seq<Operand>): Parsed<SqlPredicate> {
    if Starts(ts, word) then ParseOr(ts.tail, args) else Done(SqlNil, ts)
  }

  function ParseAfter<T>(word: Token, parse: Tokens -> Parsed<T>, ts: Tokens): Parsed<seq<T>>
    requires Shrinks(parse)
  {
    if Starts(ts, word) then ParseCommas(parse, ts.tail) else Done([], ts)
  }

  function ParseNumber(word: Token, ts: Tokens): Parsed<int> {
    if Starts(ts, word) then
      if ts.tail.Tok? && ts.tail.head.Numeral? then Done(ts.tail.head.n, ts.tail.tail) else Fail
    else Done(0, ts)
  }

  function ParseSelect(ts: Tokens, args: seq<Operand>): Parsed<Command> {
    var distinct := Starts(ts, DISTINCT);
    var ((list, star), f) :- ParseSelectList(if distinct then ts.tail else ts);
    var (_, t) :- Expect(f, [FROM]);
    var (relation, a) :- ParseTable(t);
    var (alias, j) := ParseAlias(a);
    var (joins, w) :- ParseJoins(j, args);
    if !StarOf(list, star, alias, joins) then Fail else ParseRest(relation, alias, joins, list, distinct, w, args)
  }

  /** From WHERE on. */
  function ParseRest(
    relation: RelationRef, alias: string, joins: seq<SqlJoin>, list: SelectList, distinct: bool, ts: Tokens,
    args: seq<Operand>)
    : Parsed<Command>
  {
    var (where, g) :- ParseClause(WHERE, ts, args);
    var (groupBy, h) :- ParseAfter(GROUP_BY, ParseColumn, g);
    var (having, o) :- ParseClause(HAVING, h, args);
    var (orderBy, l) :- ParseAfter(ORDER_BY, ParseSortItem, o);
    var (limit, m) :- ParseNumber(LIMIT, l);
    var (offset, end) :- ParseNumber(OFFSET, m);
    Done(Reads(Query(relation, alias, joins, if where.SqlNil? then []
        else [where], groupBy, having, list, distinct, orderBy),
               limit, offset), end)
  }

  // --- writes ---

  function ParseTuple(ts: Tokens, args: seq<Operand>): (r: Parsed<seq<Value>>)
    ensures r.Done? ==> Len(r.rest) < Len(ts)
  {
    if Starts(ts, OPEN) && Starts(ts.tail, CLOSE) then Done([], ts.tail.tail)
    else
      var (operand, rest) :- ParseList(ts, args);
      if operand.List? then Done(operand.values, rest) else Fail
  }

  function TupleOf(args: seq<Operand>): Tokens -> Parsed<seq<Value>> {
    (ts: Tokens) => ParseTuple(ts, args)
  }

  function ParseInsert(ts: Tokens, args: seq<Operand>): Parsed<Command> {
    var (target, o) :- ParseTable(ts);
    var (_, c) :- Expect(o, [OPEN]);
    var (columns, v) :- ParseCommas(ParseIdent, c);
    var (_, t) :- Expect(v, [CLOSE, VALUES]);
    var (tuples, r) :- ParseCommas(TupleOf(args), t);
    var (returning, end) :- ParseAfter(RETURNING, ParseIdent, r);
    Done(Inserts(target, columns, tuples, returning), end)
  }

  function ParseSet(ts: Tokens, args: seq<Operand>): (r: Parsed<SetItem>)
    ensures r.Done? ==> Len(r.rest) < Len(ts)
  {
    if ts.Tok? && ts.head.Ident? && Starts(ts.tail, Cmp(Eq)) && ts.tail.tail.Tok? && ts.tail.tail.head.Param? then
      assert Len(ts.tail) == 2 + Len(ts.tail.tail.tail);
      var k := ts.tail.tail.head.index;
      if k < |args| && args[k].Scalar? then Done(SetItem(ts.head.name, args[k].value), ts.tail.tail.tail) else Fail
    else Fail
  }

  function SetOf(args: seq<Operand>): Tokens -> Parsed<SetItem> {
    (ts: Tokens) => ParseSet(ts, args)
  }

  function ParseUpdate(ts: Tokens, args: seq<Operand>): Parsed<Command> {
    var (target, s) :- ParseTable(ts);
    var (_, i) :- Expect(s, [SET]);
    var (sets, w) :- ParseCommas(SetOf(args), i);
    var (pred, end) :- ParseClause(WHERE, w, args);
    Done(Updates(target, sets, pred), end)
  }

  function ParseDelete(ts: Tokens, args: seq<Operand>): Parsed<Command> {
    var (target, w) :- ParseTable(ts);
    var (pred, end) :- ParseClause(WHERE, w, args);
    Done(Deletes(target, pred), end)
  }

  function ParseCallOf(ts: Tokens, args: seq<Operand>): Parsed<Command> {
    var (target, t) :- ParseTable(ts);
    var (values, end) :- ParseTuple(t, args);
    Done(Calls(target, values), end)
  }

  /** The statement a text is, with the arguments given. */
  function ParseCommand(ts: Tokens, args: seq<Operand>): Parsed<Command> {
    if Starts(ts, SELECT) then ParseSelect(ts.tail, args)
    else if Starts(ts, INSERT_INTO) then ParseInsert(ts.tail, args)
    else if Starts(ts, UPDATE) then ParseUpdate(ts.tail, args)
    else if Starts(ts, DELETE_FROM) then ParseDelete(ts.tail, args)
    else if Starts(ts, CALL) then ParseCallOf(ts.tail, args)
    else Fail
  }

  // --- what can be printed ---

  predicate ProperList(list: SelectList) {
    list.Items? ==> list.items != [] && forall i :: 0 <= i < |list.items| ==> ProperColumn(list.items[i].column)
  }

  predicate ProperJoin(j: SqlJoin) {
    && j.on != [] && (forall i :: 0 <= i < |j.on| ==> ProperColumn(j.on[i].left))
    && (j.pred.SqlNil? || Proper(j.pred))
  }

  predicate ProperJoins(js: seq<SqlJoin>) {
    js == [] || (ProperJoin(js[0]) && ProperJoins(js[1..]))
  }

  predicate ProperQuery(q: Query) {
    && ProperList(q.list) && (q.joins != [] ==> q.alias != "")
    && ProperJoins(q.joins)
    && ProperAll(q.where) && (q.having.SqlNil? || Proper(q.having))
    && (forall i :: 0 <= i < |q.groupBy| ==> ProperColumn(q.groupBy[i]))
    && (forall i :: 0 <= i < |q.orderBy| ==> ProperColumn(q.orderBy[i].column))
  }
}
