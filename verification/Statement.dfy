/** The text of whole statements, and that every one of them binds its i-th
    placeholder, in the order they are written, to its i-th argument. */
module Statement {
  import opened Relalg
  import opened SqlSelect
  import opened Printing

  // --- lists ---

  function Separator(sep: Token, first: bool): seq<Token> {
    if first then [] else [sep]
  }

  /** The parts, each but the first of a list after a comma. */
  function PrintParts(first: bool, parts: seq<seq<Token>>): seq<Token> {
    if parts == [] then [] else Separator(COMMA, first) + parts[0] + PrintParts(false, parts[1..])
  }

  function Joined(parts: seq<seq<Token>>): seq<Token> {
    PrintParts(true, parts)
  }

  function ColumnTexts(cs: seq<Column>): (texts: seq<seq<Token>>)
    ensures |texts| == |cs| && forall i :: 0 <= i < |cs| ==> texts[i] == PrintColumn(cs[i])
  {
    seq(|cs|, i requires 0 <= i < |cs| => PrintColumn(cs[i]))
  }

  function PrintItem(item: SelectItem): seq<Token> {
    PrintColumn(item.column) + (if item.alias == "" then [] else [AS, Ident(item.alias)])
  }

  function ItemTexts(items: seq<SelectItem>): (texts: seq<seq<Token>>)
    ensures |texts| == |items| && forall i :: 0 <= i < |items| ==> texts[i] == PrintItem(items[i])
  {
    seq(|items|, i requires 0 <= i < |items| => PrintItem(items[i]))
  }

  function IdentTexts(names: seq<string>): (texts: seq<seq<Token>>)
    ensures |texts| == |names| && forall i :: 0 <= i < |names| ==> texts[i] == [Ident(names[i])]
  {
    seq(|names|, i requires 0 <= i < |names| => [Ident(names[i])])
  }

  function PrintSortItem(item: SortItem): seq<Token> {
    match item
    case NullCase(c) => [CASE_WHEN] + PrintColumn(c) + [IS_NULL, THEN, Numeral(1), ELSE, Numeral(0), END]
    case SortBy(c, desc, nullsLast) =>
      PrintColumn(c) + [if desc then DESC else ASC] + (if nullsLast then [NULLS_LAST] else [])
  }

  function SortTexts(items: seq<SortItem>): (texts: seq<seq<Token>>)
    ensures |texts| == |items| && forall i :: 0 <= i < |items| ==> texts[i] == PrintSortItem(items[i])
  {
    seq(|items|, i requires 0 <= i < |items| => PrintSortItem(items[i]))
  }

  // --- SELECT ---

  function PrintList(q: Query): seq<Token> {
    match q.list
    case Items(items) => Joined(ItemTexts(items))
    case Star => if q.joins != [] then [Ident(q.alias), DOT, ALL] else [ALL]
  }

  function PrintJoin(j: SqlJoin, n: nat): seq<Token> {
    [LEFT_JOIN] + PrintTable(j.right) + [AS, Ident(j.alias), ON]
    + PrintOn(j.alias, j.on, j.pred, n)
  }

  function JoinArgs(js: seq<SqlJoin>): seq<Operand> {
    if js == [] then [] else ArgsOf(js[0].pred) + JoinArgs(js[1..])
  }

  /** The joins in turn, their placeholders numbered from n on. */
  function PrintJoins(js: seq<SqlJoin>, n: nat): seq<Token>
    decreases js
  {
    if js == [] then [] else PrintJoin(js[0], n) + PrintJoins(js[1..], n + |ArgsOf(js[0].pred)|)
  }

  function PrintFrom(q: Query): seq<Token> {
    [FROM] + PrintTable(q.relation)
    + (if q.alias == "" then [] else [AS, Ident(q.alias)])
    + PrintJoins(q.joins, 0)
  }

  /** The WHERE predicate: the one there is, or all of them in one AND. */
  function WherePredicate(ps: seq<SqlPredicate>): SqlPredicate {
    if ps == [] then SqlNil else if |ps| == 1 then ps[0] else SqlAnd(ps)
  }

  function PrintClause(word: Token, p: SqlPredicate, n: nat): seq<Token> {
    if p.SqlNil? then [] else [word] + Print(p, n)
  }

  function PrintGroupBy(cs: seq<Column>): seq<Token> {
    if cs == [] then [] else [GROUP_BY] + Joined(ColumnTexts(cs))
  }

  function PrintOrderBy(items: seq<SortItem>): seq<Token> {
    if items == [] then [] else [ORDER_BY] + Joined(SortTexts(items))
  }

  /** A limit below 1 is none. */
  function LimitClause(limit: int, offset: int): seq<Token> {
    if limit < 1 then []
    else [LIMIT, Numeral(limit)] + (if offset > 0 then [OFFSET, Numeral(offset)] else [])
  }

  function QueryArgs(q: Query): seq<Operand> {
    JoinArgs(q.joins) + ArgsOf(WherePredicate(q.where)) + ArgsOf(q.having)
  }

  function PrintSelect(q: Query): seq<Token> {
    [SELECT] + (if q.distinct then [DISTINCT] else []) + PrintList(q)
  }

  function PrintThroughWhere(q: Query): seq<Token> {
    PrintSelect(q) + PrintFrom(q) + PrintClause(WHERE, WherePredicate(q.where), |JoinArgs(q.joins)|)
  }

  function PrintThroughHaving(q: Query): seq<Token> {
    PrintThroughWhere(q) + PrintGroupBy(q.groupBy)
    + PrintClause(HAVING, q.having, |JoinArgs(q.joins) + ArgsOf(WherePredicate(q.where))|)
  }

  /** The statement up to its last clause, LIMIT. */
  function PrintBase(q: Query): seq<Token> {
    PrintThroughHaving(q) + PrintOrderBy(q.orderBy)
  }

  function PrintQuery(q: Query, limit: int, offset: int): seq<Token> {
    PrintBase(q) + LimitClause(limit, offset)
  }

  // --- writes ---

  function TupleArgs(tuples: seq<seq<Value>>): seq<Operand> {
    if tuples == [] then [] else Scalars(tuples[0]) + TupleArgs(tuples[1..])
  }

  /** The tuples, their placeholders numbered from n on. */
  function TupleTexts(tuples: seq<seq<Value>>, n: nat): (texts: seq<seq<Token>>)
    ensures |texts| == |tuples|
    decreases tuples
  {
    if tuples == [] then [] else [PrintTuple(n, |tuples[0]|)] + TupleTexts(tuples[1..], n + |tuples[0]|)
  }

  function PrintInsert(
    target: RelationRef, columns: seq<string>, tuples: seq<seq<Value>>, returning: seq<string>): seq<Token>
  {
    [INSERT_INTO] + PrintTable(target) + [OPEN] + Joined(IdentTexts(columns)) + [CLOSE, VALUES]
    + Joined(TupleTexts(tuples, 0)) + (if returning == [] then [] else [RETURNING] + Joined(IdentTexts(returning)))
  }

  /** The assignments, their placeholders numbered from n on. */
  function SetTexts(sets: seq<SetItem>, n: nat): (texts: seq<seq<Token>>)
    ensures |texts| == |sets|
    decreases sets
  {
    if sets == [] then [] else [[Ident(sets[0].field), Cmp(Eq), Param(n)]] + SetTexts(sets[1..], n + 1)
  }

  function SetArgs(sets: seq<SetItem>): (os: seq<Operand>)
    ensures |os| == |sets|
    ensures forall i :: 0 <= i < |sets| ==> os[i] == Scalar(sets[i].value)
  {
    if sets == [] then [] else [Scalar(sets[0].value)] + SetArgs(sets[1..])
  }

  function PrintUpdate(target: RelationRef, sets: seq<SetItem>, p: SqlPredicate): seq<Token> {
    [UPDATE] + PrintTable(target) + [SET] + Joined(SetTexts(sets, 0)) + [WHERE] + Print(p, |sets|)
  }

  function PrintDelete(target: RelationRef, p: SqlPredicate): seq<Token> {
    [DELETE_FROM] + PrintTable(target) + [WHERE] + Print(p, 0)
  }

  function PrintCall(procedure: RelationRef, args: seq<Value>): seq<Token> {
    [CALL] + PrintTable(procedure) + PrintTuple(0, |args|)
  }

  // --- every statement binds its placeholders in textual order ---

  lemma NextOfCons(first: bool, part: seq<Token>, more: seq<seq<Token>>, n: int)
    ensures Next(PrintParts(first, [part] + more), n) == Next(PrintParts(false, more), Next(part, n))
  {
    var head, rest := Separator(COMMA, first), PrintParts(false, more);
    assert ([part] + more)[1..] == more;
    NextPlain(head, n);
    NextConcat(head, part, n);
    NextConcat(head + part, rest, n);
  }

  lemma {:induction false} NextOfParts(first: bool, parts: seq<seq<Token>>, n: int)
    requires forall i :: 0 <= i < |parts| ==> Next(parts[i], n) == n
    ensures Next(PrintParts(first, parts), n) == n
    decreases parts
  {
    if parts != [] {
      assert parts == [parts[0]] + parts[1..];
      NextOfCons(first, parts[0], parts[1..], n);
      NextOfParts(false, parts[1..], n);
    }
  }

  lemma NextOfItem(item: SelectItem, n: int)
    ensures Next(PrintItem(item), n) == n
  {
    NextColumn(item.column, n);
    NextPlain([AS, Ident(item.alias)], n);
    NextConcat(PrintColumn(item.column), if item.alias == "" then [] else [AS, Ident(item.alias)], n);
  }

  lemma NextOfItems(items: seq<SelectItem>, n: int)
    ensures Next(Joined(ItemTexts(items)), n) == n
  {
    forall i | 0 <= i < |items| ensures Next(ItemTexts(items)[i], n) == n {
      NextOfItem(items[i], n);
    }
    NextOfParts(true, ItemTexts(items), n);
  }

  lemma NextOfColumns(cs: seq<Column>, n: int)
    ensures Next(Joined(ColumnTexts(cs)), n) == n
  {
    forall i | 0 <= i < |cs| ensures Next(ColumnTexts(cs)[i], n) == n {
      NextColumn(cs[i], n);
    }
    NextOfParts(true, ColumnTexts(cs), n);
  }

  lemma NextOfIdents(names: seq<string>, n: int)
    ensures Next(Joined(IdentTexts(names)), n) == n
  {
    NextOfParts(true, IdentTexts(names), n);
  }

  lemma NextOfSortItems(items: seq<SortItem>, n: int)
    ensures Next(Joined(SortTexts(items)), n) == n
  {
    forall i | 0 <= i < |items| ensures Next(SortTexts(items)[i], n) == n {
      NextPlain(PrintSortItem(items[i]), n);
    }
    NextOfParts(true, SortTexts(items), n);
  }

  lemma JoinBinds(j: SqlJoin, n: nat)
    ensures Next(PrintJoin(j, n), n) == n + |ArgsOf(j.pred)|
  {
    PrintOnBinds(j.alias, j.on, j.pred, n);
    NextOfTable(LEFT_JOIN, j.right, [AS, Ident(j.alias), ON], n);
    NextConcat([LEFT_JOIN] + PrintTable(j.right) + [AS, Ident(j.alias), ON],
               PrintOn(j.alias, j.on, j.pred, n), n);
  }

  lemma JoinsBindOne(js: seq<SqlJoin>, n: nat, k: nat, first: seq<Token>, more: seq<Token>)
    requires js != [] && k == n + |ArgsOf(js[0].pred)| && first == PrintJoin(js[0], n) && more == PrintJoins(js[1..], k)
    requires Next(first, n) == k && Next(more, k) == k + |JoinArgs(js[1..])|
    ensures Next(PrintJoins(js, n), n) == n + |JoinArgs(js)|
  {
    hide Next, PrintJoin, ArgsOf;
    NextConcat(first, more, n);
  }

  lemma {:induction false} JoinsBind(js: seq<SqlJoin>, n: nat)
    ensures Next(PrintJoins(js, n), n) == n + |JoinArgs(js)|
    decreases js
  {
    if js != [] {
      var k := n + |ArgsOf(js[0].pred)|;
      JoinBinds(js[0], n);
      JoinsBind(js[1..], k);
      JoinsBindOne(js, n, k, PrintJoin(js[0], n), PrintJoins(js[1..], k));
    }
  }

  lemma ClauseBinds(word: Token, p: SqlPredicate, n: nat)
    requires !word.Param?
    ensures Next(PrintClause(word, p, n), n) == n + |ArgsOf(p)|
  {
    if !p.SqlNil? {
      PrintBinds(p, n);
      NextConcat([word], Print(p, n), n);
    }
  }

  lemma NextOfSelect(q: Query)
    ensures Next(PrintSelect(q), 0) == 0
  {
    var head := [SELECT] + (if q.distinct then [DISTINCT] else []);
    NextPlain(head, 0);
    if q.list.Items? {
      NextOfItems(q.list.items, 0);
    } else {
      NextPlain(PrintList(q), 0);
    }
    NextConcat(head, PrintList(q), 0);
  }

  lemma FromBinds(q: Query)
    ensures Next(PrintFrom(q), 0) == |JoinArgs(q.joins)|
  {
    var words := if q.alias == "" then [] else [AS, Ident(q.alias)];
    JoinsBind(q.joins, 0);
    NextOfTable(FROM, q.relation, words, 0);
    NextConcat([FROM] + PrintTable(q.relation) + words, PrintJoins(q.joins, 0), 0);
  }

  lemma NextOfGroupBy(cs: seq<Column>, n: int)
    ensures Next(PrintGroupBy(cs), n) == n
  {
    NextOfColumns(cs, n);
    NextConcat([GROUP_BY], Joined(ColumnTexts(cs)), n);
  }

  lemma NextOfOrderBy(items: seq<SortItem>, n: int)
    ensures Next(PrintOrderBy(items), n) == n
  {
    NextOfSortItems(items, n);
    NextConcat([ORDER_BY], Joined(SortTexts(items)), n);
  }

  lemma NextOfLimit(limit: int, offset: int, n: int)
    ensures Next(LimitClause(limit, offset), n) == n
  {
    NextPlain(LimitClause(limit, offset), n);
  }

  lemma ThroughWhereBinds(q: Query)
    ensures Next(PrintThroughWhere(q), 0) == |JoinArgs(q.joins) + ArgsOf(WherePredicate(q.where))|
  {
    var n, where := |JoinArgs(q.joins)|, WherePredicate(q.where);
    NextOfSelect(q);
    FromBinds(q);
    NextConcat(PrintSelect(q), PrintFrom(q), 0);
    ClauseBinds(WHERE, where, n);
    NextConcat(PrintSelect(q) + PrintFrom(q), PrintClause(WHERE, where, n), 0);
  }

  lemma ThroughHavingBinds(q: Query)
    ensures Next(PrintThroughHaving(q), 0) == |QueryArgs(q)|
  {
    var head, n := PrintThroughWhere(q), |JoinArgs(q.joins) + ArgsOf(WherePredicate(q.where))|;
    ThroughWhereBinds(q);
    NextOfGroupBy(q.groupBy, n);
    NextConcat(head, PrintGroupBy(q.groupBy), 0);
    ClauseBinds(HAVING, q.having, n);
    NextConcat(head + PrintGroupBy(q.groupBy), PrintClause(HAVING, q.having, n), 0);
  }

  /** Across the select list, joins, WHERE, HAVING, ORDER BY and LIMIT. */
  lemma QueryBinds(q: Query, limit: int, offset: int)
    ensures Params(PrintQuery(q, limit, offset)) == Range(0, |QueryArgs(q)|)
  {
    var n := |QueryArgs(q)|;
    ThroughHavingBinds(q);
    NextOfOrderBy(q.orderBy, n);
    NextConcat(PrintThroughHaving(q), PrintOrderBy(q.orderBy), 0);
    NextOfLimit(limit, offset, n);
    NextConcat(PrintBase(q), LimitClause(limit, offset), 0);
    NextMeans(PrintQuery(q, limit, offset), 0, n);
  }

  lemma {:induction false} TuplesBind(first: bool, tuples: seq<seq<Value>>, n: nat)
    ensures Next(PrintParts(first, TupleTexts(tuples, n)), n) == n + |TupleArgs(tuples)|
    decreases tuples
  {
    if tuples != [] {
      var k := n + |tuples[0]|;
      TupleBinds(n, |tuples[0]|);
      NextOfCons(first, PrintTuple(n, |tuples[0]|), TupleTexts(tuples[1..], k), n);
      TuplesBind(false, tuples[1..], k);
    }
  }

  predicate Rectangular(tuples: seq<seq<Value>>, width: nat) {
    forall i :: 0 <= i < |tuples| ==> |tuples[i]| == width
  }

  /** Row r is written with the placeholders from r * width on. */
  lemma {:induction false} TupleTextAt(tuples: seq<seq<Value>>, width: nat, n: nat, r: nat)
    requires Rectangular(tuples, width) && r < |tuples|
    ensures TupleTexts(tuples, n)[r] == PrintTuple(n + r * width, width)
    decreases r
  {
    if r > 0 {
      TupleTextAt(tuples[1..], width, n + width, r - 1);
      assert TupleTexts(tuples, n)[r] == TupleTexts(tuples[1..], n + width)[r-1];
      assert n + width + (r - 1) * width == n + r * width;
    }
  }

  /** The value of row r for column c is the argument r * width + c. */
  lemma {:induction false} TupleArgAt(tuples: seq<seq<Value>>, width: nat, r: nat, c: nat)
    requires Rectangular(tuples, width) && r < |tuples| && c < width
    ensures r * width + c < |TupleArgs(tuples)| && TupleArgs(tuples)[r * width + c] == Scalar(tuples[r][c])
    decreases r
  {
    if r > 0 {
      TupleArgAt(tuples[1..], width, r - 1, c);
      assert width + ((r - 1) * width + c) == r * width + c;
    }
  }

  lemma NextOfInsertHead(target: RelationRef, columns: seq<string>)
    ensures Next([INSERT_INTO] + PrintTable(target) + [OPEN] + Joined(IdentTexts(columns)) + [CLOSE, VALUES], 0) == 0
  {
    var table := [INSERT_INTO] + PrintTable(target) + [OPEN];
    NextOfIdents(columns, 0);
    NextOfTable(INSERT_INTO, target, [OPEN], 0);
    NextConcat(table, Joined(IdentTexts(columns)), 0);
    NextPlain([CLOSE, VALUES], 0);
    NextConcat(table + Joined(IdentTexts(columns)), [CLOSE, VALUES], 0);
  }

  lemma InsertBinds(target: RelationRef, columns: seq<string>, tuples: seq<seq<Value>>, returning: seq<string>)
    ensures Params(PrintInsert(target, columns, tuples, returning)) == Range(0, |TupleArgs(tuples)|)
  {
    var head := [INSERT_INTO] + PrintTable(target) + [OPEN] + Joined(IdentTexts(columns)) + [CLOSE, VALUES];
    var tail := if returning == [] then [] else [RETURNING] + Joined(IdentTexts(returning));
    var n := |TupleArgs(tuples)|;
    NextOfInsertHead(target, columns);
    TuplesBind(true, tuples, 0);
    NextConcat(head, Joined(TupleTexts(tuples, 0)), 0);
    NextOfIdents(returning, n);
    NextConcat([RETURNING], Joined(IdentTexts(returning)), n);
    NextConcat(head + Joined(TupleTexts(tuples, 0)), tail, 0);
    NextMeans(PrintInsert(target, columns, tuples, returning), 0, n);
  }

  lemma NextOfSet(item: SetItem, n: nat)
    ensures Next([Ident(item.field), Cmp(Eq), Param(n)], n) == n + 1
  {
    var names := [Ident(item.field), Cmp(Eq)];
    NextPlain(names, n);
    NextConcat(names, [Param(n)], n);
    assert names + [Param(n)] == [Ident(item.field), Cmp(Eq), Param(n)];
    assert Next([Param(n)], n) == Next([], n + 1);
  }

  lemma {:induction false} SetsBind(first: bool, sets: seq<SetItem>, n: nat)
    ensures Next(PrintParts(first, SetTexts(sets, n)), n) == n + |sets|
    decreases sets
  {
    if sets != [] {
      NextOfSet(sets[0], n);
      NextOfCons(first, [Ident(sets[0].field), Cmp(Eq), Param(n)], SetTexts(sets[1..], n + 1), n);
      SetsBind(false, sets[1..], n + 1);
    }
  }

  lemma UpdateBinds(target: RelationRef, sets: seq<SetItem>, p: SqlPredicate)
    ensures Params(PrintUpdate(target, sets, p)) == Range(0, |SetArgs(sets) + ArgsOf(p)|)
  {
    var head, items := [UPDATE] + PrintTable(target) + [SET], Joined(SetTexts(sets, 0));
    SetsBind(true, sets, 0);
    NextOfTable(UPDATE, target, [SET], 0);
    NextConcat(head, items, 0);
    NextConcat(head + items, [WHERE], 0);
    PrintBinds(p, |sets|);
    NextConcat(head + items + [WHERE], Print(p, |sets|), 0);
    NextMeans(PrintUpdate(target, sets, p), 0, |SetArgs(sets) + ArgsOf(p)|);
  }

  lemma DeleteBinds(target: RelationRef, p: SqlPredicate)
    ensures Params(PrintDelete(target, p)) == Range(0, |ArgsOf(p)|)
  {
    PrintBinds(p, 0);
    NextOfTable(DELETE_FROM, target, [WHERE], 0);
    NextConcat([DELETE_FROM] + PrintTable(target) + [WHERE], Print(p, 0), 0);
    NextMeans(PrintDelete(target, p), 0, |ArgsOf(p)|);
  }

  lemma CallBinds(procedure: RelationRef, args: seq<Value>)
    ensures Params(PrintCall(procedure, args)) == Range(0, |args|)
  {
    TupleBinds(0, |args|);
    NextOfTable(CALL, procedure, [], 0);
    assert [CALL] + PrintTable(procedure) + [] == [CALL] + PrintTable(procedure);
    NextConcat([CALL] + PrintTable(procedure), PrintTuple(0, |args|), 0);
    NextMeans(PrintCall(procedure, args), 0, |args|);
  }
}
