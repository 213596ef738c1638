/** Where an ordered aggregate and its statement part: a term that names no
    output is nothing to the chain and a column to the statement. */
module GroupOrderExactness {
  import opened Lists
  import opened Relalg
  import opened SqlSelect
  import opened Flatten
  import opened Resolve
  import opened SelectCorrect
  import opened SelectGroups
  import opened SelectOrder
  import opened SelectMain
  import opened Witnesses
  import opened OrderExactness
  import opened HavingExactness

  /** An ordered aggregate, distinct or not, bounded or not. */
  datatype GroupRead = GroupRead(
    relation: RelationRef, own: string, groupBy: seq<string>, calls: seq<AggCall>, terms: seq<OrderTerm>,
    distinct: bool, bound: Bound)

  predicate Proper(g: GroupRead) {
    (g.groupBy != [] || g.calls != []) && Bounded(g.bound)
  }

  function GroupSort(g: GroupRead): Expr {
    Expr.Sort(Aggregate(Scan(g.relation, g.own), g.groupBy, g.calls), g.terms)
  }

  function GroupExpr(g: GroupRead): Expr {
    var e := if g.distinct then Distinct(GroupSort(g)) else GroupSort(g);
    if g.bound.Bound? then Expr.Limit(e, g.bound.count, g.bound.offset) else e
  }

  function SortClauses(g: GroupRead): Clauses {
    NO_CLAUSES.(relation := g.relation, scanAlias := g.own, groupBy := g.groupBy, aggregates := g.calls,
                order := g.terms, rank := 5)
  }

  function GroupClauses(g: GroupRead): Clauses {
    var c := if g.distinct then SortClauses(g).(distinct := true, rank := 7) else SortClauses(g);
    if g.bound.Bound? then c.(limit := g.bound.count, offset := g.bound.offset, hasLimit := true, rank := 8) else c
  }

  lemma FlattenedSort(g: GroupRead)
    requires Proper(g)
    ensures FlattenInput(GroupSort(g)) == Ok(SortClauses(g)) && Shaped(GroupSort(g))
  {
    var scan, c := Scan(g.relation, g.own), NO_CLAUSES.(relation := g.relation, scanAlias := g.own);
    assert FlattenInput(scan) == Ok(c);
    assert FlattenInput(Aggregate(scan, g.groupBy, g.calls)) ==
           Ok(c.(groupBy := g.groupBy, aggregates := g.calls, rank := 3));
    assert Shaped(Aggregate(scan, g.groupBy, g.calls));
  }

  lemma FlattenedGroups(g: GroupRead)
    requires Proper(g)
    ensures FlattenInput(GroupExpr(g)) == Ok(GroupClauses(g)) && Shaped(GroupExpr(g))
  {
    hide Shaped;
    FlattenedSort(g);
    var c := if g.distinct then SortClauses(g).(distinct := true, rank := 7) else SortClauses(g);
    var e := if g.distinct then Distinct(GroupSort(g)) else GroupSort(g);
    assert FlattenInput(e) == Ok(c);
    DistinctShaped(g);
  }

  lemma DistinctShaped(g: GroupRead)
    requires Shaped(GroupSort(g))
    ensures Shaped(GroupExpr(g))
  {
    if g.distinct {
      assert Shaped(Distinct(GroupSort(g)));
    }
  }

  lemma GroupsPlaced(g: GroupRead)
    requires Proper(g)
    ensures var c := GroupClauses(g);
            Renderable(c) && Placed(c) && Assembled(c) && NamesSound(c) && OrderKept(c) && NamesOf(c) == Names("", {})
  {
    var c := GroupClauses(g);
    assert Aliases([]) == {};
    assert SortTerms(c, c.order) == c.order;
  }

  // --- groups of one row each ---

  /** Row m of n: g numbers them, and field ranks them in the direction, the last
      two swapped or not. */
  function Rank(desc: bool, n: nat, m: nat, swap: bool): real {
    var k := if swap && m + 2 == n then m + 1 else if swap && m + 1 == n then m - 1 else m;
    if desc then -(k as real) else k as real
  }

  function NumberedRow(groupBy: seq<string>, g: string, t: OrderTerm, n: nat, m: nat, swap: bool): Row {
    Const(set i | 0 <= i < |groupBy| ::
        groupBy[i], Num(1.0))[g := Num(m as real)][t.field := Num(Rank(t.desc, n, m, swap))]
  }

  function Numbered(groupBy: seq<string>, g: string, t: OrderTerm, n: nat, swap: bool): (rows: seq<Row>)
    ensures |rows| == n && forall m :: 0 <= m < n ==> rows[m] == NumberedRow(groupBy, g, t, n, m, swap)
  {
    seq(n, m requires 0 <= m < n => NumberedRow(groupBy, g, t, n, m, swap))
  }

  lemma NumberedValues(groupBy: seq<string>, g: string, t: OrderTerm, n: nat, m: nat, swap: bool, name: string)
    requires g in groupBy && t.field !in groupBy
    ensures var row := NumberedRow(groupBy, g, t, n, m, swap);
            && Get(row, g) == Num(m as real) && Get(row, t.field) == Num(Rank(t.desc, n, m, swap))
            && (name in groupBy && name != g ==> Get(row, name) == Num(1.0))
  {
  }

  function Alone(): Record -> seq<Record> {
    (r: Record) => [r]
  }

  lemma {:induction false} FilterOnly<A(!new)>(p: A -> bool, xs: seq<A>, i: nat)
    requires i < |xs| && p(xs[i]) && forall j :: 0 <= j < |xs| && j != i ==> !p(xs[j])
    ensures Filter(p, xs) == [xs[i]]
  {
    var n := |xs| - 1;
    assert xs == xs[..n] + [xs[n]];
    FilterSnoc(p, xs[..n], xs[n]);
    if i < n {
      FilterOnly(p, xs[..n], i);
    } else {
      FilterTail(p, xs[..n], n);
    }
  }

  ghost predicate KeysApart(groupBy: seq<string>, rs: seq<Record>) {
    forall i, j :: 0 <= i < j < |rs| ==> KeyOf(groupBy)(rs[i]) != KeyOf(groupBy)(rs[j])
  }

  lemma OwnGroup(groupBy: seq<string>, rs: seq<Record>, i: nat)
    requires KeysApart(groupBy, rs) && i < |rs|
    ensures GroupOf(groupBy, rs)(rs[i]) == [rs[i]]
  {
    hide Lookups, KeyOf;
    var p, f := InGroup(groupBy, Lookups(rs[i].env, groupBy)), KeyOf(groupBy);
    forall j | 0 <= j < |rs| && j != i ensures !p(rs[j]) {
      assert f(rs[i]) != f(rs[j]) by {
        if j < i {
          assert f(rs[j]) != f(rs[i]);
        }
      }
      KeyIs(groupBy, rs[i]);
      KeyIs(groupBy, rs[j]);
    }
    FilterOnly(p, rs, i);
  }

  lemma KeyIs(groupBy: seq<string>, r: Record)
    ensures KeyOf(groupBy)(r) == Lookups(r.env, groupBy)
  {
  }

  /** Rows whose keys differ are each a group. */
  lemma EachAlone(groupBy: seq<string>, rs: seq<Record>)
    requires groupBy != [] && KeysApart(groupBy, rs)
    ensures Groups(groupBy, rs) == Map(Alone(), rs)
  {
    hide GroupOf, KeyOf;
    DedupNone(KeyOf(groupBy), rs);
    forall i | 0 <= i < |rs| ensures GroupOf(groupBy, rs)(rs[i]) == [rs[i]] {
      OwnGroup(groupBy, rs, i);
    }
  }

  lemma NumberedApart(groupBy: seq<string>, g: string, t: OrderTerm, n: nat, swap: bool)
    requires g in groupBy && t.field !in groupBy
    ensures KeysApart(groupBy, ScannedAll(Numbered(groupBy, g, t, n, swap)))
  {
    var rows := Numbered(groupBy, g, t, n, swap);
    var k :| 0 <= k < |groupBy| && groupBy[k] == g;
    forall i, j | 0 <= i < j < n
      ensures Lookups(Env(rows[i], map[]), groupBy) != Lookups(Env(rows[j], map[]), groupBy)
    {
      NumberedValues(groupBy, g, t, n, i, swap, g);
      NumberedValues(groupBy, g, t, n, j, swap, g);
      assert Lookups(Env(rows[i], map[]), groupBy)[k] == Get(rows[i], g);
      assert Lookups(Env(rows[j], map[]), groupBy)[k] == Get(rows[j], g);
    }
  }

  /** The groups of the table, one a row. */
  lemma NumberedGroups(db: Db, c: Clauses, g: string, t: OrderTerm, n: nat, swap: bool)
    requires g in c.groupBy && t.field !in c.groupBy && c.joins == [] && c.wheres == []
    requires db.table(c.relation) == Numbered(c.groupBy, g, t, n, swap)
    ensures Groups(c.groupBy, Source(db, c)) == Map(Alone(), ScannedAll(Numbered(c.groupBy, g, t, n, swap)))
  {
    var rows := Numbered(c.groupBy, g, t, n, swap);
    assert ScanRows(db, c.relation) == ScannedAll(rows);
    NumberedApart(c.groupBy, g, t, n, swap);
    EachAlone(c.groupBy, ScannedAll(rows));
  }

  // --- the chain sees nothing of the ranks ---

  lemma {:induction false} KeysLeCong(db: Db, other: Db, terms: seq<OrderTerm>, ks: seq<Value>, ls: seq<Value>)
    requires |ks| == |ls| == |terms| && Witnessing(db) && Witnessing(other)
    ensures KeysLe(db, terms, ks, ls) == KeysLe(other, terms, ks, ls)
  {
    if terms != [] {
      assert CompareTerm(db, terms[0], ks[0], ls[0]) == CompareTerm(other, terms[0], ks[0], ls[0]);
      KeysLeCong(db, other, terms[1..], ks[1..], ls[1..]);
    }
  }

  lemma SortsAlike(db: Db, other: Db, terms: seq<OrderTerm>, rs: seq<Record>)
    requires Witnessing(db) && Witnessing(other)
    ensures Lists.Sort(Ordering(db, terms), rs) == Lists.Sort(Ordering(other, terms), rs)
  {
    forall r, s | r in rs && s in rs ensures Ordering(db, terms)(r, s) == Ordering(other, terms)(r, s) {
      KeysLeCong(db, other, terms, Lookups(r.env, TermFields(terms)), Lookups(s.env, TermFields(terms)));
    }
    SortCong(Ordering(db, terms), Ordering(other, terms), rs);
  }

  /** The database of the table. */
  function NumberedDb(c: Clauses, g: string, t: OrderTerm, n: nat, swap: bool): Db {
    AllTables(Numbered(c.groupBy, g, t, n, swap), Null)
  }

  lemma KeyUnranked(groupBy: seq<string>, g: string, t: OrderTerm, n: nat, m: nat)
    requires g in groupBy && t.field !in groupBy
    ensures Lookups(Env(NumberedRow(groupBy, g, t, n, m, false), map[]), groupBy) ==
            Lookups(Env(NumberedRow(groupBy, g, t, n, m, true), map[]), groupBy)
  {
  }

  /** Every call of it is NULL. */
  lemma CallsNull(rows: seq<Row>, calls: seq<AggCall>, members: seq<Record>)
    ensures CallValues(AllTables(rows, Null), calls, members) == seq(|calls|, _ => Null)
  {
  }

  lemma RecordUnranked(c: Clauses, g: string, t: OrderTerm, n: nat, m: nat)
    requires g in c.groupBy && t.field !in c.groupBy && m < n
    ensures var a := [ScannedRow(NumberedRow(c.groupBy, g, t, n, m, false))];
            var b := [ScannedRow(NumberedRow(c.groupBy, g, t, n, m, true))];
            RecordOfGroup(NumberedDb(c, g, t, n, false), c.groupBy, c.aggregates, a) ==
            RecordOfGroup(NumberedDb(c, g, t, n, true), c.groupBy, c.aggregates, b)
  {
    hide GroupRow, Lookups, CallValues, NumberedRow;
    KeyUnranked(c.groupBy, g, t, n, m);
    CallsNull(Numbered(c.groupBy, g, t, n, false), c.aggregates,
        [ScannedRow(NumberedRow(c.groupBy, g, t, n, m, false))]);
    CallsNull(Numbered(c.groupBy, g, t, n, true), c.aggregates, [ScannedRow(NumberedRow(c.groupBy, g, t, n, m, true))]);
  }

  lemma GroupsUnranked(c: Clauses, g: string, t: OrderTerm, n: nat)
    requires g in c.groupBy && t.field !in c.groupBy && c.joins == [] && c.wheres == []
    ensures GroupedRows(NumberedDb(c, g, t, n, false), c) == GroupedRows(NumberedDb(c, g, t, n, true), c)
  {
    var db, other := NumberedDb(c, g, t, n, false), NumberedDb(c, g, t, n, true);
    NumberedGroups(db, c, g, t, n, false);
    NumberedGroups(other, c, g, t, n, true);
    forall m | 0 <= m < n ensures GroupedRows(db, c)[m] == GroupedRows(other, c)[m] {
      RecordUnranked(c, g, t, n, m);
    }
  }

  /** The chain returns the same, swapped or not. */
  lemma ChainUnranked(c: Clauses, g: string, t: OrderTerm, n: nat)
    requires g in c.groupBy && t.field !in c.groupBy && c.joins == [] && c.wheres == [] && c.having.Nil? && c.cols == []
    requires !c.distinct
    ensures Applied(NumberedDb(c, g, t, n, false), c) == Applied(NumberedDb(c, g, t, n, true), c)
  {
    hide GroupedRows;
    var db, other := NumberedDb(c, g, t, n, false), NumberedDb(c, g, t, n, true);
    AllTablesWitnesses(Numbered(c.groupBy, g, t, n, false), Null);
    AllTablesWitnesses(Numbered(c.groupBy, g, t, n, true), Null);
    GroupsUnranked(c, g, t, n);
    SortsAlike(db, other, c.order, GroupedRows(db, c));
  }

  // --- the statement sorts by them ---

  /** The first term two rows differ by decides. */
  lemma {:induction false} ItemsDecide(
    db: Db, q: Query, ns: Names, calls: seq<AggCall>, nullsLast: bool, terms: seq<OrderTerm>, i: nat, s: Selected,
    u: Selected, x: Value, y: Value)
    requires Ordered(db) && i < |terms| && x != y
    requires var col := OutputColumn(ns, calls, terms[i].field);
             OrderValue(db, q, s, col) == Some(x) && OrderValue(db, q, u, col) == Some(y)
    requires forall j :: 0 <= j < i ==>
               var col := OutputColumn(ns, calls, terms[j].field);
               OrderValue(db, q, s, col) == OrderValue(db, q, u, col) && OrderValue(db, q, s, col).Some?
    ensures ItemsLe(db, q, SortItems(ns, calls, nullsLast, terms), s, u) <==> CompareTerm(db, terms[i], x, y) < 0
    decreases i
  {
    hide OrderValue;
    var t, rest := terms[0], SortItems(ns, calls, nullsLast, terms[1..]);
    var col := OutputColumn(ns, calls, t.field);
    var v, w := OrderValue(db, q, s, col).value, OrderValue(db, q, u, col).value;
    TermItemsLe(db, q, t, col, nullsLast, rest, s, u, v, w);
    CompareTermOrder(db, t, v, w, v);
    if i > 0 {
      ItemsDecide(db, q, ns, calls, nullsLast, terms[1..], i - 1, s, u, x, y);
    }
  }

  /** Before term i nothing tells the groups that g numbers apart. */
  predicate Open(c: Clauses, i: nat, g: string)
    requires i < |c.order|
  {
    && g in c.groupBy && !OutputName(c, c.order[i].field)
    && (forall j :: 0 <= j < i ==> OutputName(c, c.order[j].field))
    && (Named(c.aggregates, g) >= 0 || forall j :: 0 <= j < i ==> c.order[j].field != g)
  }

  /** A plain aggregate, and the statement of it. */
  predicate Plain(c: Clauses, q: Query) {
    Selects(q, c) && Aggregates(c) && !c.distinct && NamesOf(c) == Names("", {})
  }

  lemma OrderColumn(db: Db, c: Clauses, q: Query, z: Paired, col: Column)
    requires Plain(c, q)
    ensures OrderValue(db, q, SelectedOf(db, q, z), col) == Some(ColumnValue(db, q.alias, z.ctx, col))
  {
    GroupUnaliased(c, col);
  }

  ghost function NumberedPair(c: Clauses, i: nat, g: string, n: nat, m: nat, swap: bool): Paired
    requires i < |c.order|
  {
    GroupPair(NumberedDb(c, g, c.order[i], n, swap), c)([ScannedRow(NumberedRow(c.groupBy, g, c.order[i], n, m, swap))])
  }

  /** A term before sees the same in every group. */
  lemma EarlierSame(c: Clauses, q: Query, i: nat, g: string, n: nat, m: nat, swap: bool, j: nat)
    requires i < |c.order| && Open(c, i, g) && Plain(c, q) && j < i
    ensures var name := c.order[j].field;
            ColumnValue(NumberedDb(c, g, c.order[i], n, swap), q.alias, NumberedPair(c, i, g, n, m, swap).ctx,
                        OutputColumn(NamesOf(c), c.aggregates, name)) ==
            if Named(c.aggregates, name) >= 0 then Null else Num(1.0)
  {
    var name, db := c.order[j].field, NumberedDb(c, g, c.order[i], n, swap);
    if Named(c.aggregates, name) < 0 {
      ColumnSeen(db, c, NumberedRow(c.groupBy, g, c.order[i], n, m, swap), name);
      NumberedValues(c.groupBy, g, c.order[i], n, m, swap, name);
    }
  }

  /** Term i sees the rank. */
  lemma RankSeen(c: Clauses, q: Query, i: nat, g: string, n: nat, m: nat, swap: bool)
    requires i < |c.order| && Open(c, i, g) && Plain(c, q)
    ensures ColumnValue(NumberedDb(c, g, c.order[i], n, swap), q.alias, NumberedPair(c, i, g, n, m, swap).ctx,
                        OutputColumn(NamesOf(c), c.aggregates, c.order[i].field)) ==
            Num(Rank(c.order[i].desc, n, m, swap))
  {
    SeesColumn(NumberedDb(c, g, c.order[i], n, swap), c, NumberedRow(c.groupBy, g, c.order[i], n, m, swap),
        c.order[i].field);
    NumberedValues(c.groupBy, g, c.order[i], n, m, swap, g);
  }

  ghost function NumberedRowOut(c: Clauses, q: Query, i: nat, g: string, n: nat, m: nat, swap: bool): Selected
    requires i < |c.order|
  {
    SelectedOf(NumberedDb(c, g, c.order[i], n, swap), q, NumberedPair(c, i, g, n, m, swap))
  }

  /** Row m of n comes before row k, the last two swapped or not. */
  predicate Earlier(n: nat, m: nat, k: nat, swap: bool) {
    if swap && m + 2 >= n && k + 2 >= n then k < m else m < k
  }

  /** The statement orders two groups by their ranks. */
  lemma RankDecides(c: Clauses, q: Query, nullsLast: bool, i: nat, g: string, n: nat, m: nat, k: nat, swap: bool)
    requires i < |c.order| && Open(c, i, g) && Plain(c, q) && m < n && k < n && m != k
    requires q.orderBy == SortItems(NamesOf(c), c.aggregates, nullsLast, c.order)
    ensures var db := NumberedDb(c, g, c.order[i], n, swap);
            SqlOrdering(db, q)(NumberedRowOut(c, q, i, g, n, m, swap), NumberedRowOut(c, q, i, g, n, k, swap)) <==>
            Earlier(n, m, k, swap)
  {
    hide OrderValue, SortItems, ColumnValue, SelectedOf, NumberedPair, Open, Plain, OutputColumn;
    var t, ns := c.order[i], NamesOf(c);
    var db := NumberedDb(c, g, t, n, swap);
    AllTablesOrdered(Numbered(c.groupBy, g, t, n, swap), Null);
    var z, w := NumberedPair(c, i, g, n, m, swap), NumberedPair(c, i, g, n, k, swap);
    var x, y := Num(Rank(t.desc, n, m, swap)), Num(Rank(t.desc, n, k, swap));
    forall j | 0 <= j < i
      ensures var col := OutputColumn(ns, c.aggregates, c.order[j].field);
              OrderValue(db, q, SelectedOf(db, q, z), col) == OrderValue(db, q, SelectedOf(db, q, w), col) &&
              OrderValue(db, q, SelectedOf(db, q, z), col).Some?
    {
      var col := OutputColumn(ns, c.aggregates, c.order[j].field);
      OrderColumn(db, c, q, z, col);
      OrderColumn(db, c, q, w, col);
      EarlierSame(c, q, i, g, n, m, swap, j);
      EarlierSame(c, q, i, g, n, k, swap, j);
    }
    var col := OutputColumn(ns, c.aggregates, t.field);
    OrderColumn(db, c, q, z, col);
    OrderColumn(db, c, q, w, col);
    RankSeen(c, q, i, g, n, m, swap);
    RankSeen(c, q, i, g, n, k, swap);
    RanksCompare(t, n, m, k, swap, db);
    ItemsDecide(db, q, ns, c.aggregates, nullsLast, c.order, i, SelectedOf(db, q, z), SelectedOf(db, q, w), x, y);
  }

  lemma RanksCompare(t: OrderTerm, n: nat, m: nat, k: nat, swap: bool, db: Db)
    requires m < n && k < n && m != k && db.le == ValueLe
    ensures var x, y := Num(Rank(t.desc, n, m, swap)), Num(Rank(t.desc, n, k, swap));
            x != y && (CompareTerm(db, t, x, y) < 0 <==> Earlier(n, m, k, swap))
  {
  }

  // --- the statement's order of the table ---

  ghost function NumberedOuts(c: Clauses, q: Query, i: nat, g: string, n: nat, swap: bool): (ss: seq<Selected>)
    requires i < |c.order|
    ensures |ss| == n && forall m :: 0 <= m < n ==> ss[m] == NumberedRowOut(c, q, i, g, n, m, swap)
  {
    seq(n, m requires 0 <= m < n => NumberedRowOut(c, q, i, g, n, m, swap))
  }

  lemma NoneDropped(db: Db, c: Clauses)
    requires c.having.Nil?
    ensures KeptPairs(db, c) == Pairs(db, c)
  {
    hide Pairs;
    assert forall z :: MeantKept(db, c)(z);
    FilterAll(MeantKept(db, c), Pairs(db, c));
  }

  /** A statement that keeps every row selects each. */
  lemma SelectsKept(db: Db, q: Query, zs: seq<Paired>)
    requires HavingRows(db, q) == Map(CtxOf(), zs) && !q.distinct
    ensures SelectedRows(db, q) == Map(Chosen(db, q), zs)
  {
    hide HavingRows;
    MapCompose(CtxOf(), Selecting(db, q), Chosen(db, q), zs);
  }

  lemma NumberedPairs(c: Clauses, i: nat, g: string, n: nat, swap: bool)
    requires i < |c.order| && g in c.groupBy && c.order[i].field !in c.groupBy && c.joins == [] && c.wheres == []
    ensures var zs := Pairs(NumberedDb(c, g, c.order[i], n, swap), c);
            |zs| == n && forall m :: 0 <= m < n ==> zs[m] == NumberedPair(c, i, g, n, m, swap)
  {
    hide Groups, Source, NumberedRow, RecordOfGroup;
    var db := NumberedDb(c, g, c.order[i], n, swap);
    NumberedGroups(db, c, g, c.order[i], n, swap);
  }

  /** What the statement selects of the table. */
  lemma NumberedSelected(c: Clauses, nullsLast: bool, i: nat, g: string, n: nat, swap: bool)
    requires i < |c.order| && g in c.groupBy && c.order[i].field !in c.groupBy && c.joins == [] && c.wheres == []
    requires Renderable(c) && Placed(c) && Assembled(c) && !c.distinct && c.having.Nil?
    ensures var q := QueryOf(c, nullsLast);
            SelectedRows(NumberedDb(c, g, c.order[i], n, swap), q) == NumberedOuts(c, q, i, g, n, swap)
  {
    hide QueryOf, Placed, Renderable, Assembled, HavingRows, SelectedRows, Pairs, NumberedPair, SelectedOf, NumberedDb;
    hide Grouping, ListOf, SortItems, Resolved, ResolvedAll, NamesOf;
    var q, db := QueryOf(c, nullsLast), NumberedDb(c, g, c.order[i], n, swap);
    QueryClauses(c, nullsLast);
    KeptAreContexts(db, c, nullsLast);
    NoneDropped(db, c);
    SelectsKept(db, q, Pairs(db, c));
    NumberedPairs(c, i, g, n, swap);
  }

  ghost predicate Ranked<A(!new)>(le: (A, A) -> bool, xs: seq<A>, swap: bool) {
    forall m, k :: 0 <= m < |xs| && 0 <= k < |xs| && m != k ==> (le(xs[m], xs[k]) <==> Earlier(|xs|, m, k, swap))
  }

  lemma FrontSorted<A(!new)>(le: (A, A) -> bool, xs: seq<A>, swap: bool)
    requires |xs| >= 2 && Ranked(le, xs, swap)
    ensures Sorted(le, xs[..|xs| - 2])
  {
    hide Ranked;
    forall i, j | 0 <= i < j < |xs| - 2 ensures le(xs[i], xs[j]) {
      RankedPair(le, xs, swap, i, j);
    }
  }

  lemma RankedPair<A(!new)>(le: (A, A) -> bool, xs: seq<A>, swap: bool, m: nat, k: nat)
    requires Ranked(le, xs, swap) && m < |xs| && k < |xs| && m != k
    ensures le(xs[m], xs[k]) <==> Earlier(|xs|, m, k, swap)
  {
  }

  lemma LastTwoSorted<A(!new)>(le: (A, A) -> bool, xs: seq<A>, swap: bool)
    requires |xs| >= 2 && Ranked(le, xs, swap)
    ensures var sorted := Lists.Sort(le, xs);
            |sorted| == |xs| && sorted[|xs| - 2] == xs[if swap then |xs| - 1 else |xs| - 2]
  {
    hide Ranked, Lists.Sort, Sorted;
    var n := |xs|;
    var zs, a, b := xs[..n - 2], xs[n - 2], xs[n - 1];
    FrontSorted(le, xs, swap);
    forall z | z in zs ensures le(z, a) && le(z, b) {
      var m :| 0 <= m < n - 2 && xs[m] == z;
      RankedPair(le, xs, swap, m, n - 2);
      RankedPair(le, xs, swap, m, n - 1);
    }
    RankedPair(le, xs, swap, n - 2, n - 1);
    assert xs == zs + [a] + [b];
    SortLastTwo(le, zs, a, b, xs);
  }

  lemma NumberedSorted(c: Clauses, q: Query, nullsLast: bool, i: nat, g: string, n: nat, swap: bool)
    requires i < |c.order| && Open(c, i, g) && Plain(c, q) && n >= 2
    requires q.orderBy == SortItems(NamesOf(c), c.aggregates, nullsLast, c.order)
    ensures var le := SqlOrdering(NumberedDb(c, g, c.order[i], n, swap), q);
            var sorted := Lists.Sort(le, NumberedOuts(c, q, i, g, n, swap));
            |sorted| == n && sorted[n - 2] == NumberedRowOut(c, q, i, g, n, if swap then n - 1 else n - 2, swap)
  {
    hide Open, Plain, SortItems, SqlOrdering, NumberedRowOut, NumberedDb, Lists.Sort, Earlier, NumberedOuts;
    var le, ss := SqlOrdering(NumberedDb(c, g, c.order[i], n, swap), q), NumberedOuts(c, q, i, g, n, swap);
    forall m, k | 0 <= m < n && 0 <= k < n && m != k ensures le(ss[m], ss[k]) <==> Earlier(n, m, k, swap) {
      RankDecides(c, q, nullsLast, i, g, n, m, k, swap);
    }
    LastTwoSorted(le, ss, swap);
  }

  /** Each output shows its number. */
  lemma NumberShown(c: Clauses, q: Query, i: nat, g: string, n: nat, m: nat, swap: bool, k: nat)
    requires i < |c.order| && Open(c, i, g) && Plain(c, q) && k < |c.groupBy| && c.groupBy[k] == g
    ensures var out := NumberedRowOut(c, q, i, g, n, m, swap).out;
            out.Columns? && k < |out.values| && out.values[k] == Num(m as real)
  {
    var db, z := NumberedDb(c, g, c.order[i], n, swap), NumberedPair(c, i, g, n, m, swap);
    SelectedValue(db, q, z, k);
    assert q.list.items[k].column == Col(NamesOf(c), g);
    ColumnSeen(db, c, NumberedRow(c.groupBy, g, c.order[i], n, m, swap), g);
    NumberedValues(c.groupBy, g, c.order[i], n, m, swap, g);
  }

  lemma AlwaysSortable(db: Db, c: Clauses, q: Query)
    requires Plain(c, q)
    ensures Sortable(db, q)
  {
    forall s, j | 0 <= j < |q.orderBy| ensures OrderValue(db, q, s, q.orderBy[j].column).Some? {
      GroupUnaliased(c, q.orderBy[j].column);
    }
  }

  /** A group read's clauses. */
  predicate OfRead(c: Clauses) {
    && c.joins == [] && c.wheres == [] && c.having.Nil? && c.cols == [] && !c.distinct && Aggregates(c)
    && NamesOf(c) == Names("", {}) && (c.hasLimit ==> c.limit >= 1 && c.offset >= 0)
  }

  function Skipped(c: Clauses): (n: nat)
    requires OfRead(c)
  {
    if c.hasLimit then c.offset else 0
  }

  lemma StatementPlain(c: Clauses, nullsLast: bool)
    requires OfRead(c) && Renderable(c)
    ensures var q := QueryOf(c, nullsLast);
                Plain(c, q) && q.orderBy == SortItems(NamesOf(c), c.aggregates, nullsLast, c.order)
  {
    QueryClauses(c, nullsLast);
  }

  /** The first output the statement keeps, with as many rows before the last two
      as it skips. */
  lemma StatementFirst(c: Clauses, nullsLast: bool, i: nat, g: string, swap: bool)
    requires OfRead(c) && Renderable(c) && Placed(c) && Assembled(c) && NamesSound(c) && i < |c.order| && Open(c, i, g)
    ensures var q, n := QueryOf(c, nullsLast), Skipped(c) + 2;
            var result := Result(NumberedDb(c, g, c.order[i], n, swap), q, LimitOf(c), OffsetOf(c));
            && result.Some? && result.value != []
            && result.value[0] == NumberedRowOut(c, q, i, g, n, if swap then n - 1 else n - 2, swap).out
  {
    hide QueryOf, Placed, Renderable, Assembled, Open, Plain, SelectedRows, NumberedOuts, NumberedRowOut, SqlOrdering;
    hide Exposed, Sortable, NumberedDb, SortItems, NamesOf;
    var q, n := QueryOf(c, nullsLast), Skipped(c) + 2;
    var db := NumberedDb(c, g, c.order[i], n, swap);
    StatementPlain(c, nullsLast);
    assert g in c.groupBy && c.order[i].field !in c.groupBy by {
      OpenNames(c, i, g);
    }
    NumberedSelected(c, nullsLast, i, g, n, swap);
    NumberedSorted(c, q, nullsLast, i, g, n, swap);
    AlwaysSortable(db, c, q);
    assert Exposed(q) by {
      JoinsExposed(c, nullsLast);
    }
    assert OrderedRows(db, q) == Lists.Sort(SqlOrdering(db, q), NumberedOuts(c, q, i, g, n, swap)) by {
      SortsSomething(NamesOf(c), c.aggregates, nullsLast, c.order);
    }
    if c.hasLimit {
      SliceFirst(SelectedOutputs(db, q), c.offset, c.limit);
    }
  }

  lemma OpenNames(c: Clauses, i: nat, g: string)
    requires i < |c.order| && Open(c, i, g)
    ensures g in c.groupBy && c.order[i].field !in c.groupBy
  {
  }

  lemma SortsSomething(ns: Names, calls: seq<AggCall>, nullsLast: bool, terms: seq<OrderTerm>)
    requires terms != []
    ensures SortItems(ns, calls, nullsLast, terms) != []
  {
  }

  /** The chain returns one of the two, so the other database tells it from its
      statement. */
  lemma OneTells(c: Clauses, e: Expr, nullsLast: bool, i: nat, g: string) returns (db: Db)
    requires FlattenInput(e) == Ok(c) && Shaped(e)
    requires OfRead(c) && Renderable(c) && Placed(c) && Assembled(c) && NamesSound(c) && i < |c.order| && Open(c, i, g)
    ensures Ordered(db) && Result(db, QueryOf(c, nullsLast), LimitOf(c), OffsetOf(c)) != Some(Outputs(Eval(db, e)))
  {
    hide Result, QueryOf, Placed, Renderable, Assembled, Applied, FlattenInput, Shaped, NumberedRowOut, NumberedDb,
        NamesSound;
    hide Eval, Plain, Outputs, SortItems;
    var q, n, t := QueryOf(c, nullsLast), Skipped(c) + 2, c.order[i];
    var plain, swapped := NumberedDb(c, g, t, n, false), NumberedDb(c, g, t, n, true);
    OpenNames(c, i, g);
    var k :| 0 <= k < |c.groupBy| && c.groupBy[k] == g;
    StatementPlain(c, nullsLast);
    StatementFirst(c, nullsLast, i, g, false);
    StatementFirst(c, nullsLast, i, g, true);
    NumberShown(c, q, i, g, n, n - 2, false, k);
    NumberShown(c, q, i, g, n, n - 1, true, k);
    ChainUnranked(c, g, t, n);
    FlattenKeepsMeaning(plain, e);
    FlattenKeepsMeaning(swapped, e);
    NumberedOrdered(c, g, t, n, false);
    NumberedOrdered(c, g, t, n, true);
    db := if Result(plain, q, LimitOf(c), OffsetOf(c)) == Some(Outputs(Eval(plain, e))) then swapped else plain;
  }

  lemma NumberedOrdered(c: Clauses, g: string, t: OrderTerm, n: nat, swap: bool)
    ensures Ordered(NumberedDb(c, g, t, n, swap))
  {
    AllTablesOrdered(Numbered(c.groupBy, g, t, n, swap), Null);
  }

  // --- exactly when the two agree ---

  lemma FirstUnselected(c: Clauses, n: nat) returns (i: nat)
    requires n < |c.order| && !TermSelected(c, c.order[n])
    ensures i <= n && !TermSelected(c, c.order[i]) && forall j :: 0 <= j < i ==> TermSelected(c, c.order[j])
  {
    hide TermSelected;
    i := 0;
    while TermSelected(c, c.order[i])
      invariant i <= n
      invariant forall j :: 0 <= j < i ==> TermSelected(c, c.order[j])
      decreases n - i
    {
      i := i + 1;
    }
  }

  lemma SeparatesMore(c: Clauses, i: nat, n: nat)
    requires i <= n <= |c.order| && Separates(c, i)
    ensures Separates(c, n)
  {
    forall k | 0 <= k < |c.groupBy| 
      ensures Named(c.aggregates, c.groupBy[k]) < 0 && exists j :: 0 <= j < n && c.order[j].field == c.groupBy[k]
    {
      var j :| 0 <= j < i && c.order[j].field == c.groupBy[k];
    }
  }

  lemma Unseparated(c: Clauses, i: nat) returns (g: string)
    requires i <= |c.order| && !Separates(c, i)
    ensures g in c.groupBy && (Named(c.aggregates, g) >= 0 || forall j :: 0 <= j < i ==> c.order[j].field != g)
  {
    var k :| 0 <= k < |c.groupBy| &&
             !(Named(c.aggregates, c.groupBy[k]) < 0 && exists j :: 0 <= j < i && c.order[j].field == c.groupBy[k]);
    g := c.groupBy[k];
  }

  lemma LeastOpen(c: Clauses) returns (i: nat, g: string)
    requires Aggregates(c) && !c.distinct && !TermsSelected(c)
    ensures i < |c.order| && Open(c, i, g)
  {
    hide Separates, OutputName, Named;
    var n :| 0 <= n < |c.order| && !TermSelected(c, c.order[n]) && !Idle(c, n);
    i := FirstUnselected(c, n);
    if Separates(c, i) {
      SeparatesMore(c, i, n);
    }
    g := Unseparated(c, i);
  }

  lemma SelectsOneGroup(db: Db, c: Clauses, nullsLast: bool, row: Row)
    requires Aggregates(c) && c.joins == [] && c.wheres == [] && c.having.Nil? && db.table(c.relation) == [row]
    requires Renderable(c) && Placed(c) && Assembled(c)
    ensures SelectedRows(db, QueryOf(c, nullsLast)) != []
  {
    hide QueryOf, Placed, Renderable, Assembled, HavingRows, Pairs, GroupPair;
    var q := QueryOf(c, nullsLast);
    KeptAreContexts(db, c, nullsLast);
    NoneDropped(db, c);
    OnePair(db, c, row);
    var rows := Map(Selecting(db, q), HavingRows(db, q));
    assert |rows| == 1;
    DedupNone(SelectedOut(), rows);
  }

  /** Distinct groups ordered by what they do not select are refused. */
  lemma Refused(db: Db, c: Clauses, nullsLast: bool, row: Row)
    requires c.distinct && Aggregates(c) && !TermsSelected(c) && NamesOf(c) == Names("", {}) && c.joins == [] &&
             c.wheres == []
    requires Renderable(c) && Placed(c) && Assembled(c) && c.having.Nil? && db.table(c.relation) == [row]
    ensures Result(db, QueryOf(c, nullsLast), LimitOf(c), OffsetOf(c)).None?
  {
    hide QueryOf, Placed, Renderable, Assembled, SelectedRows, NamesOf, OrderValue, SelectedOutputs, Exposed;
    hide OutputColumn, ListOf, SortItems, Grouping, Resolved, ResolvedAll, OutputName;
    var q := QueryOf(c, nullsLast);
    QueryClauses(c, nullsLast);
    SelectsOneGroup(db, c, nullsLast, row);
    var i :| 0 <= i < |c.order| && !TermSelected(c, c.order[i]);
    var k := TermSorted(NamesOf(c), c.aggregates, nullsLast, c.order, i);
    var s := SelectedRows(db, q)[0];
    NoItem(db, c, q, s, c.order[i].field);
    assert !Orderable(db, q, s);
  }

  lemma NoItem(db: Db, c: Clauses, q: Query, s: Selected, name: string)
    requires q.distinct && q.list == ListOf(c) && Aggregates(c) && NamesOf(c) == Names("", {}) && !OutputName(c, name)
    ensures OrderValue(db, q, s, OutputColumn(NamesOf(c), c.aggregates, name)).None?
  {
    var items, n, col := q.list.items, |c.groupBy|, OutputColumn(NamesOf(c), c.aggregates, name);
    GroupUnaliased(c, col);
    forall k | 0 <= k < |items| ensures items[k].column != col {
      if k >= n {
        assert items[n + (k - n)].column.CallOf?;
      }
    }
  }

  /** An aggregate, ordered, distinct or not, bounded or not, means in SQL what it
      means as a chain exactly when each term names a group-by field or a call, or
      comes, of rows that need not be distinct, after terms that order every
      group. */
  lemma GroupOrderExact(g: GroupRead, nullsLast: bool)
    requires Proper(g)
    ensures var e, c := GroupExpr(g), GroupClauses(g);
            FlattenInput(e) == Ok(c) && Renderable(c) && (Agrees(e, nullsLast) <==> TermsSelected(c))
  {
    hide Result, QueryOf, TermsSelected, Placed, Assembled, NamesSound, OrderKept, Eval, Shaped, FlattenInput,
        Renderable;
    hide NamesOf, Outputs, Open;
    var e, c := GroupExpr(g), GroupClauses(g);
    FlattenedGroups(g);
    GroupsPlaced(g);
    if TermsSelected(c) {
      forall db | Ordered(db)
        ensures Result(db, QueryOf(c, nullsLast), LimitOf(c), OffsetOf(c)) == Some(Outputs(Eval(db, e)))
      {
        SelectKeepsMeaning(db, e, nullsLast);
      }
    } else if g.distinct {
      AllTablesOrdered([map[]], Null);
      Refused(AllTables([map[]], Null), c, nullsLast, map[]);
    } else {
      var i, name := LeastOpen(c);
      var db := OneTells(c, e, nullsLast, i, name);
    }
  }
}
