/** Where an ordered read and its statement part: ORDER BY takes an output's name
    before a column's, so a term whose name another field is renamed to sorts by
    that field. The two agree exactly when the terms that decide are the same. */
module OrderExactness {
  import opened Lists
  import opened Relalg
  import opened SqlSelect
  import opened Flatten
  import opened Resolve
  import opened SortKeys
  import opened SelectCorrect
  import opened SelectOrder
  import opened SelectMain
  import opened Witnesses

  // --- the terms that decide ---

  /** Each deciding term is of a new field, while something shown is not yet
      compared. */
  lemma {:induction false} DecidingNew(terms: seq<OrderTerm>, shown: set<string>, seen: set<string>, i: nat)
    requires i < |Deciding(terms, shown, seen)|
    ensures var ks := Deciding(terms, shown, seen);
            ks[i].field !in seen + FieldsOf(ks[..i]) && !(shown <= seen + FieldsOf(ks[..i]))
    decreases terms
  {
    var t, ks := terms[0], Deciding(terms, shown, seen);
    if t.field in seen {
      DecidingNew(terms[1..], shown, seen, i);
    } else if i > 0 {
      var rest := Deciding(terms[1..], shown, seen + {t.field});
      DecidingNew(terms[1..], shown, seen + {t.field}, i - 1);
      assert ks[..i] == [t] + rest[..i-1];
      FieldsCons(t, rest[..i-1]);
    } else {
      assert FieldsOf(ks[..0]) == {};
    }
  }

  /** Where two lists part. */
  function Parting(ks: seq<OrderTerm>, ls: seq<OrderTerm>): (k: nat)
    ensures k <= |ks| && k <= |ls| && ks[..k] == ls[..k]
    ensures k < |ks| && k < |ls| ==> ks[k] != ls[k]
    ensures k == |ks| == |ls| ==> ks == ls
  {
    if ks == [] || ls == [] || ks[0] != ls[0] then 0
    else
      var k := 1 + Parting(ks[1..], ls[1..]);
      assert ks[..k] == [ks[0]] + ks[1..][..k-1] && ls[..k] == [ls[0]] + ls[1..][..k-1];
      assert ks == [ks[0]] + ks[1..] && ls == [ls[0]] + ls[1..];
      k
  }

  /** Rows that agree on the first terms are ordered by the others. */
  lemma {:induction false} PrefixTies(db: Db, prefix: seq<OrderTerm>, rest: seq<OrderTerm>, r: Record, s: Record)
    requires AgreeOn(FieldsOf(prefix), r, s)
    ensures TermsLe(db, prefix + rest, r, s) <==> TermsLe(db, rest, r, s)
  {
    if prefix == [] {
      assert prefix + rest == rest;
    } else {
      var t, others := prefix[0], prefix[1..];
      assert prefix == [t] + others && prefix + rest == [t] + (others + rest);
      FieldsCons(t, others);
      TermsLeCons(db, t, others + rest, r, s);
      PrefixTies(db, others, rest, r, s);
    }
  }

  /** The first term two rows differ by decides. */
  lemma TermDecides(db: Db, ks: seq<OrderTerm>, k: nat, r: Record, s: Record)
    requires TotalOrder(db.le) && k < |ks| && AgreeOn(FieldsOf(ks[..k]), r, s)
    requires Lookup(r.env, ks[k].field) != Lookup(s.env, ks[k].field)
    ensures var before := CompareTerm(db, ks[k], Lookup(r.env, ks[k].field), Lookup(s.env, ks[k].field)) < 0;
            (TermsLe(db, ks, r, s) <==> before) && (TermsLe(db, ks, s, r) <==> !before)
  {
    assert ks == ks[..k] + ks[k..] && ks[k..] == [ks[k]] + ks[k+1..];
    PrefixTies(db, ks[..k], ks[k..], r, s);
    PrefixTies(db, ks[..k], ks[k..], s, r);
    TermsLeCons(db, ks[k], ks[k+1..], r, s);
    TermsLeCons(db, ks[k], ks[k+1..], s, r);
    CompareTermOrder(db, ks[k], Lookup(r.env, ks[k].field), Lookup(s.env, ks[k].field), Lookup(r.env, ks[k].field));
  }

  /** What decides the keys strictly decides the terms. */
  lemma KeysDecideTerms(db: Db, terms: seq<OrderTerm>, shown: set<string>, k: nat, r: Record, s: Record)
    requires TotalOrder(db.le) && k < |Deciding(terms, shown, {})|
    requires var ks := Deciding(terms, shown, {});
             AgreeOn(FieldsOf(ks[..k]), r, s) && Lookup(r.env, ks[k].field) != Lookup(s.env, ks[k].field)
    ensures var t := Deciding(terms, shown, {})[k];
            TermsLe(db, terms, r, s) <==> CompareTerm(db, t, Lookup(r.env, t.field), Lookup(s.env, t.field)) < 0
  {
    TermDecides(db, Deciding(terms, shown, {}), k, r, s);
    DecidingLe(db, terms, shown, {}, r, s);
    DecidingLe(db, terms, shown, {}, s, r);
    TermsTotal(db, terms, r, s);
  }

  /** Rows that agree on every key tie, when something shown is not compared. */
  lemma KeysTieTerms(db: Db, terms: seq<OrderTerm>, shown: set<string>, r: Record, s: Record)
    requires TotalOrder(db.le)
    requires var ks := Deciding(terms, shown, {}); !(shown <= FieldsOf(ks)) && AgreeOn(FieldsOf(ks), r, s)
    ensures TermsLe(db, terms, r, s)
  {
    var ks := Deciding(terms, shown, {});
    DecidingLe(db, terms, shown, {}, r, s);
    PrefixTies(db, ks, [], r, s);
    assert ks + [] == ks;
  }

  // --- two rows the orders put in opposite orders ---

  predicate Small(v: Value) {
    v == Null || v == Num(0.0) || v == Num(1.0)
  }

  function Low(names: set<string>): Row {
    Const(names, Num(0.0))
  }

  function High(names: set<string>, tied: set<string>): Row {
    map n | n in names :: if n in tied then Num(0.0) else Num(1.0)
  }

  /** The rows tied by the fields of tied, that terms t and u, where they are,
      put in opposite orders. */
  function Rows(names: set<string>, tied: set<string>, t: Option<OrderTerm>, u: Option<OrderTerm>): (Row, Row) {
    var a, b := Low(names), High(names, tied);
    match (t, u)
    case (Some(t), Some(u)) =>
      if t.field != u.field && t.desc == u.desc then (a[u.field := Num(1.0)], b[u.field := Num(0.0)])
      else if t.field == u.field && t.desc == u.desc then (a[t.field := Null], b)
      else (a, b)
    case (Some(t), None) => if t.desc then (a, b) else (b, a)
    case (None, Some(u)) => if u.desc then (a, b) else (b, a)
    case (None, None) => (a, b)
  }

  lemma RowsValues(names: set<string>, tied: set<string>, t: Option<OrderTerm>, u: Option<OrderTerm>, n: string)
    requires t.Some? ==> t.value.field in names - tied
    requires u.Some? ==> u.value.field in names - tied
    ensures var (a, b) := Rows(names, tied, t, u); Small(Get(a, n)) && Small(Get(b, n))
    ensures var (a, b) := Rows(names, tied, t, u); n in tied && n in names ==> Get(a, n) == Get(b, n) == Num(0.0)
    ensures var (a, b) := Rows(names, tied, t, u); n in names - tied ==> Get(a, n) != Get(b, n)
  {
  }

  function KeyAt(ks: seq<OrderTerm>, k: nat): Option<OrderTerm> {
    if k < |ks| then Some(ks[k]) else None
  }

  /** What term t says of the two rows; without one they tie. */
  predicate Says(t: Option<OrderTerm>, a: Row, b: Row) {
    t.None? ||
    CompareTerm(AllTables([], Null), t.value, Get(a, t.value.field), Get(b, t.value.field)) < 0
  }

  lemma RowsApart(names: set<string>, tied: set<string>, t: Option<OrderTerm>, u: Option<OrderTerm>)
    requires (t.Some? || u.Some?) && t != u
    requires t.Some? ==> t.value.field in names - tied
    requires u.Some? ==> u.value.field in names - tied
    ensures var (a, b) := Rows(names, tied, t, u); Says(t, a, b) != Says(u, a, b)
  {
  }

  ghost predicate Witnessing(db: Db) {
    TotalOrder(db.le) && forall t: OrderTerm, x, y ::
        CompareTerm(db, t, x, y) == CompareTerm(AllTables([], Null), t, x, y)
  }

  lemma AllTablesWitnesses(rows: seq<Row>, v: Value)
    ensures Witnessing(AllTables(rows, v))
  {
    ValueLeTotalOrder();
  }

  /** The terms say of the two rows what their k-th key says, the keys before it
      being tied. */
  lemma TermsSay(db: Db, terms: seq<OrderTerm>, shown: set<string>, k: nat, a: Row, b: Row)
    requires Witnessing(db)
    requires var ks := Deciding(terms, shown, {});
             && k <= |ks| && !(shown <= FieldsOf(ks[..k]))
             && (forall f :: f in FieldsOf(ks[..k]) ==> Get(a, f) == Get(b, f))
             && (k < |ks| ==> Get(a, ks[k].field) != Get(b, ks[k].field))
    ensures TermsLe(db, terms, ScannedRow(a), ScannedRow(b)) <==> Says(KeyAt(Deciding(terms, shown, {}), k), a, b)
  {
    var ks := Deciding(terms, shown, {});
    if k < |ks| {
      KeysDecideTerms(db, terms, shown, k, ScannedRow(a), ScannedRow(b));
    } else {
      assert ks[..k] == ks;
      KeysTieTerms(db, terms, shown, ScannedRow(a), ScannedRow(b));
    }
  }

  function FieldNames(terms: seq<OrderTerm>, others: seq<OrderTerm>, shown: set<string>): set<string> {
    shown + FieldsOf(terms) + FieldsOf(others)
  }

  lemma {:induction false} DecidingFields(terms: seq<OrderTerm>, shown: set<string>, seen: set<string>)
    ensures FieldsOf(Deciding(terms, shown, seen)) <= FieldsOf(terms)
  {
    if terms != [] {
      assert terms == [terms[0]] + terms[1..];
      FieldsCons(terms[0], terms[1..]);
      DecidingFields(terms[1..], shown, seen);
      DecidingFields(terms[1..], shown, seen + {terms[0].field});
      FieldsCons(terms[0], Deciding(terms[1..], shown, seen + {terms[0].field}));
    }
  }

  function PartingAt(terms: seq<OrderTerm>, others: seq<OrderTerm>, shown: set<string>): nat {
    Parting(Deciding(terms, shown, {}), Deciding(others, shown, {}))
  }

  function TiedBefore(terms: seq<OrderTerm>, others: seq<OrderTerm>, shown: set<string>): set<string> {
    FieldsOf(Deciding(terms, shown, {})[..PartingAt(terms, others, shown)])
  }

  /** The two rows for two orders. */
  function RowsFor(terms: seq<OrderTerm>, others: seq<OrderTerm>, shown: set<string>): (Row, Row) {
    var k := PartingAt(terms, others, shown);
    Rows(FieldNames(terms, others, shown), TiedBefore(terms, others, shown),
         KeyAt(Deciding(terms, shown, {}), k), KeyAt(Deciding(others, shown, {}), k))
  }

  lemma KeyAtNew(terms: seq<OrderTerm>, others: seq<OrderTerm>, shown: set<string>)
    requires Deciding(terms, shown, {}) != Deciding(others, shown, {})
    ensures var k, tied := PartingAt(terms, others, shown), TiedBefore(terms, others, shown);
            var t, u := KeyAt(Deciding(terms, shown, {}), k), KeyAt(Deciding(others, shown, {}), k);
            && (t.Some? || u.Some?) && t != u && !(shown <= tied)
            && (t.Some? ==> t.value.field in FieldNames(terms, others, shown) - tied)
            && (u.Some? ==> u.value.field in FieldNames(terms, others, shown) - tied)
            && tied <= FieldNames(terms, others, shown)
  {
    var k, ks, ls := PartingAt(terms, others, shown), Deciding(terms, shown, {}), Deciding(others, shown, {});
    DecidingFields(terms, shown, {});
    DecidingFields(others, shown, {});
    if k < |ks| {
      DecidingNew(terms, shown, {}, k);
      assert ks[k].field in FieldsOf(ks);
    }
    if k < |ls| {
      DecidingNew(others, shown, {}, k);
      assert ls[k].field in FieldsOf(ls);
    }
  }

  /** The two orders put them in opposite orders, and they show different
      values. */
  lemma RowsDiffer(db: Db, terms: seq<OrderTerm>, others: seq<OrderTerm>, shown: set<string>)
    requires Witnessing(db) && Deciding(terms, shown, {}) != Deciding(others, shown, {})
    ensures var (a, b) := RowsFor(terms, others, shown);
            && TermsLe(db, terms, ScannedRow(a), ScannedRow(b)) != TermsLe(db, others, ScannedRow(a), ScannedRow(b))
            && (exists o :: o in shown && Get(a, o) != Get(b, o))
            && (forall n :: Small(Get(a, n)) && Small(Get(b, n)))
            && (forall n :: n in TiedBefore(terms, others, shown) ==> Get(a, n) == Get(b, n) == Num(0.0))
  {
    var k, names, tied := PartingAt(terms, others, shown), FieldNames(terms, others, shown),
        TiedBefore(terms, others, shown);
    var ks, ls := Deciding(terms, shown, {}), Deciding(others, shown, {});
    var (a, b) := RowsFor(terms, others, shown);
    KeyAtNew(terms, others, shown);
    forall n
      ensures Small(Get(a, n)) && Small(Get(b, n))
      ensures n in tied ==> Get(a, n) == Get(b, n) == Num(0.0)
      ensures n in names - tied ==> Get(a, n) != Get(b, n)
    {
      RowsValues(names, tied, KeyAt(ks, k), KeyAt(ls, k), n);
    }
    var o :| o in shown && o !in tied;
    RowsApart(names, tied, KeyAt(ks, k), KeyAt(ls, k));
    TermsSay(db, terms, shown, k, a, b);
    TermsSay(db, others, shown, k, a, b);
  }

  // --- rows before them, for a read that skips some ---

  /** The i-th of m values that come before 0 and 1, in the direction. */
  function Ahead(desc: bool, m: nat, i: nat): Value {
    Num(if desc then (1 + m - i) as real else (i - m) as real)
  }

  function Leading(names: set<string>, desc: bool, m: nat): (rows: seq<Row>)
    ensures |rows| == m && forall i :: 0 <= i < m ==> rows[i] == Const(names, Ahead(desc, m, i))
  {
    seq(m, i requires 0 <= i < m => Const(names, Ahead(desc, m, i)))
  }

  lemma AheadFirst(t: OrderTerm, m: nat, i: nat, v: Value)
    requires i < m && (v == Num(0.0) || v == Num(1.0) || exists j :: i < j < m && v == Ahead(t.desc, m, j))
    ensures CompareTerm(AllTables([], Null), t, Ahead(t.desc, m, i), v) < 0
  {
  }

  lemma AheadLe(db: Db, terms: seq<OrderTerm>, names: set<string>, m: nat, i: nat, row: Row)
    requires Witnessing(db) && terms != [] && terms[0].field in names && i < m
    requires var v := Get(row, terms[0].field);
             v == Num(0.0) || v == Num(1.0) || exists j :: i < j < m && v == Ahead(terms[0].desc, m, j)
    ensures TermsLe(db, terms, ScannedRow(Leading(names, terms[0].desc, m)[i]), ScannedRow(row))
  {
    var z, t := Leading(names, terms[0].desc, m)[i], terms[0];
    assert Get(z, t.field) == Ahead(t.desc, m, i);
    AheadFirst(t, m, i, Get(row, t.field));
    assert terms == [t] + terms[1..];
    TermsLeCons(db, t, terms[1..], ScannedRow(z), ScannedRow(row));
  }

  // --- an ordered read ---

  datatype Bound = Whole | Bound(count: int, offset: int)

  function Sorting(r: RelationRef, alias: string, terms: seq<OrderTerm>, items: seq<ProjectItem>): Expr {
    Project(Expr.Sort(Scan(r, alias), terms), items)
  }

  function ReadOf(
    r: RelationRef, alias: string, terms: seq<OrderTerm>, items: seq<ProjectItem>, distinct: bool, bound: Bound): Expr
  {
    var e := if distinct then Distinct(Sorting(r, alias, terms, items)) else Sorting(r, alias, terms, items);
    if bound.Bound? then Expr.Limit(e, bound.count, bound.offset) else e
  }

  function ReadClauses(
    r: RelationRef, alias: string, terms: seq<OrderTerm>, items: seq<ProjectItem>, distinct: bool, bound: Bound)
    : Clauses
  {
    var c := NO_CLAUSES.(relation := r, scanAlias := alias, cols := items, order := terms, distinct := distinct,
                         rank := if distinct then 7 else 6);
    if bound.Bound? then c.(limit := bound.count, offset := bound.offset, hasLimit := true, rank := 8) else c
  }

  predicate Bounded(bound: Bound) {
    bound.Bound? ==> bound.count >= 1 && bound.offset >= 0
  }

  lemma FlattenedSorting(r: RelationRef, alias: string, terms: seq<OrderTerm>, items: seq<ProjectItem>)
    ensures FlattenInput(Sorting(r, alias, terms, items)) == Ok(ReadClauses(r, alias, terms, items, false, Bound.Whole))
  {
    var scanned := NO_CLAUSES.(relation := r, scanAlias := alias);
    assert FlattenInput(Scan(r, alias)) == Ok(scanned);
    assert FlattenInput(Expr.Sort(Scan(r, alias), terms)) == Ok(scanned.(order := terms, rank := 5));
  }

  lemma FlattenedRead(
    r: RelationRef, alias: string, terms: seq<OrderTerm>, items: seq<ProjectItem>, distinct: bool, bound: Bound)
    requires items != [] && Bounded(bound)
    ensures FlattenInput(ReadOf(r, alias, terms, items, distinct, bound)) ==
            Ok(ReadClauses(r, alias, terms, items, distinct, bound))
    ensures Shaped(ReadOf(r, alias, terms, items, distinct, bound))
    ensures var c := ReadClauses(r, alias, terms, items, distinct, bound); Renderable(c) && Placed(c)
  {
    FlattenedSorting(r, alias, terms, items);
    var e := Sorting(r, alias, terms, items);
    assert Shaped(Expr.Sort(Scan(r, alias), terms));
    assert Shaped(e);
    if distinct {
      assert FlattenInput(Distinct(e)) == Ok(ReadClauses(r, alias, terms, items, true, Bound.Whole));
    }
  }

  // --- its outputs ---

  function ScannedAll(rows: seq<Row>): (rs: seq<Record>)
    ensures |rs| == |rows| && forall i :: 0 <= i < |rows| ==> rs[i] == ScannedRow(rows[i])
  {
    seq(|rows|, i requires 0 <= i < |rows| => ScannedRow(rows[i]))
  }

  ghost function ShownOutput(items: seq<ProjectItem>, row: Row): Output {
    Showing(items)(ScannedRow(row))
  }

  lemma ShowsApart(items: seq<ProjectItem>, a: Row, b: Row, f: string)
    requires f in Shown(items) && Get(a, f) != Get(b, f)
    ensures ShownOutput(items, a) != ShownOutput(items, b)
  {
    var i :| 0 <= i < |items| && items[i].field == f;
    var fields := ItemFields(items);
    assert Lookups(Env(a, map[]), fields)[i] == Get(a, f) && Lookups(Env(b, map[]), fields)[i] == Get(b, f);
  }

  /** What a read keeps of its outputs. */
  ghost function Kept(outs: seq<Output>, distinct: bool, bound: Bound): seq<Output> {
    var kept := if distinct then Dedup(Itself(), outs) else outs;
    if bound.Bound? then Slice(kept, bound.offset, bound.count) else kept
  }

  lemma ReadOutputs(
    db: Db, r: RelationRef, alias: string, terms: seq<OrderTerm>, items: seq<ProjectItem>, distinct: bool, bound: Bound)
    requires items != [] && terms != []
    ensures Outputs(Applied(db, ReadClauses(r, alias, terms, items, distinct, bound))) ==
            Kept(Map(Showing(items), Lists.Sort(Ordering(db, terms), ScannedAll(db.table(r)))), distinct, bound)
  {
    var c := ReadClauses(r, alias, terms, items, distinct, bound);
    assert ScanRows(db, r) == ScannedAll(db.table(r));
    AppliedOutputs(db, c);
    ProjectedOutputs(db, c);
  }

  function Offset(bound: Bound): nat
    requires Bounded(bound)
  {
    if bound.Bound? then bound.offset else 0
  }

  predicate NoTwo(outs: seq<Output>) {
    forall i, j :: 0 <= i < j < |outs| ==> outs[i] != outs[j]
  }

  lemma SliceFirst(outs: seq<Output>, offset: int, count: int)
    requires 0 <= offset < |outs| && count >= 1
    ensures var kept := Slice(outs, offset, count); kept != [] && kept[0] == outs[offset]
  {
  }

  /** Distinct outputs are kept from the offset on. */
  lemma KeptFrom(outs: seq<Output>, distinct: bool, bound: Bound)
    requires NoTwo(outs) && Bounded(bound) && Offset(bound) < |outs|
    ensures var kept := Kept(outs, distinct, bound); kept != [] && kept[0] == outs[Offset(bound)]
  {
    assert forall i, j :: 0 <= i < j < |outs| ==> Itself()(outs[i]) != Itself()(outs[j]);
    DedupNone(Itself(), outs);
    if bound.Bound? {
      SliceFirst(outs, bound.offset, bound.count);
    }
  }

  /** The rows: as many as are skipped, then the two. */
  function Table(names: set<string>, desc: bool, m: nat, a: Row, b: Row): seq<Row> {
    Leading(names, desc, m) + [a] + [b]
  }

  lemma LeadingSorted(db: Db, terms: seq<OrderTerm>, names: set<string>, m: nat)
    requires Witnessing(db) && terms != [] && terms[0].field in names
    ensures Lists.Sorted(Ordering(db, terms), ScannedAll(Leading(names, terms[0].desc, m)))
  {
    var rows := Leading(names, terms[0].desc, m);
    forall i, j | 0 <= i < j < m ensures TermsLe(db, terms, ScannedRow(rows[i]), ScannedRow(rows[j])) {
      assert Get(rows[j], terms[0].field) == Ahead(terms[0].desc, m, j);
      AheadLe(db, terms, names, m, i, rows[j]);
    }
  }

  predicate Seen(terms: seq<OrderTerm>, row: Row)
    requires terms != []
  {
    Get(row, terms[0].field) == Num(0.0) || Get(row, terms[0].field) == Num(1.0)
  }

  lemma LeadingBefore(db: Db, terms: seq<OrderTerm>, names: set<string>, m: nat, row: Row)
    requires Witnessing(db) && terms != [] && terms[0].field in names && Seen(terms, row)
    ensures forall z :: z in ScannedAll(Leading(names, terms[0].desc, m)) ==> Ordering(db, terms)(z, ScannedRow(row))
  {
    var zs := ScannedAll(Leading(names, terms[0].desc, m));
    forall z | z in zs ensures TermsLe(db, terms, z, ScannedRow(row)) {
      var i :| 0 <= i < m && zs[i] == z;
      AheadLe(db, terms, names, m, i, row);
    }
  }

  lemma ScannedTable(names: set<string>, desc: bool, m: nat, a: Row, b: Row)
    ensures ScannedAll(Table(names, desc, m, a, b)) ==
            ScannedAll(Leading(names, desc, m)) + [ScannedRow(a)] + [ScannedRow(b)]
    ensures ScannedAll(Table(names, desc, m, a, b)) ==
            ScannedAll(Leading(names, desc, m)) + [ScannedRow(a), ScannedRow(b)]
  {
  }

  lemma TableSorted(db: Db, terms: seq<OrderTerm>, names: set<string>, m: nat, a: Row, b: Row)
    requires Witnessing(db) && terms != [] && terms[0].field in names && Seen(terms, a) && Seen(terms, b)
    ensures var desc := terms[0].desc;
            Lists.Sort(Ordering(db, terms), ScannedAll(Table(names, desc, m, a, b))) ==
            ScannedAll(if TermsLe(db, terms, ScannedRow(a), ScannedRow(b)) then Table(names, desc, m, a, b)
                else Table(names, desc, m, b, a))
  {
    var le, desc := Ordering(db, terms), terms[0].desc;
    LeadingSorted(db, terms, names, m);
    LeadingBefore(db, terms, names, m, a);
    LeadingBefore(db, terms, names, m, b);
    ScannedTable(names, desc, m, a, b);
    ScannedTable(names, desc, m, b, a);
    SortLastTwo(le, ScannedAll(Leading(names, desc, m)), ScannedRow(a), ScannedRow(b),
        ScannedAll(Table(names, desc, m, a, b)));
  }

  lemma TableApart(items: seq<ProjectItem>, names: set<string>, desc: bool, m: nat, a: Row, b: Row)
    requires Shown(items) <= names && (exists o :: o in Shown(items) && Get(a, o) != Get(b, o))
    requires forall n :: Small(Get(a, n)) && Small(Get(b, n))
    ensures NoTwo(Map(Showing(items), ScannedAll(Table(names, desc, m, a, b))))
  {
    var rows := Table(names, desc, m, a, b);
    var o :| o in Shown(items) && Get(a, o) != Get(b, o);
    forall i, j | 0 <= i < j < m + 2 ensures ShownOutput(items, rows[i]) != ShownOutput(items, rows[j]) {
      assert Get(rows[i], o) != Get(rows[j], o) by {
        if i < m {
          assert rows[i] == Const(names, Ahead(desc, m, i));
          if j < m {
            assert rows[j] == Const(names, Ahead(desc, m, j));
          }
        }
      }
      ShowsApart(items, rows[i], rows[j], o);
    }
  }

  // --- exactly when the two agree ---

  /** The other order is the one the statement sorts by. */
  predicate Retermed(terms: seq<OrderTerm>, others: seq<OrderTerm>) {
    |others| == |terms| && forall i :: 0 <= i < |terms| ==> others[i] == terms[i].(field := others[i].field)
  }

  /** The first terms see 0 or 1 in the two rows. */
  lemma FirstSeen(terms: seq<OrderTerm>, others: seq<OrderTerm>, shown: set<string>)
    requires terms != [] && shown != {} && Retermed(terms, others) &&
             Deciding(terms, shown, {}) != Deciding(others, shown, {})
    ensures var (a, b) := RowsFor(terms, others, shown);
            Seen(terms, a) && Seen(terms, b) && Seen(others, a) && Seen(others, b)
  {
    var ks, ls, k := Deciding(terms, shown, {}), Deciding(others, shown, {}), PartingAt(terms, others, shown);
    assert ks[0] == terms[0] && ls[0] == others[0];
    KeyAtNew(terms, others, shown);
    if k > 0 {
      assert ks[..k][0] == ks[0] && ls[..k][0] == ls[0];
      assert terms[0].field in TiedBefore(terms, others, shown);
      RowsDiffer(AllTables([], Null), terms, others, shown) by {
        AllTablesWitnesses([], Null);
      }
    }
  }

  /** What is kept first of the table in the order of the terms. */
  lemma FirstKept(
    db: Db, terms: seq<OrderTerm>, items: seq<ProjectItem>, names: set<string>, a: Row, b: Row, distinct: bool,
    bound: Bound)
    requires Witnessing(db) && terms != [] && terms[0].field in names && Bounded(bound) && Seen(terms, a) &&
             Seen(terms, b)
    requires Shown(items) <= names && (exists o :: o in Shown(items) && Get(a, o) != Get(b, o))
    requires forall n :: Small(Get(a, n)) && Small(Get(b, n))
    ensures var rs := ScannedAll(Table(names, terms[0].desc, Offset(bound), a, b));
            var kept := Kept(Map(Showing(items), Lists.Sort(Ordering(db, terms), rs)), distinct, bound);
            kept != [] && kept[0] == ShownOutput(items, if TermsLe(db, terms, ScannedRow(a), ScannedRow(b)) then a
                else b)
  {
    TableSorted(db, terms, names, Offset(bound), a, b);
    if TermsLe(db, terms, ScannedRow(a), ScannedRow(b)) {
      TableKept(items, names, terms[0].desc, a, b, distinct, bound);
    } else {
      TableKept(items, names, terms[0].desc, b, a, distinct, bound);
    }
  }

  lemma TableKept(items: seq<ProjectItem>, names: set<string>, desc: bool, a: Row, b: Row, distinct: bool, bound: Bound)
    requires Bounded(bound) && Shown(items) <= names && (exists o :: o in Shown(items) && Get(a, o) != Get(b, o))
    requires forall n :: Small(Get(a, n)) && Small(Get(b, n))
    ensures var kept := Kept(Map(Showing(items), ScannedAll(Table(names, desc, Offset(bound), a, b))), distinct, bound);
            kept != [] && kept[0] == ShownOutput(items, a)
  {
    var rows := Table(names, desc, Offset(bound), a, b);
    TableApart(items, names, desc, Offset(bound), a, b);
    KeptFrom(Map(Showing(items), ScannedAll(rows)), distinct, bound);
    assert rows[Offset(bound)] == a;
  }

  /** The table on which the read and its statement part. */
  function ApartDb(terms: seq<OrderTerm>, others: seq<OrderTerm>, items: seq<ProjectItem>, bound: Bound): Db
    requires terms != [] && Bounded(bound)
  {
    var (a, b) := RowsFor(terms, others, Shown(items));
    AllTables(Table(FieldNames(terms, others, Shown(items)), terms[0].desc, Offset(bound), a, b), Null)
  }

  lemma OrdersDiffer(
    db: Db, r: RelationRef, terms: seq<OrderTerm>, others: seq<OrderTerm>, items: seq<ProjectItem>, distinct: bool,
    bound: Bound)
    requires terms != [] && items != [] && Retermed(terms, others) && Bounded(bound)
    requires Deciding(terms, Shown(items), {}) != Deciding(others, Shown(items), {})
    requires db == ApartDb(terms, others, items, bound)
    ensures Kept(Map(Showing(items), Lists.Sort(Ordering(db, terms), ScannedAll(db.table(r)))), distinct, bound) !=
            Kept(Map(Showing(items), Lists.Sort(Ordering(db, others), ScannedAll(db.table(r)))), distinct, bound)
  {
    var names := FieldNames(terms, others, Shown(items));
    var (a, b) := RowsFor(terms, others, Shown(items));
    AllTablesWitnesses(Table(names, terms[0].desc, Offset(bound), a, b), Null);
    assert items[0].field in Shown(items);
    RowsDiffer(db, terms, others, Shown(items));
    FirstSeen(terms, others, Shown(items));
    FirstKept(db, terms, items, names, a, b, distinct, bound);
    FirstKept(db, others, items, names, a, b, distinct, bound);
    var o :| o in Shown(items) && Get(a, o) != Get(b, o);
    ShowsApart(items, a, b, o);
  }

  /** What a read and its statement return, by what each sorts by. */
  lemma BothOutputs(
    db: Db, r: RelationRef, alias: string, terms: seq<OrderTerm>, others: seq<OrderTerm>, items: seq<ProjectItem>,
    distinct: bool, bound: Bound, nullsLast: bool)
    requires items != [] && terms != [] && Bounded(bound) && Ordered(db)
    requires var c := ReadClauses(r, alias, terms, items, distinct, bound);
             TermsSelected(c) && others == SortTerms(c, terms)
    ensures var e, c := ReadOf(r, alias, terms, items, distinct, bound),
                ReadClauses(r, alias, terms, items, distinct, bound);
            && Renderable(c)
            && Outputs(Eval(db, e)) ==
               Kept(Map(Showing(items), Lists.Sort(Ordering(db, terms), ScannedAll(db.table(r)))), distinct, bound)
            && Result(db, QueryOf(c, nullsLast), LimitOf(c), OffsetOf(c)) ==
               Some(Kept(Map(Showing(items), Lists.Sort(Ordering(db, others), ScannedAll(db.table(r)))), distinct,
                   bound))
  {
    var e, c := ReadOf(r, alias, terms, items, distinct, bound), ReadClauses(r, alias, terms, items, distinct, bound);
    FlattenedRead(r, alias, terms, items, distinct, bound);
    SelectMeans(db, e, nullsLast);
    FlattenKeepsMeaning(db, e);
    assert c.(order := others) == ReadClauses(r, alias, others, items, distinct, bound);
    ReadOutputs(db, r, alias, terms, items, distinct, bound);
    ReadOutputs(db, r, alias, others, items, distinct, bound);
  }

  /** Where the terms that decide are not the same, a database tells the read
      from its statement, whatever is skipped and kept. */
  lemma TakenDiffers(
    r: RelationRef, alias: string, terms: seq<OrderTerm>, items: seq<ProjectItem>, distinct: bool, bound: Bound,
    nullsLast: bool)
    returns (db: Db)
    requires items != [] && Bounded(bound)
    requires var c := ReadClauses(r, alias, terms, items, distinct, bound); TermsSelected(c) && !OrderKept(c)
    ensures var e, c := ReadOf(r, alias, terms, items, distinct, bound),
                ReadClauses(r, alias, terms, items, distinct, bound);
            Ordered(db) && Renderable(c) &&
                Result(db, QueryOf(c, nullsLast), LimitOf(c), OffsetOf(c)) != Some(Outputs(Eval(db, e)))
  {
    var others := SortTerms(ReadClauses(r, alias, terms, items, distinct, bound), terms);
    db := ApartDb(terms, others, items, bound);
    AllTablesOrdered(db.table(r), Null);
    BothOutputs(db, r, alias, terms, others, items, distinct, bound, nullsLast);
    OrdersDiffer(db, r, terms, others, items, distinct, bound);
  }

  lemma {:induction false} TermSorted(
    ns: Names, calls: seq<AggCall>, nullsLast: bool, terms: seq<OrderTerm>, i: nat) returns (k: nat)
    requires i < |terms|
    ensures var items := SortItems(ns, calls, nullsLast, terms);
                k < |items| && items[k].column == OutputColumn(ns, calls, terms[i].field)
  {
    var c, rest := OutputColumn(ns, calls, terms[0].field), SortItems(ns, calls, nullsLast, terms[1..]);
    var first := (if terms[0].nullable && !nullsLast then [NullCase(c)] else []) +
        [SortBy(c, terms[0].desc, terms[0].nullable && nullsLast)];
    assert SortItems(ns, calls, nullsLast, terms) == first + rest;
    if i == 0 {
      k := 0;
    } else {
      k := TermSorted(ns, calls, nullsLast, terms[1..], i - 1);
      k := k + |first|;
    }
  }

  /** A read of one row selects it. */
  lemma SelectsOne(db: Db, q: Query, row: Row)
    requires db.table(q.relation) == [row] && q.joins == [] && q.where == [] && q.having.SqlNil? && !Grouped(q)
    ensures SelectedRows(db, q) != []
  {
    FilterAll(TrueOn(db, q.alias, SqlAnd(q.where)), FromRows(db, q, 0));
    FilterAll(Keeps(db, q.alias, q.having), Contexts(db, q));
    var rows := Map(Selecting(db, q), HavingRows(db, q));
    assert |rows| == 1;
    DedupNone(SelectedOut(), rows);
  }

  lemma NotSelected(db: Db, c: Clauses, q: Query, s: Selected, f: string)
    requires c.distinct && c.cols != [] && !Aggregates(c) && !Nested(c) && c.joins == [] && q.distinct
    requires q.list == Items(ProjectColumns(NamesOf(c), c.cols)) && RenamedTo(c, f) == |c.cols| &&
             f !in ItemFields(c.cols)
    ensures OrderValue(db, q, s, Col(NamesOf(c), f)).None?
  {
    var items, col := q.list.items, Col(NamesOf(c), f);
    assert NamesOf(c).joins == {};
    forall k | 0 <= k < |items| ensures items[k].column != col {
      assert ItemFields(c.cols)[k] == c.cols[k].field;
    }
  }

  lemma Unsortable(db: Db, c: Clauses, q: Query, nullsLast: bool, row: Row)
    requires c.distinct && c.cols != [] && !Aggregates(c) && !Nested(c) && c.joins == [] && !TermsSelected(c)
    requires q.distinct && q.list == Items(ProjectColumns(NamesOf(c), c.cols)) && q.joins == [] && q.where == [] &&
             q.having.SqlNil?
    requires q.groupBy == [] && q.orderBy == SortItems(NamesOf(c), c.aggregates, nullsLast, c.order) &&
             db.table(q.relation) == [row]
    ensures !Sortable(db, q)
  {
    var i :| 0 <= i < |c.order| && !TermSelected(c, c.order[i]);
    var k := TermSorted(NamesOf(c), c.aggregates, nullsLast, c.order, i);
    SelectsOne(db, q, row);
    var s := SelectedRows(db, q)[0];
    NotSelected(db, c, q, s, c.order[i].field);
    assert !Orderable(db, q, s);
  }

  /** Distinct rows ordered by what they do not select are refused. */
  lemma UnselectedRefused(
    r: RelationRef, alias: string, terms: seq<OrderTerm>, items: seq<ProjectItem>, bound: Bound, nullsLast: bool)
        returns (db: Db)
    requires items != [] && Bounded(bound) && !TermsSelected(ReadClauses(r, alias, terms, items, true, bound))
    ensures var c := ReadClauses(r, alias, terms, items, true, bound);
            Ordered(db) && Renderable(c) && Result(db, QueryOf(c, nullsLast), LimitOf(c), OffsetOf(c)).None?
  {
    var c := ReadClauses(r, alias, terms, items, true, bound);
    db := AllTables([map[]], Null);
    AllTablesOrdered([map[]], Null);
    FlattenedRead(r, alias, terms, items, true, bound);
    Unsortable(db, c, QueryOf(c, nullsLast), nullsLast, map[]);
  }

  /** An ordered read of whatever rows and columns, distinct or not, bounded or
      not, means in SQL what it means as a chain exactly when the terms that
      decide its order are those the statement sorts by, and distinct rows are
      ordered by what they select. */
  lemma OrderExact(
    r: RelationRef, alias: string, terms: seq<OrderTerm>, items: seq<ProjectItem>, distinct: bool, bound: Bound,
    nullsLast: bool)
    requires items != [] && Bounded(bound)
    ensures var e, c := ReadOf(r, alias, terms, items, distinct, bound),
                ReadClauses(r, alias, terms, items, distinct, bound);
            FlattenInput(e) == Ok(c) && Renderable(c) && (Agrees(e, nullsLast) <==> TermsSelected(c) && OrderKept(c))
  {
    var e, c := ReadOf(r, alias, terms, items, distinct, bound), ReadClauses(r, alias, terms, items, distinct, bound);
    FlattenedRead(r, alias, terms, items, distinct, bound);
    if !TermsSelected(c) {
      var db := UnselectedRefused(r, alias, terms, items, bound, nullsLast);
    } else if !OrderKept(c) {
      var db := TakenDiffers(r, alias, terms, items, distinct, bound, nullsLast);
    } else {
      forall db | Ordered(db)
        ensures Result(db, QueryOf(c, nullsLast), LimitOf(c), OffsetOf(c)) == Some(Outputs(Eval(db, e)))
      {
        SelectKeepsMeaning(db, e, nullsLast);
      }
    }
  }

  /** Of one term: when no output takes its name for another field. */
  lemma OneTermKept(r: RelationRef, alias: string, t: OrderTerm, items: seq<ProjectItem>, bound: Bound)
    requires items != []
    ensures var c := ReadClauses(r, alias, [t], items, false, bound);
            TermsSelected(c) && (OrderKept(c) <==> SortField(c, t.field) == t.field)
  {
    var c := ReadClauses(r, alias, [t], items, false, bound);
    assert SortTerms(c, c.order) == [SortTerm(c, t)];
    assert items[0].field in Shown(items);
    DecidingOne(t, Shown(items));
    DecidingOne(SortTerm(c, t), Shown(items));
  }

  lemma DecidingOne(t: OrderTerm, shown: set<string>)
    requires shown != {}
    ensures Deciding([t], shown, {}) == [t]
  {
    assert Deciding([t][1..], shown, {t.field}) == [];
  }
}
