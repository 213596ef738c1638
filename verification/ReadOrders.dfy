/** An ordered read: which terms it orders by, how a cursor resumes it, and
    where the next page starts. */
module ReadOrders {
  import opened Lists
  import opened Relalg
  import opened Paging
  import Compile

  const MAX_ORDER_TERMS := 8

  datatype Failure = InvalidInput

  datatype Outcome<T> = Ok(value: T) | Err(error: Failure)

  /** terms end in the key's columns; keyFields are those added for it. */
  datatype ReadOrder = ReadOrder(terms: seq<OrderTerm>, pageable: bool, keyFields: seq<string>)

  predicate Names(terms: seq<OrderTerm>, field: string) {
    exists i :: 0 <= i < |terms| && terms[i].field == field
  }

  predicate DistinctFields(terms: seq<OrderTerm>) {
    forall i, j :: 0 <= i < j < |terms| ==> terms[i].field != terms[j].field
  }

  /** A requested term, resolved; related is whether it is of another entity. */
  datatype Asked = Asked(term: OrderTerm, related: bool)

  /** An earlier term asked for has this one's field. */
  predicate NamedBefore(asked: seq<Asked>, i: nat)
    requires i < |asked|
  {
    exists j :: 0 <= j < i && asked[j].term.field == asked[i].term.field
  }

  /** The terms asked for, as asked and in the order asked, the first of each
      field. */
  function Firsts(asked: seq<Asked>): seq<OrderTerm> {
    if asked == [] then []
    else
      var n := |asked| - 1;
      Firsts(asked[..n]) + (if NamedBefore(asked, n) then [] else [asked[n].term])
  }

  /** The key's columns that terms do not name, each once, in the key's order. */
  function Missing(terms: seq<OrderTerm>, key: seq<string>): seq<string> {
    if key == [] then []
    else
      var n := |key| - 1;
      Missing(terms, key[..n]) + (if Names(terms, key[n]) || key[n] in key[..n] then [] else [key[n]])
  }

  function Ascending(columns: seq<string>): (terms: seq<OrderTerm>)
    ensures |terms| == |columns| && forall i :: 0 <= i < |columns| ==> terms[i] == OrderTerm(columns[i], false, false)
  {
    seq(|columns|, i requires 0 <= i < |columns| => OrderTerm(columns[i], false, false))
  }

  /** Too many terms, or a field of the entity's own asked for again. */
  predicate Refuses(asked: seq<Asked>) {
    |asked| > MAX_ORDER_TERMS || exists i :: 0 <= i < |asked| && NamedBefore(asked, i) && !asked[i].related
  }

  /** A term of another entity is ordered by. */
  predicate Across(asked: seq<Asked>) {
    exists i :: 0 <= i < |asked| && asked[i].related && !NamedBefore(asked, i)
  }

  /** o orders by the terms asked for and then, unless distinct, by the rest of
      the key, ascending; it pages when it has a key and only own fields. */
  predicate Plans(asked: seq<Asked>, distinct: bool, key: Option<seq<string>>, o: ReadOrder) {
    if asked == [] || distinct || key.None? then o == ReadOrder(Firsts(asked), false, [])
    else
      && o.keyFields == Missing(Firsts(asked), key.value)
      && o.terms == Firsts(asked) + Ascending(o.keyFields)
      && o.pageable == !Across(asked)
  }

  method PlanReadOrder(asked: seq<Asked>, distinct: bool, key: Option<seq<string>>) returns (r: Outcome<ReadOrder>)
    ensures r.Err? <==> Refuses(asked)
    ensures r.Ok? ==> Plans(asked, distinct, key, r.value)
  {
    if asked == [] {
      return Ok(ReadOrder([], false, []));
    }
    if |asked| > MAX_ORDER_TERMS {
      return Err(InvalidInput);
    }
    var terms: seq<OrderTerm>, across := [], false;
    for i := 0 to |asked|
      invariant terms == Firsts(asked[..i])
      invariant forall j :: 0 <= j < i && NamedBefore(asked, j) ==> asked[j].related
      invariant across <==> exists j :: 0 <= j < i && asked[j].related && !NamedBefore(asked, j)
    {
      FirstsStep(asked, i);
      if Names(terms, asked[i].term.field) {
        if !asked[i].related {
          return Err(InvalidInput);
        }
      } else {
        terms := terms + [asked[i].term];
        across := across || asked[i].related;
      }
    }
    assert asked[..|asked|] == asked;
    if !distinct && key.Some? {
      var all, added := AddKey(terms, key.value);
      return Ok(ReadOrder(all, !across, added));
    }
    return Ok(ReadOrder(terms, false, []));
  }

  lemma {:induction false} FirstsName(asked: seq<Asked>, f: string)
    ensures Names(Firsts(asked), f) <==> exists j :: 0 <= j < |asked| && asked[j].term.field == f
  {
    if asked != [] {
      var n := |asked| - 1;
      FirstsName(asked[..n], f);
      var front, all := Firsts(asked[..n]), Firsts(asked);
      assert forall j :: 0 <= j < n ==> asked[..n][j] == asked[j];
      assert Names(front, f) ==> Names(all, f) by {
        assert forall j :: 0 <= j < |front| ==> all[j] == front[j];
      }
      if !NamedBefore(asked, n) {
        assert all[|front|] == asked[n].term;
      }
    }
  }

  lemma FirstsStep(asked: seq<Asked>, i: nat)
    requires i < |asked|
    ensures Names(Firsts(asked[..i]), asked[i].term.field) <==> NamedBefore(asked, i)
    ensures Firsts(asked[..i + 1]) ==
            Firsts(asked[..i]) + (if NamedBefore(asked, i) then [] else [asked[i].term])
  {
    FirstsName(asked[..i], asked[i].term.field);
    assert forall j :: 0 <= j < i ==> asked[..i][j] == asked[j];
    assert asked[..i + 1][..i] == asked[..i];
    assert NamedBefore(asked[..i + 1], i) <==> NamedBefore(asked, i);
  }

  method AddKey(terms: seq<OrderTerm>, key: seq<string>) returns (all: seq<OrderTerm>, added: seq<string>)
    ensures added == Missing(terms, key) && all == terms + Ascending(added)
  {
    all, added := terms, [];
    for i := 0 to |key|
      invariant added == Missing(terms, key[..i]) && all == terms + Ascending(added)
    {
      MissingStep(terms, key, i);
      if !Names(all, key[i]) {
        all := all + [OrderTerm(key[i], false, false)];
        added := added + [key[i]];
      }
    }
    assert key[..|key|] == key;
  }

  lemma {:induction false} MissingHas(terms: seq<OrderTerm>, key: seq<string>, f: string)
    ensures f in Missing(terms, key) <==> f in key && !Names(terms, f)
  {
    if key != [] {
      MissingHas(terms, key[..|key| - 1], f);
    }
  }

  lemma MissingStep(terms: seq<OrderTerm>, key: seq<string>, i: nat)
    requires i < |key|
    ensures Names(terms + Ascending(Missing(terms, key[..i])), key[i]) <==> Names(terms, key[i]) || key[i] in key[..i]
    ensures Missing(terms, key[..i + 1]) ==
            Missing(terms, key[..i]) + (if Names(terms, key[i]) || key[i] in key[..i] then [] else [key[i]])
  {
    MissingHas(terms, key[..i], key[i]);
    NamesBoth(terms, Missing(terms, key[..i]), key[i]);
    assert key[..i + 1][..i] == key[..i];
  }

  lemma NamesBoth(terms: seq<OrderTerm>, columns: seq<string>, f: string)
    ensures Names(terms + Ascending(columns), f) <==> Names(terms, f) || f in columns
  {
    var all := terms + Ascending(columns);
    assert forall j :: 0 <= j < |terms| ==> all[j] == terms[j];
    assert forall j :: 0 <= j < |columns| ==> all[|terms| + j].field == columns[j];
  }

  // --- the order asked for ---

  lemma {:induction false} FirstsDistinct(asked: seq<Asked>)
    ensures DistinctFields(Firsts(asked))
  {
    if asked != [] {
      var n := |asked| - 1;
      FirstsDistinct(asked[..n]);
      FirstsName(asked[..n], asked[n].term.field);
      assert forall j :: 0 <= j < n ==> asked[..n][j] == asked[j];
    }
  }

  lemma {:induction false} MissingDistinct(terms: seq<OrderTerm>, key: seq<string>)
    ensures forall i, j :: 0 <= i < j < |Missing(terms, key)| ==> Missing(terms, key)[i] != Missing(terms, key)[j]
  {
    if key != [] {
      MissingDistinct(terms, key[..|key| - 1]);
      MissingHas(terms, key[..|key| - 1], key[|key| - 1]);
    }
  }

  lemma DistinctBoth(terms: seq<OrderTerm>, columns: seq<string>)
    requires DistinctFields(terms) && forall i, j :: 0 <= i < j < |columns| ==> columns[i] != columns[j]
    requires forall f :: f in columns ==> !Names(terms, f)
    ensures DistinctFields(terms + Ascending(columns))
  {
    assert forall i :: 0 <= i < |columns| ==> columns[i] in columns;
  }

  lemma KeyNamed(terms: seq<OrderTerm>, key: seq<string>)
    requires DistinctFields(terms)
    ensures DistinctFields(terms + Ascending(Missing(terms, key)))
    ensures forall i :: 0 <= i < |key| ==> Names(terms + Ascending(Missing(terms, key)), key[i])
  {
    hide Names, DistinctFields;
    var added := Missing(terms, key);
    forall f ensures f in added <==> f in key && !Names(terms, f) {
      MissingHas(terms, key, f);
    }
    MissingDistinct(terms, key);
    DistinctBoth(terms, added);
    forall i | 0 <= i < |key| ensures Names(terms + Ascending(added), key[i]) {
      NamesBoth(terms, added, key[i]);
    }
  }

  /** A planned order names no field twice, every field asked for and, when it
      pages, the whole key. */
  lemma PlansNames(asked: seq<Asked>, distinct: bool, key: Option<seq<string>>, o: ReadOrder)
    requires Plans(asked, distinct, key, o)
    ensures DistinctFields(o.terms)
    ensures forall i :: 0 <= i < |asked| ==> Names(o.terms, asked[i].term.field)
    ensures o.pageable ==> key.Some? && forall i :: 0 <= i < |key.value| ==> Names(o.terms, key.value[i])
  {
    hide Names, DistinctFields, Firsts, Missing;
    var first := Firsts(asked);
    FirstsDistinct(asked);
    if key.Some? {
      KeyNamed(first, key.value);
    }
    forall i | 0 <= i < |asked| ensures Names(o.terms, asked[i].term.field) {
      FirstsName(asked, asked[i].term.field);
      NamesBoth(first, o.keyFields, asked[i].term.field);
      assert o.keyFields == [] ==> first + Ascending(o.keyFields) == first;
    }
  }

  lemma {:induction false} FirstsFrom(asked: seq<Asked>, q: nat)
    requires q < |Firsts(asked)|
    ensures exists m :: 0 <= m < |asked| && asked[m].term == Firsts(asked)[q]
  {
    var n := |asked| - 1;
    if q < |Firsts(asked[..n])| {
      FirstsFrom(asked[..n], q);
      var m :| 0 <= m < n && asked[..n][m].term == Firsts(asked)[q];
      assert asked[m].term == Firsts(asked)[q];
    } else {
      assert asked[n].term == Firsts(asked)[q];
    }
  }

  lemma {:induction false} FirstsPrefix(asked: seq<Asked>, k: nat)
    requires k <= |asked|
    ensures Firsts(asked[..k]) <= Firsts(asked)
    decreases |asked| - k
  {
    if k < |asked| {
      FirstsStep(asked, k);
      FirstsPrefix(asked, k + 1);
    } else {
      assert asked[..k] == asked;
    }
  }

  /** x comes before y, as t asks: NULL last, and in its direction. */
  predicate ComesFirst(db: Db, t: OrderTerm, x: Value, y: Value) {
    if x.Null? || y.Null? then y.Null? else if t.desc then db.le(y, x) else db.le(x, y)
  }

  /** The k-th field asked for is the first the rows differ in. */
  predicate FirstDiffer(asked: seq<Asked>, a: Row, b: Row, k: nat)
    requires k < |asked|
  {
    && Get(a, asked[k].term.field) != Get(b, asked[k].term.field)
    && forall m :: 0 <= m < k ==> Get(a, asked[m].term.field) == Get(b, asked[m].term.field)
  }

  /** a comes no later than b, as asked: it comes first in the first field asked
      for that they differ in. */
  predicate NoLater(db: Db, asked: seq<Asked>, a: Row, b: Row) {
    forall k :: 0 <= k < |asked| && FirstDiffer(asked, a, b, k) ==>
                  ComesFirst(db, asked[k].term, Get(a, asked[k].term.field), Get(b, asked[k].term.field))
  }

  /** Where keys in order first differ, the first comes first. */
  lemma FirstDifference(db: Db, terms: seq<OrderTerm>, ks: seq<Value>, ls: seq<Value>, q: nat)
    requires TotalOrder(db.le) && Fits(terms, ks) && Fits(terms, ls) && KeysLe(db, terms, ks, ls)
    requires q < |terms| && ks[q] != ls[q] && ks[..q] == ls[..q]
    ensures ComesFirst(db, terms[q], ks[q], ls[q])
  {
    hide KeysLe, StrictlyAfter;
    if KeysLe(db, terms, ls, ks) {
      KeysLeAntisymmetric(db, terms, ks, ls);
    }
    AfterIsNotBefore(db, terms, ks, ls);
    AfterSomewhere(db, terms, ks, ls);
    var i :| 0 <= i < |terms| && AfterAt(db, terms, ks, ls, i);
  }

  lemma FirstAsked(asked: seq<Asked>, terms: seq<OrderTerm>, a: Row, b: Row, k: nat) returns (q: nat)
    requires Firsts(asked) <= terms && k < |asked| && FirstDiffer(asked, a, b, k)
    ensures q < |terms| && terms[q] == asked[k].term && KeysOf(terms, a)[..q] == KeysOf(terms, b)[..q]
  {
    q := |Firsts(asked[..k])|;
    FirstsStep(asked, k);
    FirstsPrefix(asked, k);
    FirstsPrefix(asked, k + 1);
    assert !NamedBefore(asked, k);
    assert Firsts(asked[..k + 1])[q] == asked[k].term;
    forall i | 0 <= i < q ensures KeysOf(terms, a)[i] == KeysOf(terms, b)[i] {
      FirstsFrom(asked[..k], i);
      assert terms[i] == Firsts(asked[..k])[i];
    }
  }

  /** Rows in a planned order are in the order asked for. */
  lemma AskedOrder(db: Db, asked: seq<Asked>, terms: seq<OrderTerm>, a: Row, b: Row)
    requires TotalOrder(db.le) && Firsts(asked) <= terms
    requires Fits(terms, KeysOf(terms, a)) && Fits(terms, KeysOf(terms, b))
    requires KeysLe(db, terms, KeysOf(terms, a), KeysOf(terms, b))
    ensures NoLater(db, asked, a, b)
  {
    hide ComesFirst, KeysLe, Firsts, FirstDiffer;
    forall k | 0 <= k < |asked| && FirstDiffer(asked, a, b, k)
      ensures ComesFirst(db, asked[k].term, Get(a, asked[k].term.field), Get(b, asked[k].term.field))
    {
      var q := FirstAsked(asked, terms, a, b, k);
      DifferAt(asked, a, b, k);
      FirstDifference(db, terms, KeysOf(terms, a), KeysOf(terms, b), q);
    }
  }

  lemma DifferAt(asked: seq<Asked>, a: Row, b: Row, k: nat)
    requires k < |asked| && FirstDiffer(asked, a, b, k)
    ensures Get(a, asked[k].term.field) != Get(b, asked[k].term.field)
  {
  }

  function CursorValues(terms: seq<OrderTerm>, cursor: map<string, Value>): seq<Value>
    requires forall i :: 0 <= i < |terms| ==> terms[i].field in cursor
  {
    seq(|terms|, i requires 0 <= i < |terms| => cursor[terms[i].field])
  }

  /** What a cursor of o must be: a value of each of its fields, NULL only of
      nullable ones, and one at least that is none. */
  predicate IsCursor(o: ReadOrder, cursor: map<string, Value>) {
    && o.pageable && |cursor| == |o.terms|
    && (forall i :: 0 <= i < |o.terms| ==> o.terms[i].field in cursor)
    && Fits(o.terms, CursorValues(o.terms, cursor))
    && exists i :: 0 <= i < |o.terms| && !cursor[o.terms[i].field].Null?
  }

  lemma {:induction false} SomeAlternative(terms: seq<OrderTerm>, cs: seq<Value>, n: nat)
    requires |cs| == |terms| && n <= |terms|
    ensures Alternatives(terms, cs, n) != [] <==> exists i :: 0 <= i < n && !cs[i].Null?
  {
    if n > 0 {
      SomeAlternative(terms, cs, n - 1);
    }
  }

  /** The predicate that resumes a read ordered by o after cursor. */
  function After(o: ReadOrder, cursor: map<string, Value>): Predicate
    requires IsCursor(o, cursor)
  {
    var cs := CursorValues(o.terms, cursor);
    SomeAlternative(o.terms, cs, |o.terms|);
    Disjunction(Alternatives(o.terms, cs, |o.terms|))
  }

  /** It holds exactly for the rows strictly after the cursor. */
  lemma AfterMeansAfter(db: Db, o: ReadOrder, cursor: map<string, Value>, row: Row)
    requires TotalOrder(db.le) && IsCursor(o, cursor) && Fits(o.terms, KeysOf(o.terms, row))
    ensures Meaning(db, Env(row, map[]), After(o, cursor)) == True <==>
            StrictlyAfter(db, o.terms, CursorValues(o.terms, cursor), KeysOf(o.terms, row))
  {
    var cs := CursorValues(o.terms, cursor);
    var i :| 0 <= i < |o.terms| && !cursor[o.terms[i].field].Null?;
    assert !cs[i].Null?;
    SomeAlternative(o.terms, cs, |o.terms|);
    CursorMeans(db, o.terms, cs, row);
  }

  /** Resumes a read ordered by o after cursor. */
  method OrderCursor(o: ReadOrder, cursor: map<string, Value>) returns (r: Outcome<Predicate>)
    ensures r.Ok? <==> IsCursor(o, cursor)
    ensures r.Ok? ==> r.value == After(o, cursor)
  {
    if !o.pageable || |cursor| != |o.terms| {
      return Err(InvalidInput);
    }
    var terms := o.terms;
    var cs: seq<Value> := [];
    for i := 0 to |terms|
      invariant |cs| == i && forall j :: 0 <= j < i ==> terms[j].field in cursor && cs[j] == cursor[terms[j].field]
      invariant forall j :: 0 <= j < i ==> (cs[j].Null? ==> terms[j].nullable)
    {
      if terms[i].field !in cursor {
        return Err(InvalidInput);
      }
      var v := cursor[terms[i].field];
      if v.Null? && !terms[i].nullable {
        return Err(InvalidInput);
      }
      cs := cs + [v];
    }
    assert cs == CursorValues(terms, cursor);
    var ors := AlternativesOf(terms, cs);
    SomeAlternative(terms, cs, |terms|);
    if ors == [] {
      return Err(InvalidInput);
    }
    return Ok(if |ors| == 1 then ors[0] else Or(ors));
  }

  method AlternativesOf(terms: seq<OrderTerm>, cs: seq<Value>) returns (ors: seq<Predicate>)
    requires |cs| == |terms|
    ensures ors == Alternatives(terms, cs, |terms|)
  {
    ors := [];
    for i := 0 to |terms|
      invariant ors == Alternatives(terms, cs, i)
    {
      var after := AfterValue(terms[i], cs[i]);
      if after.Nil? {
        continue;
      }
      var ands: seq<Predicate> := [];
      for j := 0 to i
        invariant ands == Equals(terms, cs, j)
      {
        ands := ands + [EqualsValue(terms[j].field, cs[j])];
      }
      ors := ors + [Conjunction(ands + [after])];
    }
  }

  /** The field's value in a row: by its name, or by the alias the entity gives
      it. */
  function ValueIn(aliases: map<string, string>, row: Row, field: string): Option<Value> {
    if field in row then Some(row[field])
    else if field in aliases && aliases[field] != "" && aliases[field] in row then Some(row[aliases[field]])
    else None
  }

  /** The ordered fields of the last row, when the read filled its limit and
      its order pages. */
  function Next(o: ReadOrder, aliases: map<string, string>, limit: int, rows: seq<Row>): Option<map<string, Value>> {
    if !o.pageable || limit <= 0 || |rows| < limit then None
    else if exists i :: 0 <= i < |o.terms| && ValueIn(aliases, rows[|rows|-1], o.terms[i].field).None? then None
    else Some(FieldsOf(o.terms, aliases, rows[|rows|-1]))
  }

  function FieldSet(terms: seq<OrderTerm>): set<string> {
    set i | 0 <= i < |terms| :: terms[i].field
  }

  function FieldsOf(terms: seq<OrderTerm>, aliases: map<string, string>, row: Row): map<string, Value> {
    map f | f in FieldSet(terms) && ValueIn(aliases, row, f).Some? :: ValueIn(aliases, row, f).value
  }

  method NextCursor(o: ReadOrder, aliases: map<string, string>, limit: int, rows: seq<Row>)
    returns (r: Option<map<string, Value>>)
    ensures r == Next(o, aliases, limit, rows)
  {
    if !o.pageable || limit <= 0 || |rows| < limit {
      return None;
    }
    var last := rows[|rows|-1];
    var out: map<string, Value> := map[];
    for i := 0 to |o.terms|
      invariant forall f :: f in out <==> exists j :: 0 <= j < i && o.terms[j].field == f
      invariant forall j :: 0 <= j < i ==> Some(out[o.terms[j].field]) == ValueIn(aliases, last, o.terms[j].field)
    {
      var field := o.terms[i].field;
      var v: Option<Value> := None;
      if field in last {
        v := Some(last[field]);
      } else if field in aliases && aliases[field] != "" && aliases[field] in last {
        v := Some(last[aliases[field]]);
      }
      if v.None? {
        return None;
      }
      out := out[field := v.value];
    }
    assert out == FieldsOf(o.terms, aliases, last);
    return Some(out);
  }

  // --- following nextCursor ---

  /** The rows a read of order o, resumed after cursor, selects. */
  ghost function Selects(db: Db, o: ReadOrder, cursor: Option<map<string, Value>>): Row -> bool {
    (row: Row) => cursor.Some? && IsCursor(o, cursor.value) ==>
        Meaning(db, Env(row, map[]), After(o, cursor.value)) == True
  }

  ghost function ReadPage(
    db: Db, o: ReadOrder, rows: seq<Row>, limit: nat, cursor: Option<map<string, Value>>): seq<Row>
  {
    Take(Lists.Sort(RowLe(db, o.terms), Filter(Selects(db, o, cursor), rows)), limit)
  }

  type PageReader = Option<map<string, Value>> -> seq<Row>

  ghost function PagesOf(db: Db, o: ReadOrder, rows: seq<Row>, limit: nat): PageReader {
    cursor => ReadPage(db, o, rows, limit, cursor)
  }

  /** The pages a caller reads who passes each nextCursor on, at most n. */
  ghost function Walk(
    read: PageReader, o: ReadOrder, aliases: map<string, string>, limit: nat, cursor: Option<map<string, Value>>,
    n: nat)
    : seq<seq<Row>>
    decreases n
  {
    if n == 0 then []
    else
      var page := read(cursor);
      var next := Next(o, aliases, limit, page);
      if next.None? then [page] else [page] + Walk(read, o, aliases, limit, next, n - 1)
  }

  /** A row has every ordered field, NULL only where nullable, and one that is
      not NULL: a key never is. */
  ghost predicate Orderable(o: ReadOrder, row: Row) {
    && (forall i :: 0 <= i < |o.terms| ==> o.terms[i].field in row)
    && Fits(o.terms, KeysOf(o.terms, row))
    && exists i :: 0 <= i < |o.terms| && !row[o.terms[i].field].Null?
  }

  ghost predicate AllOrderable(o: ReadOrder, rows: seq<Row>) {
    forall row :: row in rows ==> Orderable(o, row)
  }

  lemma {:induction false} FieldCount(terms: seq<OrderTerm>)
    requires DistinctFields(terms)
    ensures |FieldSet(terms)| == |terms|
  {
    if terms == [] {
      assert FieldSet(terms) == {};
    } else {
      var n := |terms| - 1;
      FieldCount(terms[..n]);
      assert FieldSet(terms) == FieldSet(terms[..n]) + {terms[n].field} by {
        assert forall i :: 0 <= i < n ==> terms[..n][i] == terms[i];
      }
    }
  }

  lemma CursorOfRow(o: ReadOrder, aliases: map<string, string>, row: Row)
    requires o.pageable && DistinctFields(o.terms) && Orderable(o, row)
    ensures var cursor := FieldsOf(o.terms, aliases, row);
            IsCursor(o, cursor) && CursorValues(o.terms, cursor) == KeysOf(o.terms, row)
  {
    var cursor := FieldsOf(o.terms, aliases, row);
    FieldCount(o.terms);
    assert cursor.Keys == FieldSet(o.terms);
    assert forall i :: 0 <= i < |o.terms| ==> o.terms[i].field in cursor;
    assert CursorValues(o.terms, cursor) == KeysOf(o.terms, row);
  }

  /** The same cursor, by field and by term. */
  ghost predicate Same(o: ReadOrder, cursor: Option<map<string, Value>>, values: Option<seq<Value>>) {
    match cursor
    case None => values.None?
    case Some(c) => IsCursor(o, c) && values == Some(CursorValues(o.terms, c))
  }

  lemma SamePage(
    db: Db, o: ReadOrder, rows: seq<Row>, limit: nat, cursor: Option<map<string, Value>>, values: Option<seq<Value>>)
    requires TotalOrder(db.le) && AllOrderable(o, rows) && Same(o, cursor, values)
    ensures ReadPage(db, o, rows, limit, cursor) == Page(db, o.terms, rows, limit, values)
  {
    var p, q := Selects(db, o, cursor), Resumed(db, o.terms, values);
    forall i | 0 <= i < |rows| ensures p(rows[i]) == q(rows[i]) {
      assert Orderable(o, rows[i]);
      if cursor.Some? {
        AfterMeansAfter(db, o, cursor.value, rows[i]);
      }
    }
    FilterCong(p, q, rows);
  }

  lemma PageOrderable(db: Db, o: ReadOrder, rows: seq<Row>, limit: nat, cursor: Option<map<string, Value>>)
    requires AllOrderable(o, rows)
    ensures AllOrderable(o, ReadPage(db, o, rows, limit, cursor))
  {
    var kept := Filter(Selects(db, o, cursor), rows);
    SortMembers(RowLe(db, o.terms), kept);
  }

  /** From the same cursor both read the same page, of orderable rows. */
  ghost predicate ReadSame(o: ReadOrder, read: PageReader, plain: Reader) {
    forall cursor, values :: Same(o, cursor, values) ==> read(cursor) == plain(values) && AllOrderable(o, read(cursor))
  }

  lemma NextOfFull(o: ReadOrder, aliases: map<string, string>, limit: nat, page: seq<Row>)
    requires o.pageable && DistinctFields(o.terms) && AllOrderable(o, page) && 0 < limit <= |page|
    ensures var next := Next(o, aliases, limit, page);
                next.Some? && Same(o, next, Some(KeysOf(o.terms, page[|page|-1])))
  {
    assert page[|page|-1] in page;
    CursorOfRow(o, aliases, page[|page|-1]);
  }

  lemma NoNextShort(o: ReadOrder, aliases: map<string, string>, limit: nat, page: seq<Row>)
    ensures |page| < limit ==> Next(o, aliases, limit, page).None?
  {
  }

  lemma {:induction false} WalkIsPages(
    read: PageReader, plain: Reader, o: ReadOrder, aliases: map<string, string>, limit: nat,
    cursor: Option<map<string, Value>>, values: Option<seq<Value>>, n: nat)
    requires ReadSame(o, read, plain) && Same(o, cursor, values) && o.pageable && DistinctFields(o.terms) && limit > 0
    ensures Walk(read, o, aliases, limit, cursor, n) == Pages(plain, o.terms, limit, values, n)
    decreases n
  {
    hide Next, Same, DistinctFields, AllOrderable;
    if n > 0 {
      var page := read(cursor);
      assert page == plain(values);
      NoNextShort(o, aliases, limit, page);
      if |page| >= limit {
        NextOfFull(o, aliases, limit, page);
        WalkIsPages(read, plain, o, aliases, limit, Next(o, aliases, limit, page),
            Some(KeysOf(o.terms, page[|page|-1])), n - 1);
      }
    }
  }

  /** An order that names a key that tells the rows apart does. */
  lemma KeyTellsApart(o: ReadOrder, rows: seq<Row>, key: seq<string>)
    requires forall i :: 0 <= i < |key| ==> Names(o.terms, key[i])
    requires Compile.Identifies(key, rows) && KeyPresent(key, rows)
    ensures DistinctKeys(o.terms, rows)
  {
    forall i, j | 0 <= i < j < |rows| ensures KeysOf(o.terms, rows[i]) != KeysOf(o.terms, rows[j]) {
      var k :| k in key && (Get(rows[i], k).Null? || Get(rows[j], k).Null? || Get(rows[i], k) != Get(rows[j], k));
      assert rows[i] in rows && rows[j] in rows;
      var m :| 0 <= m < |o.terms| && o.terms[m].field == k;
      assert KeysOf(o.terms, rows[i])[m] != KeysOf(o.terms, rows[j])[m];
    }
  }

  /** No row has a NULL in its key. */
  predicate KeyPresent(key: seq<string>, rows: seq<Row>) {
    forall row, k :: row in rows && k in key ==> !Get(row, k).Null?
  }

  /** Passing nextCursor on from the first page reads every row once, in order,
      and ends: where the order names a key of the rows, as one that pages does. */
  lemma WalkReadsAll(
    db: Db, o: ReadOrder, aliases: map<string, string>, rows: seq<Row>, key: seq<string>, limit: nat, n: nat)
    requires TotalOrder(db.le) && o.pageable && DistinctFields(o.terms) && AllOrderable(o, rows)
    requires forall i :: 0 <= i < |key| ==> Names(o.terms, key[i])
    requires Compile.Identifies(key, rows) && KeyPresent(key, rows)
    requires limit > 0 && n > |rows|
    ensures var pages := Walk(PagesOf(db, o, rows, limit), o, aliases, limit, None, n);
            Flatten(pages) == Lists.Sort(RowLe(db, o.terms), rows) && Ends(pages, limit)
  {
    var read, plain := PagesOf(db, o, rows, limit), Paged(db, o.terms, rows, limit);
    KeyTellsApart(o, rows, key);
    forall cursor, values | Same(o, cursor, values)
      ensures read(cursor) == plain(values) && AllOrderable(o, read(cursor))
    {
      SamePage(db, o, rows, limit, cursor, values);
      PageOrderable(db, o, rows, limit, cursor);
    }
    WalkIsPages(read, plain, o, aliases, limit, None, None, n);
    PagesAreAll(db, o.terms, rows, limit, n);
  }

  /** Following nextCursor through a planned order that pages returns each row
      once, in the order the caller asked for, and ends. */
  lemma WalkInOrderAsked(
    db: Db, asked: seq<Asked>, distinct: bool, key: seq<string>, o: ReadOrder, aliases: map<string, string>,
    rows: seq<Row>, limit: nat, n: nat)
    requires TotalOrder(db.le) && Plans(asked, distinct, Some(key), o) && o.pageable && AllOrderable(o, rows)
    requires Compile.Identifies(key, rows) && KeyPresent(key, rows)
    requires limit > 0 && n > |rows|
    ensures var pages := Walk(PagesOf(db, o, rows, limit), o, aliases, limit, None, n);
            var read := Flatten(pages);
            && multiset(read) == multiset(rows) && Ends(pages, limit)
            && forall i, j :: 0 <= i < j < |read| ==> NoLater(db, asked, read[i], read[j])
  {
    hide Walk, PagesOf, Lists.Sort, NoLater, Compile.Identifies, Ends, Firsts, Missing, Flatten;
    PlansNames(asked, distinct, Some(key), o);
    WalkReadsAll(db, o, aliases, rows, key, limit, n);
    var le := RowLe(db, o.terms);
    var read := Lists.Sort(le, rows);
    RowLePreorder(db, o.terms);
    SortSorted(le, rows);
    SortMembers(le, rows);
    forall i, j | 0 <= i < j < |read| ensures NoLater(db, asked, read[i], read[j]) {
      assert le(read[i], read[j]);
      assert read[i] in read && read[j] in read;
      AskedOrder(db, asked, o.terms, read[i], read[j]);
    }
  }

  // --- the plan of a page ---

  function AndPreds(a: Predicate, b: Predicate): Predicate {
    if a.Nil? then b else if b.Nil? then a else And([a, b])
  }

  lemma AndPredsMeans(db: Db, env: Env, a: Predicate, b: Predicate)
    ensures Meaning(db, env, AndPreds(a, b)) == True <==> Meaning(db, env, a) == True && Meaning(db, env, b) == True
  {
    AndAllTrue(Meanings(db, env, [a, b]));
    assert Meanings(db, env, [a, b])[0] == Meaning(db, env, a) && Meanings(db, env, [a, b])[1] == Meaning(db, env, b);
  }

  /** A page of the rows where is true of. */
  function PagePlan(
    o: ReadOrder, r: RelationRef, where: Predicate, items: seq<ProjectItem>, limit: nat,
    cursor: Option<map<string, Value>>)
    : Expr
  {
    var full := if cursor.Some? && IsCursor(o, cursor.value) then AndPreds(where, After(o, cursor.value)) else where;
    var rows := if full.Nil? then Scan(r, "") else Select(Scan(r, ""), full);
    Limit(Project(Expr.Sort(rows, o.terms), items), limit, 0)
  }

  ghost function Where(db: Db, p: Predicate): Row -> bool {
    (row: Row) => Meaning(db, Env(row, map[]), p) == True
  }

  lemma SelectedRows(db: Db, r: RelationRef, p: Predicate)
    ensures Eval(db, if p.Nil? then Scan(r, "") else Select(Scan(r, ""), p)) ==
            Map(Scanned(), Filter(Where(db, p), db.table(r)))
  {
    FilterOfMap(Scanned(), Where(db, p), Satisfying(db, p), db.table(r));
    if p.Nil? {
      FilterAll(Where(db, p), db.table(r));
    }
  }

  lemma BothWheres(db: Db, o: ReadOrder, where: Predicate, cursor: Option<map<string, Value>>, rows: seq<Row>)
    ensures var full := if cursor.Some? && IsCursor(o, cursor.value) then AndPreds(where, After(o, cursor.value))
                else where;
            Filter(Where(db, full), rows) == Filter(Selects(db, o, cursor), Filter(Where(db, where), rows))
  {
    hide IsCursor, After, Meaning;
    var full := if cursor.Some? && IsCursor(o, cursor.value) then AndPreds(where, After(o, cursor.value)) else where;
    forall row ensures Where(db, full)(row) == (Where(db, where)(row) && Selects(db, o, cursor)(row)) {
      if cursor.Some? && IsCursor(o, cursor.value) {
        AndPredsMeans(db, Env(row, map[]), where, After(o, cursor.value));
      }
    }
    FilterTwice(Where(db, where), Selects(db, o, cursor), Where(db, full), rows);
  }

  lemma SortedScan(db: Db, terms: seq<OrderTerm>, rows: seq<Row>)
    ensures Lists.Sort(Ordering(db, terms), Map(Scanned(), rows)) == Map(Scanned(), Lists.Sort(RowLe(db, terms), rows))
  {
    forall a, b | a in rows && b in rows
      ensures Ordering(db, terms)(Scanned()(a), Scanned()(b)) == RowLe(db, terms)(a, b)
    {
      ScannedKeys(terms, a);
      ScannedKeys(terms, b);
    }
    SortOfMap(Scanned(), Ordering(db, terms), RowLe(db, terms), rows);
  }

  lemma ScannedKeys(terms: seq<OrderTerm>, row: Row)
    ensures Lookups(Env(row, map[]), TermFields(terms)) == KeysOf(terms, row)
  {
    forall i | 0 <= i < |terms| ensures Lookup(Env(row, map[]), terms[i].field) == Get(row, terms[i].field) {
      LookupOwn(row, terms[i].field);
    }
  }

  /** What a read returns of a row. */
  ghost function Returning(items: seq<ProjectItem>): Row -> Output {
    (row: Row) => Projected(items)(Scanned()(row)).out
  }

  lemma TakenShown(items: seq<ProjectItem>, rows: seq<Row>, limit: nat)
    ensures Outputs(Slice(Map(Projected(items), Map(Scanned(), rows)), 0, limit)) ==
            Map(Returning(items), Take(rows, limit))
  {
  }

  lemma EvalSorted(db: Db, e: Expr, terms: seq<OrderTerm>)
    ensures Eval(db, Expr.Sort(e, terms)) == Lists.Sort(Ordering(db, terms), Eval(db, e))
  {
    hide Lists.Sort, Ordering, Meaning;
  }

  lemma EvalProjected(db: Db, e: Expr, items: seq<ProjectItem>, limit: nat)
    ensures Eval(db, Limit(Project(e, items), limit, 0)) == Slice(Map(Projected(items), Eval(db, e)), 0, limit)
  {
    hide Lists.Sort, Slice, Projected, Ordering, Meaning;
    assert Eval(db, Project(e, items)) == Map(Projected(items), Eval(db, e));
  }

  lemma OrderedRead(db: Db, e: Expr, rows: seq<Row>, terms: seq<OrderTerm>, items: seq<ProjectItem>, limit: nat)
    requires Eval(db, e) == Map(Scanned(), rows)
    ensures Outputs(Eval(db, Limit(Project(Expr.Sort(e, terms), items), limit, 0))) ==
            Map(Returning(items), Take(Lists.Sort(RowLe(db, terms), rows), limit))
  {
    hide Eval, Lists.Sort, Returning, Take, RowLe, Ordering, Slice, Projected, Outputs, Scanned;
    EvalSorted(db, e, terms);
    EvalProjected(db, Expr.Sort(e, terms), items, limit);
    SortedScan(db, terms, rows);
    TakenShown(items, Lists.Sort(RowLe(db, terms), rows), limit);
  }

  /** The plan of a page returns the page: the rows where is true of that come
      after the cursor, in order, up to the limit. */
  lemma PageIsRead(
    db: Db, o: ReadOrder, r: RelationRef, where: Predicate, items: seq<ProjectItem>, limit: nat,
    cursor: Option<map<string, Value>>)
    ensures Outputs(Eval(db, PagePlan(o, r, where, items, limit, cursor))) ==
            Map(Returning(items), ReadPage(db, o, Filter(Where(db, where), db.table(r)), limit, cursor))
  {
    hide IsCursor, After, Meaning, Lists.Sort, Filter, Eval, Outputs, Where, Selects;
    var full := if cursor.Some? && IsCursor(o, cursor.value) then AndPreds(where, After(o, cursor.value)) else where;
    SelectedRows(db, r, full);
    BothWheres(db, o, where, cursor, db.table(r));
    OrderedRead(db, if full.Nil? then Scan(r, "") else Select(Scan(r, ""), full), Filter(Where(db, full), db.table(r)),
                o.terms, items, limit);
  }
}
