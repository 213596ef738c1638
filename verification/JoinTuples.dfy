/** Join keys of tuples: which rows of a parent and of a child join, whatever
    types a driver gave their values. */
module JoinTuples {
  import opened Texts
  import opened JoinKeys

  /** A value as a driver returns it. */
  datatype Value = NullValue | Integer(n: int) | TextOf(text: string)

  /** A value and whether its column is a decimal one. */
  datatype Cell = Cell(v: Value, decimal: bool)

  /** How a character is written between quotes, and the key of a decimal
      column's text that is no plain decimal. */
  datatype Writing = Writing(escape: char -> string, other: string -> string)

  // --- quoted text ---

  /** No escape starts another's, nor with a quote. */
  ghost predicate Escapes(escape: char -> string) {
    forall c, d :: escape(c) != "" && escape(c)[0] != '"' && (escape(c) <= escape(d) ==> c == d)
  }

  function Escaped(escape: char -> string, s: string): string {
    if s == "" then "" else escape(s[0]) + Escaped(escape, s[1..])
  }

  function Quoted(escape: char -> string, s: string): string {
    "\"" + Escaped(escape, s) + "\""
  }

  lemma CutHead(a: string, x: string, b: string, y: string)
    requires a + x == b + y
    ensures a <= b || b <= a
    ensures a == b ==> x == y
  {
    assert (a + x)[..|a|] == a && (b + y)[..|b|] == b;
    assert (a + x)[|a|..] == x && (b + y)[|b|..] == y;
    if |a| <= |b| {
      assert b[..|a|] == (b + y)[..|a|];
    } else {
      assert a[..|b|] == (a + x)[..|b|];
    }
  }

  lemma QuoteEnds(escape: char -> string, s: string, x: string)
    requires Escapes(escape)
    ensures (Escaped(escape, s) + ("\"" + x))[0] == '"' <==> s == ""
  {
  }

  /** Quoted text ends where its quote does, and is that of one text. */
  lemma {:induction false} EscapedApart(escape: char -> string, s: string, x: string, t: string, y: string)
    requires Escapes(escape) && Escaped(escape, s) + ("\"" + x) == Escaped(escape, t) + ("\"" + y)
    ensures s == t && x == y
  {
    QuoteEnds(escape, s, x);
    QuoteEnds(escape, t, y);
    if s == "" && t == "" {
      CutHead("", "\"" + x, "", "\"" + y);
      CutHead("\"", x, "\"", y);
    } else if s != "" && t != "" {
      var s', t' := Escaped(escape, s[1..]) + ("\"" + x), Escaped(escape, t[1..]) + ("\"" + y);
      assert Escaped(escape, s) + ("\"" + x) == escape(s[0]) + s';
      assert Escaped(escape, t) + ("\"" + y) == escape(t[0]) + t';
      CutHead(escape(s[0]), s', escape(t[0]), t');
      EscapedApart(escape, s[1..], x, t[1..], y);
      assert s == [s[0]] + s[1..] && t == [t[0]] + t[1..];
    }
  }

  // --- one value ---

  /** The key of one value that is not NULL. */
  function Part(w: Writing, c: Cell): string
    requires !c.v.NullValue?
  {
    match c.v
    case Integer(n) => IntKey(n)
    case TextOf(s) =>
      if !c.decimal then "s:" + Quoted(w.escape, s)
      else if Plain(s) then PlainKey(s)
      else w.other(s)
  }

  predicate IsNumber(c: Cell) {
    c.v.Integer? || (c.v.TextOf? && c.decimal && Plain(c.v.text))
  }

  predicate IsText(c: Cell) {
    c.v.TextOf? && !c.decimal
  }

  predicate Known(c: Cell) {
    IsNumber(c) || IsText(c)
  }

  function NumberOf(c: Cell): Ratio
    requires IsNumber(c)
  {
    if c.v.Integer? then Ratio(c.v.n, 1) else Number(c.v.text)
  }

  /** The same number, or the same text. */
  predicate SameValue(c: Cell, d: Cell) {
    (IsNumber(c) && IsNumber(d) && SameNumber(NumberOf(c), NumberOf(d))) || (IsText(c) && IsText(d) && c.v == d.v)
  }

  lemma NumberKeyed(w: Writing, c: Cell)
    requires IsNumber(c)
    ensures Keys(Part(w, c), NumberOf(c)) && NumberOf(c).den > 0
  {
    if c.v.Integer? {
      IntKeyed(c.v.n);
    } else {
      PlainKeyed(c.v.text);
    }
  }

  /** A number's key has no comma, and is no text's. */
  lemma NumberPart(w: Writing, c: Cell)
    requires IsNumber(c)
    ensures ',' !in Part(w, c) && Part(w, c) != "" && Part(w, c)[0] == 'n'
  {
    NumberKeyed(w, c);
    KeyCommaFree(Part(w, c), NumberOf(c));
  }

  lemma KeyCommaFree(key: string, number: Ratio)
    requires Keys(key, number)
    ensures ',' !in key && key != "" && key[0] == 'n'
  {
    var num, den :| Lowest(num, den, number) && key == RatString(num, den);
    RatCommaFree(num, den);
  }

  lemma RatCommaFree(num: int, den: nat)
    ensures ',' !in RatString(num, den) && RatString(num, den) != "" && RatString(num, den)[0] == 'n'
  {
    NumeralCommaFree(if num < 0 then -num else num);
    NumeralCommaFree(den);
    CommaFree(FormatInt(num), Over(den));
    CommaFree("n:", FormatInt(num) + Over(den));
    assert RatString(num, den) == "n:" + (FormatInt(num) + Over(den));
  }

  lemma NumeralCommaFree(n: nat)
    ensures ',' !in Itoa(n)
  {
    ItoaRound(n);
  }

  lemma CommaFree(a: string, b: string)
    requires ',' !in a && ',' !in b
    ensures ',' !in a + b
  {
  }

  lemma PartsAgree(w: Writing, c: Cell, d: Cell)
    requires Escapes(w.escape) && Known(c) && Known(d)
    ensures Part(w, c) == Part(w, d) <==> SameValue(c, d)
  {
    if IsNumber(c) && IsNumber(d) {
      NumberKeyed(w, c);
      NumberKeyed(w, d);
      SameKey(Part(w, c), NumberOf(c), Part(w, d), NumberOf(d));
    } else if IsNumber(c) {
      NumberPart(w, c);
    } else if IsNumber(d) {
      NumberPart(w, d);
    } else if Part(w, c) == Part(w, d) {
      assert Part(w, c) + "" == Part(w, c) && Part(w, d) + "" == Part(w, d);
      TextApart(w, c, "", d, "");
    }
  }

  lemma TextApart(w: Writing, c: Cell, x: string, d: Cell, y: string)
    requires Escapes(w.escape) && IsText(c) && IsText(d) && Part(w, c) + x == Part(w, d) + y
    ensures c.v == d.v && x == y
  {
    var s, t := Escaped(w.escape, c.v.text), Escaped(w.escape, d.v.text);
    assert Part(w, c) + x == "s:\"" + (s + ("\"" + x));
    assert Part(w, d) + y == "s:\"" + (t + ("\"" + y));
    CutHead("s:\"", s + ("\"" + x), "s:\"", t + ("\"" + y));
    EscapedApart(w.escape, c.v.text, x, d.v.text, y);
  }

  // --- tuples ---

  predicate Ends(rest: string) {
    rest == "" || rest[0] == ','
  }

  lemma CommaApart(a: string, x: string, b: string, y: string)
    requires ',' !in a && ',' !in b && Ends(x) && Ends(y) && a + x == b + y
    ensures a == b && x == y
  {
    CommaAt(a, x);
    CommaAt(b, y);
    SameParts(a, x, b, y);
  }

  lemma CommaAt(a: string, x: string)
    requires ',' !in a && Ends(x)
    ensures Find(a + x, ',') == |a|
  {
    if x == "" {
      assert a + x == a;
    } else {
      assert (a + x)[..|a|] == a;
      FindUnique(a + x, ',', |a|);
    }
  }

  /** A value's key ends where the value does. */
  lemma PartApart(w: Writing, c: Cell, x: string, d: Cell, y: string)
    requires Escapes(w.escape) && Known(c) && Known(d) && Ends(x) && Ends(y) && Part(w, c) + x == Part(w, d) + y
    ensures Part(w, c) == Part(w, d) && x == y
  {
    if IsNumber(c) {
      NumberPart(w, c);
      assert (Part(w, c) + x)[0] == 'n';
    }
    if IsNumber(d) {
      NumberPart(w, d);
      assert (Part(w, d) + y)[0] == 'n';
    }
    if IsNumber(c) && IsNumber(d) {
      CommaApart(Part(w, c), x, Part(w, d), y);
    } else {
      TextApart(w, c, x, d, y);
    }
  }

  /** The keys of the values, between commas. */
  function TupleKey(w: Writing, cs: seq<Cell>): string
    requires forall i :: 0 <= i < |cs| ==> !cs[i].v.NullValue?
  {
    if cs == [] then "" else Part(w, cs[0]) + RestKey(w, cs[1..])
  }

  function RestKey(w: Writing, cs: seq<Cell>): (key: string)
    requires forall i :: 0 <= i < |cs| ==> !cs[i].v.NullValue?
    ensures Ends(key)
  {
    if cs == [] then "" else "," + (Part(w, cs[0]) + RestKey(w, cs[1..]))
  }

  predicate AllKnown(cs: seq<Cell>) {
    forall i :: 0 <= i < |cs| ==> Known(cs[i])
  }

  predicate SameValues(cs: seq<Cell>, ds: seq<Cell>) {
    |cs| == |ds| && forall i :: 0 <= i < |cs| ==> SameValue(cs[i], ds[i])
  }

  lemma SameCons(cs: seq<Cell>, ds: seq<Cell>)
    requires cs != [] && ds != []
    ensures SameValues(cs, ds) <==> SameValue(cs[0], ds[0]) && SameValues(cs[1..], ds[1..])
  {
    if SameValue(cs[0], ds[0]) && SameValues(cs[1..], ds[1..]) {
      forall i | 0 <= i < |cs| ensures SameValue(cs[i], ds[i]) {
        if i > 0 {
          assert SameValue(cs[1..][i-1], ds[1..][i-1]);
        }
      }
    }
  }

  lemma {:induction false} RestsAgree(w: Writing, cs: seq<Cell>, ds: seq<Cell>)
    requires Escapes(w.escape) && AllKnown(cs) && AllKnown(ds) && |cs| == |ds|
    ensures RestKey(w, cs) == RestKey(w, ds) <==> SameValues(cs, ds)
    decreases cs
  {
    if cs != [] {
      RestsAgree(w, cs[1..], ds[1..]);
      PartsAgree(w, cs[0], ds[0]);
      SameCons(cs, ds);
      if RestKey(w, cs) == RestKey(w, ds) {
        var x, y := RestKey(w, cs[1..]), RestKey(w, ds[1..]);
        CutHead(",", Part(w, cs[0]) + x, ",", Part(w, ds[0]) + y);
        PartApart(w, cs[0], x, ds[0], y);
      }
    }
  }

  /** Tuples of the same columns have the same key exactly when their values are
      the same: numbers as numbers, text as text. */
  lemma TupleKeysAgree(w: Writing, cs: seq<Cell>, ds: seq<Cell>)
    requires Escapes(w.escape) && AllKnown(cs) && AllKnown(ds) && |cs| == |ds|
    ensures TupleKey(w, cs) == TupleKey(w, ds) <==> SameValues(cs, ds)
  {
    if cs != [] {
      RestsAgree(w, cs[1..], ds[1..]);
      PartsAgree(w, cs[0], ds[0]);
      SameCons(cs, ds);
      if TupleKey(w, cs) == TupleKey(w, ds) {
        PartApart(w, cs[0], RestKey(w, cs[1..]), ds[0], RestKey(w, ds[1..]));
      }
    }
  }

  // --- working them out ---

  predicate NoNull(values: seq<Value>) {
    forall i :: 0 <= i < |values| ==> !values[i].NullValue?
  }

  function Cells(values: seq<Value>, decimal: seq<bool>): (cs: seq<Cell>)
    ensures |cs| == |values|
    ensures forall i :: 0 <= i < |values| ==> cs[i] == Cell(values[i], i < |decimal| && decimal[i])
  {
    seq(|values|, i requires 0 <= i < |values| => Cell(values[i], i < |decimal| && decimal[i]))
  }

  function KeyOf(w: Writing, values: seq<Value>, decimal: seq<bool>): Option<string> {
    if NoNull(values) then Some(TupleKey(w, Cells(values, decimal))) else None
  }

  method PartKey(w: Writing, c: Cell) returns (key: string)
    requires !c.v.NullValue?
    ensures key == Part(w, c)
  {
    match c.v
    case Integer(n) => return "n:" + FormatInt(n);
    case TextOf(s) =>
      if !c.decimal {
        return "s:" + Quoted(w.escape, s);
      }
      var number := DecimalKey(s);
      if number.Some? {
        return number.value;
      }
      return w.other(s);
  }

  /** The parts, between commas. */
  function Join(parts: seq<string>): string {
    if parts == [] then "" else parts[0] + JoinRest(parts[1..])
  }

  function JoinRest(parts: seq<string>): string {
    if parts == [] then "" else "," + (parts[0] + JoinRest(parts[1..]))
  }

  /** parts are the keys of the cells. */
  predicate AreParts(w: Writing, cs: seq<Cell>, parts: seq<string>) {
    |parts| == |cs| && forall i :: 0 <= i < |cs| ==> !cs[i].v.NullValue? && parts[i] == Part(w, cs[i])
  }

  lemma {:induction false} JoinRestIs(w: Writing, cs: seq<Cell>, parts: seq<string>)
    requires AreParts(w, cs, parts)
    ensures JoinRest(parts) == RestKey(w, cs)
    decreases cs
  {
    if cs != [] {
      JoinRestIs(w, cs[1..], parts[1..]);
    }
  }

  lemma JoinIs(w: Writing, values: seq<Value>, decimal: seq<bool>, parts: seq<string>)
    requires AreParts(w, Cells(values, decimal), parts)
    ensures KeyOf(w, values, decimal) == Some(Join(parts))
  {
    var cells := Cells(values, decimal);
    assert forall i :: 0 <= i < |values| ==> cells[i].v == values[i];
    if cells != [] {
      JoinRestIs(w, cells[1..], parts[1..]);
    }
  }

  /** The key of a tuple, when none of its values is NULL. */
  method JoinKeyOf(w: Writing, values: seq<Value>, decimal: seq<bool>) returns (key: Option<string>)
    ensures key == KeyOf(w, values, decimal)
  {
    var cells, parts := Cells(values, decimal), [];
    for i := 0 to |values|
      invariant |parts| == i && forall j :: 0 <= j < i ==> !cells[j].v.NullValue? && parts[j] == Part(w, cells[j])
    {
      if values[i].NullValue? {
        return None;
      }
      var part := PartKey(w, cells[i]);
      parts := parts + [part];
    }
    JoinIs(w, values, decimal, parts);
    return Some(Join(parts));
  }

  // --- each tuple once ---

  /** out are those of all with a key, one for each key; seen are the keys. */
  ghost predicate OneForEach<A(!new)>(f: A -> Option<string>, all: seq<A>, out: seq<A>, seen: set<string>) {
    && (forall i :: 0 <= i < |out| ==> out[i] in all && f(out[i]).Some? && f(out[i]).value in seen)
    && (forall i, j :: 0 <= i < j < |out| ==> f(out[i]) != f(out[j]))
    && (forall key :: key in seen ==> exists i :: 0 <= i < |out| && f(out[i]) == Some(key))
    && (forall x :: x in all && f(x).Some? ==> f(x).value in seen)
  }

  lemma OneMore<A(!new)>(f: A -> Option<string>, all: seq<A>, out: seq<A>, seen: set<string>, x: A)
    requires OneForEach(f, all, out, seen)
    ensures f(x).None? || f(x).value in seen ==> OneForEach(f, all + [x], out, seen)
    ensures f(x).Some? && f(x).value !in seen ==> OneForEach(f, all + [x], out + [x], seen + {f(x).value})
  {
    if f(x).Some? && f(x).value !in seen {
      var more := out + [x];
      assert more[|out|] == x;
      forall key | key in seen + {f(x).value} ensures exists i :: 0 <= i < |more| && f(more[i]) == Some(key) {
        if key in seen {
          var i :| 0 <= i < |out| && f(out[i]) == Some(key);
          assert more[i] == out[i];
        }
      }
    }
  }

  lemma NoneYet<A(!new)>(f: A -> Option<string>)
    ensures OneForEach(f, [], [], {})
  {
  }

  /** out are those of all with a key, one for each key. */
  ghost predicate OnePerKey<A(!new)>(f: A -> Option<string>, all: seq<A>, out: seq<A>) {
    && (forall i :: 0 <= i < |out| ==> out[i] in all && f(out[i]).Some?)
    && (forall i, j :: 0 <= i < j < |out| ==> f(out[i]) != f(out[j]))
    && (forall x :: x in all && f(x).Some? ==> exists i :: 0 <= i < |out| && f(out[i]) == f(x))
  }

  lemma OneForEachKey<A(!new)>(f: A -> Option<string>, all: seq<A>, out: seq<A>, seen: set<string>)
    requires OneForEach(f, all, out, seen)
    ensures OnePerKey(f, all, out)
  {
  }

  type Row = map<string, Value>

  /** A row's values of columns, NULL where it has none. */
  function TupleOf(row: Row, columns: seq<string>): (values: seq<Value>)
    ensures |values| == |columns|
  {
    seq(|columns|, i requires 0 <= i < |columns| => if columns[i] in row then row[columns[i]] else NullValue)
  }

  function TuplesOf(rows: seq<Row>, columns: seq<string>, n: nat): seq<seq<Value>>
    requires n <= |rows|
  {
    if n == 0 then [] else TuplesOf(rows, columns, n - 1) + [TupleOf(rows[n-1], columns)]
  }

  function Keyed(w: Writing, decimal: seq<bool>): seq<Value> -> Option<string> {
    (values: seq<Value>) => KeyOf(w, values, decimal)
  }

  /** The tuples of rows that hold no NULL, one for each key. */
  method UniqueJoinTuples(
    w: Writing, rows: seq<Row>, columns: seq<string>, decimal: seq<bool>) returns (tuples: seq<seq<Value>>)
    ensures OnePerKey(Keyed(w, decimal), TuplesOf(rows, columns, |rows|), tuples)
  {
    hide OneForEach, OnePerKey;
    tuples := [];
    var keys := {};
    NoneYet(Keyed(w, decimal));
    for k := 0 to |rows|
      invariant OneForEach(Keyed(w, decimal), TuplesOf(rows, columns, k), tuples, keys)
    {
      var tuple := TupleOf(rows[k], columns);
      var key := JoinKeyOf(w, tuple, decimal);
      OneMore(Keyed(w, decimal), TuplesOf(rows, columns, k), tuples, keys, tuple);
      if key.Some? && key.value !in keys {
        tuples, keys := tuples + [tuple], keys + {key.value};
      }
    }
    OneForEachKey(Keyed(w, decimal), TuplesOf(rows, columns, |rows|), tuples, keys);
  }

  predicate KnownTuple(values: seq<Value>, decimal: seq<bool>) {
    AllKnown(Cells(values, decimal))
  }

  predicate SameTuple(values: seq<Value>, others: seq<Value>, decimal: seq<bool>) {
    SameValues(Cells(values, decimal), Cells(others, decimal))
  }

  lemma KeyedAgree(
    w: Writing, decimal: seq<bool>, f: seq<Value> -> Option<string>, values: seq<Value>, others: seq<Value>)
    requires Escapes(w.escape) && f == Keyed(w, decimal) && |values| == |others|
    requires KnownTuple(values, decimal) && KnownTuple(others, decimal)
    ensures f(values).Some? && (f(values) == f(others) <==> SameTuple(values, others, decimal))
  {
    hide Escapes, TupleKey, SameValues;
    TupleKeysAgree(w, Cells(values, decimal), Cells(others, decimal));
    assert forall i :: 0 <= i < |values| ==> Cells(values, decimal)[i].v == values[i];
    assert forall i :: 0 <= i < |others| ==> Cells(others, decimal)[i].v == others[i];
  }

  /** No two tuples hold the same values, and those of every row without NULL
      are listed: no child is asked for twice, and none is missed. */
  lemma TuplesListed(w: Writing, decimal: seq<bool>, f: seq<Value> -> Option<string>, width: nat, all: seq<seq<Value>>,
                     out: seq<seq<Value>>)
    requires Escapes(w.escape) && f == Keyed(w, decimal) && OnePerKey(f, all, out)
    requires forall x :: x in all ==> |x| == width && (f(x).Some? ==> KnownTuple(x, decimal))
    ensures forall i, j :: 0 <= i < j < |out| ==> !SameTuple(out[i], out[j], decimal)
    ensures forall x :: x in all && KnownTuple(x, decimal) ==>
            exists i :: 0 <= i < |out| && SameTuple(out[i], x, decimal)
  {
    forall i, j | 0 <= i < j < |out| ensures !SameTuple(out[i], out[j], decimal) {
      KeyedAgree(w, decimal, f, out[i], out[j]);
    }
    forall x | x in all && KnownTuple(x, decimal) ensures exists i :: 0 <= i < |out| && SameTuple(out[i], x, decimal) {
      KeyedAgree(w, decimal, f, x, x);
      var i :| 0 <= i < |out| && f(out[i]) == Some(f(x).value);
      KeyedAgree(w, decimal, f, out[i], x);
    }
  }
}
