/** What a builder has written so far, and what it has written after each part
    of a predicate. */
module Progress {
  import opened Buffers
  import opened Relalg
  import opened SqlSelect
  import opened Resolve
  import opened Printing
  import opened Statement
  import opened Validate

  /** The text, the arguments, and how many placeholders and EXISTS it holds. */
  datatype Progress = Progress(sql: Buffer<Token>, args: Buffer<Operand>, ph: nat, nested: nat)

  /** w, then ts, binding os. */
  function Add(w: Progress, ts: seq<Token>, os: seq<Operand>): Progress {
    Progress(Append(w.sql, ts), Append(w.args, os), w.ph + |os|, w.nested)
  }

  lemma AddConcat(w: Progress, s: seq<Token>, x: seq<Operand>, t: seq<Token>, y: seq<Operand>)
    ensures Add(Add(w, s, x), t, y) == Add(w, s + t, x + y)
  {
    AppendConcat(w.sql, s, t);
    AppendConcat(w.args, x, y);
  }

  lemma AddPlain(w: Progress, s: seq<Token>, x: seq<Operand>, t: seq<Token>)
    ensures Add(Add(w, s, x), t, []) == Add(w, s + t, x)
    ensures Add(Add(w, s, []), t, x) == Add(w, s + t, x)
  {
    AppendConcat(w.sql, s, t);
  }

  lemma AddThree(w: Progress, a: seq<Token>, b: seq<Token>, x: seq<Operand>, c: seq<Token>, y: seq<Operand>)
    ensures Add(w, a + b + c, x + y) == Add(Add(Add(w, a, []), b, x), c, y)
  {
    AddPlain(w, a, x, b);
    AddConcat(w, a + b, x, c, y);
  }

  lemma AddWrapped(w: Progress, s: seq<Token>, x: seq<Operand>)
    ensures Add(w, [OPEN] + s + [CLOSE], x) == Add(Add(Add(w, [OPEN], []), s, x), [CLOSE], [])
  {
    AddPlain(w, [OPEN], x, s);
    AddPlain(w, [OPEN] + s, x, [CLOSE]);
  }

  // --- lists of texts and of values ---

  /** w, then the parts. */
  lemma AddPart(w: Progress, first: bool, part: seq<Token>, x: seq<Operand>, more: seq<seq<Token>>, y: seq<Operand>)
    ensures Add(w, PrintParts(first, [part] + more), x + y) ==
            Add(Add(Add(w, Separator(COMMA, first), []), part, x), PrintParts(false, more), y)
  {
    assert ([part] + more)[1..] == more;
    AddThree(w, Separator(COMMA, first), part, x, PrintParts(false, more), y);
  }

  /** w, then placeholders for the values. */
  function AddValues(w: Progress, first: bool, values: seq<Value>): Progress {
    Add(w, if first then PrintParams(w.ph, |values|) else PrintMoreParams(w.ph, |values|), Scalars(values))
  }

  lemma AddValuesCons(w: Progress, first: bool, values: seq<Value>)
    requires values != []
    ensures AddValues(w, first, values) ==
            AddValues(Add(Add(w, Separator(COMMA, first), []), [Param(w.ph)], [Scalar(values[0])]), false, values[1..])
  {
    var comma, value, more := Separator(COMMA, first), [Param(w.ph)], PrintMoreParams(w.ph + 1, |values| - 1);
    AddPlain(w, comma, [Scalar(values[0])], value);
    AddConcat(w, comma + value, [Scalar(values[0])], more, Scalars(values[1..]));
    assert first ==> comma + value == value;
    assert !first ==> comma + value == [COMMA, Param(w.ph)];
  }

  // --- predicates ---

  /** w, then p, with calls in scope by their names. */
  function After(w: Progress, ns: Names, calls: seq<AggCall>, scope: string, p: Predicate): Progress {
    var (q, k) := Written(ns, calls, scope, p, w.nested);
    AddOne(w, q, k)
  }

  /** w, then q; k is the count of EXISTS with it. */
  function AddOne(w: Progress, q: SqlPredicate, k: nat): Progress {
    Add(w, Print(q, w.ph), ArgsOf(q)).(nested := k)
  }

  /** A list of predicates, or what is left of one. */
  function PrintRest(sep: Token, first: bool, qs: seq<SqlPredicate>, n: nat): seq<Token> {
    if qs == [] then [] else Separator(sep, first) + PrintAll(sep, qs, n)
  }

  /** w, then each of ps. */
  function AfterAll(
    w: Progress, ns: Names, calls: seq<AggCall>, scope: string, sep: Token, first: bool, ps: seq<Predicate>): Progress
  {
    var (qs, k) := WrittenAll(ns, calls, scope, ps, w.nested);
    AddRest(w, sep, first, qs, k)
  }

  function AddRest(w: Progress, sep: Token, first: bool, qs: seq<SqlPredicate>, k: nat): Progress {
    Add(w, PrintRest(sep, first, qs, w.ph), ArgsOfAll(qs)).(nested := k)
  }

  lemma PrintRestCons(sep: Token, first: bool, qs: seq<SqlPredicate>, n: nat)
    requires qs != []
    ensures PrintRest(sep, first, qs, n) ==
            Separator(sep, first) + Print(qs[0], n) + PrintRest(sep, false, qs[1..], n + |ArgsOf(qs[0])|)
  {
    hide Print, ArgsOf;
    if |qs| == 1 {
      PrintAllOne(sep, qs, n);
    }
  }

  lemma AddRestCons(w: Progress, sep: Token, first: bool, qs: seq<SqlPredicate>, m: nat, k: nat)
    requires qs != []
    ensures AddRest(w, sep, first, qs, k) ==
            AddRest(AddOne(Add(w, Separator(sep, first), []), qs[0], m), sep, false, qs[1..], k)
  {
    PrintRestCons(sep, first, qs, w.ph);
    AddThree(w, Separator(sep, first), Print(qs[0], w.ph), ArgsOf(qs[0]),
             PrintRest(sep, false, qs[1..], w.ph + |ArgsOf(qs[0])|), ArgsOfAll(qs[1..]));
  }

  /** The first of ps, then the others. */
  lemma AfterAllCons(
    w: Progress, ns: Names, calls: seq<AggCall>, scope: string, sep: Token, first: bool, ps: seq<Predicate>)
    requires ps != []
    ensures AfterAll(w, ns, calls, scope, sep, first, ps) ==
            AfterAll(After(Add(w, Separator(sep, first), []), ns, calls, scope, ps[0]), ns, calls, scope, sep, false,
                ps[1..])
  {
    var (q, m) := Written(ns, calls, scope, ps[0], w.nested);
    var (qs, k) := WrittenAll(ns, calls, scope, ps, w.nested);
    assert qs[0] == q && qs[1..] == WrittenAll(ns, calls, scope, ps[1..], m).0;
    AddRestCons(w, sep, first, qs, m, k);
  }

  function Listed(sep: Token, ps: seq<Predicate>): Predicate {
    if sep == AND then And(ps) else Or(ps)
  }

  lemma AddListed(w: Progress, sep: Token, qs: seq<SqlPredicate>, k: nat)
    requires sep == AND || sep == OR
    ensures AddOne(w, if sep == AND then SqlAnd(qs) else SqlOr(qs), k) ==
            Add(AddRest(Add(w, [OPEN], []), sep, true, qs, k), [CLOSE], [])
  {
    assert PrintRest(sep, true, qs, w.ph) == PrintAll(sep, qs, w.ph);
    AddWrapped(w, PrintAll(sep, qs, w.ph), ArgsOfAll(qs));
  }

  lemma AfterListed(w: Progress, ns: Names, calls: seq<AggCall>, scope: string, sep: Token, ps: seq<Predicate>)
    requires sep == AND || sep == OR
    ensures After(w, ns, calls, scope, Listed(sep, ps)) ==
            Add(AfterAll(Add(w, [OPEN], []), ns, calls, scope, sep, true, ps), [CLOSE], [])
  {
    var (qs, k) := WrittenAll(ns, calls, scope, ps, w.nested);
    AddListed(w, sep, qs, k);
  }

  // --- joins and EXISTS ---

  /** w, then the condition joining alias: its pairs, then pred of its columns. */
  function AfterOn(
    w: Progress, ns: Names, calls: seq<AggCall>, alias: string, on: seq<JoinPair>, pred: Predicate): Progress
  {
    var (q, k) := Written(ns, calls, alias, pred, w.nested);
    Add(w, PrintOn(alias, OnPairs(ns, on), q, w.ph), ArgsOf(q)).(nested := k)
  }

  lemma AddOn(w: Progress, alias: string, on: seq<OnPair>, q: SqlPredicate)
    ensures var pairs := Add(w, PrintPairs(alias, on), []);
            Add(w, PrintOn(alias, on, q, w.ph), ArgsOf(q)) ==
            if q.SqlNil? then pairs else Add(Add(pairs, [AND], []), Print(q, w.ph), ArgsOf(q))
  {
    var pairs := PrintPairs(alias, on);
    if q.SqlNil? {
      assert PrintOn(alias, on, q, w.ph) == pairs;
    } else {
      AddPlain(w, pairs, ArgsOf(q), [AND] + Print(q, w.ph));
      AddPlain(Add(w, pairs, []), [AND], ArgsOf(q), Print(q, w.ph));
    }
  }

  lemma AfterOnStep(w: Progress, ns: Names, calls: seq<AggCall>, alias: string, on: seq<JoinPair>, pred: Predicate)
    ensures var pairs := Add(w, PrintPairs(alias, OnPairs(ns, on)), []);
            AfterOn(w, ns, calls, alias, on, pred) ==
            if pred.Nil? then pairs else After(Add(pairs, [AND], []), ns, calls, alias, pred)
  {
    var (q, _) := Written(ns, calls, alias, pred, w.nested);
    assert q.SqlNil? <==> pred.Nil?;
    AddOn(w, alias, OnPairs(ns, on), q);
  }

  function ExistsHead(relation: RelationRef, alias: string): seq<Token> {
    EXISTS_HEAD + PrintTable(relation) + [AS, Ident(alias), WHERE]
  }

  lemma AddBetween(w: Progress, head: seq<Token>, ts: seq<Token>, os: seq<Operand>, tail: seq<Token>)
    ensures Add(w, head + ts + tail, os) == Add(Add(Add(w, head, []), ts, os), tail, [])
  {
    AddPlain(w, head, os, ts);
    AddPlain(w, head + ts, os, tail);
  }

  /** w, then the subquery of an EXISTS. */
  function AfterSubquery(
    w: Progress, ns: Names, calls: seq<AggCall>, relation: RelationRef, alias: string, on: seq<JoinPair>,
    inner: Predicate): Progress
  {
    Add(AfterOn(Add(w, ExistsHead(relation, alias), []), ns, calls, alias, on, inner), [CLOSE], [])
  }

  lemma AfterExists(
    w: Progress, ns: Names, calls: seq<AggCall>, relation: RelationRef, on: seq<JoinPair>, inner: Predicate)
    ensures After(w, ns, calls, "", Exists(relation, on, inner)) ==
            AfterSubquery(w.(nested := w.nested + 1), ns, calls, relation, ExistsAlias(w.nested + 1), on, inner)
  {
    var alias := ExistsAlias(w.nested + 1);
    var (q, k) := Written(ns, calls, alias, inner, w.nested + 1);
    ExistsPrinted(relation, alias, OnPairs(ns, on), q, w.ph);
    AddBetween(w, ExistsHead(relation, alias), PrintOn(alias, OnPairs(ns, on), q, w.ph), ArgsOf(q), [CLOSE]);
  }

  lemma ExistsPrinted(relation: RelationRef, alias: string, on: seq<OnPair>, q: SqlPredicate, n: nat)
    ensures Print(SqlExists(relation, alias, on, q), n) ==
            ExistsHead(relation, alias) + PrintOn(alias, on, q, n) + [CLOSE]
  {
  }

  /** w, then the pairs. */
  function AddPairs(w: Progress, alias: string, first: bool, on: seq<OnPair>): Progress {
    Add(w, if first then PrintPairs(alias, on) else PrintMorePairs(alias, on), [])
  }

  lemma AddPairsCons(w: Progress, alias: string, first: bool, on: seq<OnPair>)
    requires on != []
    ensures AddPairs(w, alias, first, on) ==
            AddPairs(Add(Add(w, Separator(AND, first), []), PrintPair(alias, on[0]), []), alias, false, on[1..])
  {
    var head, pair := Separator(AND, first), PrintPair(alias, on[0]);
    AddPlain(w, head, [], pair);
    AddPlain(w, head + pair, [], PrintMorePairs(alias, on[1..]));
    assert first ==> head + pair == pair;
  }

  /** w, then the pairs of on. */
  function AfterOnPairs(w: Progress, ns: Names, alias: string, first: bool, on: seq<JoinPair>): Progress {
    AddPairs(w, alias, first, OnPairs(ns, on))
  }

  lemma AfterOnPairsCons(w: Progress, ns: Names, alias: string, first: bool, on: seq<JoinPair>)
    requires on != []
    ensures AfterOnPairs(w, ns, alias, first, on) ==
            AfterOnPairs(Add(Add(w, Separator(AND, first), []),
                PrintPair(alias, OnPair(on[0].right, Col(ns, on[0].left))), []),
                       ns, alias, false, on[1..])
  {
    var pairs := OnPairs(ns, on);
    AddPairsCons(w, alias, first, pairs);
    assert pairs[0] == OnPair(on[0].right, Col(ns, on[0].left)) && pairs[1..] == OnPairs(ns, on[1..]);
  }
}
