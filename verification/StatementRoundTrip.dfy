/** A printed statement, with its arguments, reads back to the statement printed:
    every clause to itself, every placeholder to its own value. */
module StatementRoundTrip {
  import opened Relalg
  import opened SqlSelect
  import opened Printing
  import opened Parsing
  import opened RoundTrip
  import opened Statement
  import opened StatementParsing

  /** The end, or a word from k on: the words are numbered in the order a
      statement has its clauses. */
  predicate Beyond(ts: Tokens, k: nat) {
    ts.End? || (ts.head.Word? && ts.head.keyword >= k)
  }

  // --- lists ---

  /** Each part, after a comma, then rest. */
  function Commas(parts: seq<seq<Token>>, rest: Tokens): Tokens {
    Onto(PrintParts(false, parts), rest)
  }

  lemma PartsOnto(first: bool, parts: seq<seq<Token>>, rest: Tokens)
    requires parts != []
    ensures Onto(PrintParts(first, parts), rest) ==
            if first then Onto(parts[0], Commas(parts[1..], rest))
                else Tok(COMMA, Onto(parts[0], Commas(parts[1..], rest)))
  {
    var head, more := Separator(COMMA, first), PrintParts(false, parts[1..]);
    OntoConcat(head + parts[0], more, rest);
    OntoConcat(head, parts[0], Onto(more, rest));
    OntoOne(COMMA, Onto(parts[0], Onto(more, rest)));
  }

  /** Each text is read as its value, whatever list it stands in. */
  ghost predicate EachReads<T>(parse: Tokens -> Parsed<T>, xs: seq<T>, texts: seq<seq<Token>>, rest: Tokens) {
    && |xs| == |texts|
    && (xs == [] || (var more := Commas(texts[1..], rest);
                     parse(Onto(texts[0], more)) == Done(xs[0], more) && EachReads(parse, xs[1..], texts[1..], rest)))
  }

  lemma {:induction false} CommasParse<T>(parse: Tokens -> Parsed<T>, xs: seq<T>, texts: seq<seq<Token>>, rest: Tokens)
    requires Shrinks(parse) && xs != [] && EachReads(parse, xs, texts, rest) && !Starts(rest, COMMA)
    ensures ParseCommas(parse, Onto(texts[0], Commas(texts[1..], rest))) == Done(xs, rest)
  {
    if |xs| == 1 {
      assert texts[1..] == [] && xs == [xs[0]];
    } else {
      PartsOnto(false, texts[1..], rest);
      CommasParse(parse, xs[1..], texts[1..], rest);
      assert [xs[0]] + xs[1..] == xs;
    }
  }

  lemma JoinedParses<T>(parse: Tokens -> Parsed<T>, xs: seq<T>, texts: seq<seq<Token>>, rest: Tokens)
    requires Shrinks(parse) && xs != [] && EachReads(parse, xs, texts, rest) && !Starts(rest, COMMA)
    ensures ParseCommas(parse, Onto(Joined(texts), rest)) == Done(xs, rest)
  {
    PartsOnto(true, texts, rest);
    CommasParse(parse, xs, texts, rest);
  }

  /** The same of a list that may be empty, and then has no word before it. */
  lemma AfterParses<T>(word: Token, parse: Tokens -> Parsed<T>, xs: seq<T>, texts: seq<seq<Token>>, rest: Tokens)
    requires Shrinks(parse) && EachReads(parse, xs, texts, rest) && !Starts(rest, COMMA) && !Starts(rest, word)
    ensures ParseAfter(word, parse, if xs == [] then rest else Onto([word] + Joined(texts), rest)) == Done(xs, rest)
    ensures xs != [] ==> Starts(Onto([word] + Joined(texts), rest), word)
  {
    if xs != [] {
      OntoConcat([word], Joined(texts), rest);
      OntoOne(word, Onto(Joined(texts), rest));
      JoinedParses(parse, xs, texts, rest);
    }
  }

  lemma CommasStart(parts: seq<seq<Token>>, rest: Tokens)
    ensures Commas(parts, rest) == rest || Starts(Commas(parts, rest), COMMA)
  {
    if parts != [] {
      PartsOnto(false, parts, rest);
    }
  }

  lemma {:induction false} ColumnsRead(cs: seq<Column>, rest: Tokens)
    requires (forall i :: 0 <= i < |cs| ==> ProperColumn(cs[i])) && !Starts(rest, DOT)
    ensures EachReads(ParseColumn, cs, ColumnTexts(cs), rest)
  {
    if cs != [] {
      assert ColumnTexts(cs)[1..] == ColumnTexts(cs[1..]);
      CommasStart(ColumnTexts(cs[1..]), rest);
      ColumnParses(cs[0], Commas(ColumnTexts(cs[1..]), rest));
      ColumnsRead(cs[1..], rest);
    }
  }

  lemma ItemParses(item: SelectItem, rest: Tokens)
    requires ProperColumn(item.column) && !Starts(rest, DOT) && !Starts(rest, AS)
    ensures ParseItem(Onto(PrintItem(item), rest)) == Done(item, rest)
  {
    var words := if item.alias == "" then [] else [AS, Ident(item.alias)];
    OntoConcat(PrintColumn(item.column), words, rest);
    OntoTwo(AS, Ident(item.alias), rest);
    ColumnParses(item.column, Onto(words, rest));
  }

  lemma {:induction false} ItemsRead(items: seq<SelectItem>, rest: Tokens)
    requires (forall i :: 0 <= i < |items| ==> ProperColumn(items[i].column)) && !Starts(rest, DOT) && !Starts(rest, AS)
    ensures EachReads(ParseItem, items, ItemTexts(items), rest)
  {
    if items != [] {
      assert ItemTexts(items)[1..] == ItemTexts(items[1..]);
      CommasStart(ItemTexts(items[1..]), rest);
      ItemParses(items[0], Commas(ItemTexts(items[1..]), rest));
      ItemsRead(items[1..], rest);
    }
  }

  lemma {:induction false} IdentsRead(names: seq<string>, rest: Tokens)
    ensures EachReads(ParseIdent, names, IdentTexts(names), rest)
  {
    if names != [] {
      assert IdentTexts(names)[1..] == IdentTexts(names[1..]);
      OntoOne(Ident(names[0]), Commas(IdentTexts(names[1..]), rest));
      IdentsRead(names[1..], rest);
    }
  }

  lemma NullCaseParses(c: Column, rest: Tokens)
    requires ProperColumn(c)
    ensures ParseSortItem(Onto(PrintSortItem(NullCase(c)), rest)) == Done(NullCase(c), rest)
  {
    OntoConcat([CASE_WHEN] + PrintColumn(c), NULL_CASE, rest);
    OntoConcat([CASE_WHEN], PrintColumn(c), Onto(NULL_CASE, rest));
    OntoOne(CASE_WHEN, Onto(PrintColumn(c), Onto(NULL_CASE, rest)));
    ColumnParses(c, Onto(NULL_CASE, rest));
    ExpectOnto(NULL_CASE, rest);
  }

  lemma SortItemParses(item: SortItem, rest: Tokens)
    requires ProperColumn(item.column) && !Starts(rest, NULLS_LAST)
    ensures ParseSortItem(Onto(PrintSortItem(item), rest)) == Done(item, rest)
  {
    match item
    case NullCase(c) => NullCaseParses(c, rest);
    case SortBy(c, desc, nullsLast) =>
      var word, last := [if desc then DESC else ASC], if nullsLast then [NULLS_LAST] else [];
      OntoConcat(PrintColumn(c) + word, last, rest);
      OntoConcat(PrintColumn(c), word, Onto(last, rest));
      OntoOne(word[0], Onto(last, rest));
      OntoOne(NULLS_LAST, rest);
      ColumnParses(c, Onto(word, Onto(last, rest)));
      ColumnStart(c, Onto(word, Onto(last, rest)));
  }

  lemma {:induction false} SortItemsRead(items: seq<SortItem>, rest: Tokens)
    requires (forall i :: 0 <= i < |items| ==> ProperColumn(items[i].column)) && !Starts(rest, NULLS_LAST)
    ensures EachReads(ParseSortItem, items, SortTexts(items), rest)
  {
    if items != [] {
      assert SortTexts(items)[1..] == SortTexts(items[1..]);
      CommasStart(SortTexts(items[1..]), rest);
      SortItemParses(items[0], Commas(SortTexts(items[1..]), rest));
      SortItemsRead(items[1..], rest);
    }
  }

  // --- clauses ---

  /** A predicate after its word, as a search condition. */
  lemma ClauseReads(word: Token, p: SqlPredicate, n: nat, args: seq<Operand>, rest: Tokens)
    requires word == WHERE || word == HAVING
    requires (p.SqlNil? || Proper(p)) && HoldsAt(args, n, ArgsOf(p)) && Beyond(rest, word.keyword + 1)
    ensures ParseClause(word, Onto(PrintClause(word, p, n), rest), args) == Done(Unwrapped(p), rest)
    ensures Beyond(Onto(PrintClause(word, p, n), rest), word.keyword)
  {
    if !p.SqlNil? {
      var ts := Onto(Print(p, n), rest);
      OntoConcat([word], Print(p, n), rest);
      OntoOne(word, ts);
      PrintedParses(p, n, args, rest);
      OneAnd(ts, args, Unwrapped(p), rest);
      OneOr(ts, args, [Unwrapped(p)], rest);
    }
  }

  lemma GroupByReads(cs: seq<Column>, rest: Tokens)
    requires (forall i :: 0 <= i < |cs| ==> ProperColumn(cs[i])) && Beyond(rest, HAVING.keyword)
    ensures ParseAfter(GROUP_BY, ParseColumn, Onto(PrintGroupBy(cs), rest)) == Done(cs, rest)
    ensures Beyond(Onto(PrintGroupBy(cs), rest), GROUP_BY.keyword)
  {
    ColumnsRead(cs, rest);
    AfterParses(GROUP_BY, ParseColumn, cs, ColumnTexts(cs), rest);
  }

  lemma OrderByReads(items: seq<SortItem>, rest: Tokens)
    requires (forall i :: 0 <= i < |items| ==> ProperColumn(items[i].column)) && Beyond(rest, LIMIT.keyword)
    ensures ParseAfter(ORDER_BY, ParseSortItem, Onto(PrintOrderBy(items), rest)) == Done(items, rest)
    ensures Beyond(Onto(PrintOrderBy(items), rest), ORDER_BY.keyword)
  {
    SortItemsRead(items, rest);
    AfterParses(ORDER_BY, ParseSortItem, items, SortTexts(items), rest);
  }

  /** A limit below 1 is not written, nor is an offset without one. */
  function ReadLimit(limit: int): int {
    if limit < 1 then 0 else limit
  }

  function ReadOffset(limit: int, offset: int): int {
    if limit < 1 || offset <= 0 then 0 else offset
  }

  lemma LimitReads(limit: int, offset: int) returns (m: Tokens)
    ensures ParseNumber(LIMIT, Onto(LimitClause(limit, offset), End)) == Done(ReadLimit(limit), m)
    ensures ParseNumber(OFFSET, m) == Done(ReadOffset(limit, offset), End)
    ensures Beyond(Onto(LimitClause(limit, offset), End), LIMIT.keyword)
  {
    var more := if offset > 0 then [OFFSET, Numeral(offset)] else [];
    m := if limit < 1 then End else Onto(more, End);
    OntoTwo(OFFSET, Numeral(offset), End);
    OntoConcat([LIMIT, Numeral(limit)], more, End);
    OntoTwo(LIMIT, Numeral(limit), Onto(more, End));
  }

  // --- FROM ---

  function ReadJoin(j: SqlJoin): SqlJoin {
    j.(pred := Unwrapped(j.pred))
  }

  function ReadJoins(js: seq<SqlJoin>): (rs: seq<SqlJoin>)
    ensures |rs| == |js| && forall i :: 0 <= i < |js| ==> rs[i] == ReadJoin(js[i])
  {
    seq(|js|, i requires 0 <= i < |js| => ReadJoin(js[i]))
  }

  /** args holds, from n on, the arguments of each join in turn. */
  predicate HoldsJoins(args: seq<Operand>, n: nat, js: seq<SqlJoin>)
    decreases js
  {
    js == [] || (HoldsAt(args, n, ArgsOf(js[0].pred)) && HoldsJoins(args, n + |ArgsOf(js[0].pred)|, js[1..]))
  }

  lemma {:induction false} SplitJoins(args: seq<Operand>, n: nat, js: seq<SqlJoin>)
    requires HoldsAt(args, n, JoinArgs(js))
    ensures HoldsJoins(args, n, js)
    decreases js
  {
    if js != [] {
      SplitHolds(args, n, ArgsOf(js[0].pred), JoinArgs(js[1..]));
      SplitJoins(args, n + |ArgsOf(js[0].pred)|, js[1..]);
    }
  }

  lemma JoinOnto(j: SqlJoin, n: nat, rest: Tokens)
    ensures Onto(PrintJoin(j, n), rest) ==
            Tok(LEFT_JOIN, Onto(PrintTable(j.right),
                Tok(AS, Tok(Ident(j.alias), Tok(ON, Onto(PrintOn(j.alias, j.on, j.pred, n), rest))))))
  {
    var table, words, on := PrintTable(j.right), [AS, Ident(j.alias), ON], PrintOn(j.alias, j.on, j.pred, n);
    OntoConcat([LEFT_JOIN] + table + words, on, rest);
    OntoConcat([LEFT_JOIN] + table, words, Onto(on, rest));
    OntoThree(AS, Ident(j.alias), ON, Onto(on, rest));
    OntoConcat([LEFT_JOIN], table, Onto(words, Onto(on, rest)));
    OntoOne(LEFT_JOIN, Onto(table, Onto(words, Onto(on, rest))));
  }

  lemma JoinParses(j: SqlJoin, n: nat, args: seq<Operand>, rest: Tokens)
    requires ProperJoin(j) && HoldsAt(args, n, ArgsOf(j.pred)) && !Starts(rest, AND) && !Starts(rest, DOT)
    ensures Starts(Onto(PrintJoin(j, n), rest), LEFT_JOIN)
    ensures ParseJoin(Onto(PrintJoin(j, n), rest).tail, args) == Done(ReadJoin(j), rest)
  {
    var tail := Tok(AS, Tok(Ident(j.alias), Tok(ON, Onto(PrintOn(j.alias, j.on, j.pred, n), rest))));
    JoinOnto(j, n, rest);
    NameParses(j.right.schema, j.right.name, tail);
    OnParses(j.alias, j.on, j.pred, n, args, rest);
  }

  lemma JoinsOnto(js: seq<SqlJoin>, n: nat, rest: Tokens)
    requires js != []
    ensures Onto(PrintJoins(js, n), rest) ==
            Onto(PrintJoin(js[0], n), Onto(PrintJoins(js[1..], n + |ArgsOf(js[0].pred)|), rest))
  {
    OntoConcat(PrintJoin(js[0], n), PrintJoins(js[1..], n + |ArgsOf(js[0].pred)|), rest);
  }

  lemma JoinsStart(js: seq<SqlJoin>, n: nat, rest: Tokens)
    ensures Onto(PrintJoins(js, n), rest) == rest || Starts(Onto(PrintJoins(js, n), rest), LEFT_JOIN)
  {
    if js != [] {
      JoinsOnto(js, n, rest);
      JoinOnto(js[0], n, Onto(PrintJoins(js[1..], n + |ArgsOf(js[0].pred)|), rest));
    }
  }

  lemma JoinsText(js: seq<SqlJoin>, n: nat, k: nat, ts: Tokens, more: Tokens, rest: Tokens)
    requires js != [] && k == n + |ArgsOf(js[0].pred)|
    requires ts == Onto(PrintJoins(js, n), rest) && more == Onto(PrintJoins(js[1..], k), rest)
    ensures ts == Onto(PrintJoin(js[0], n), more) && (more == rest || Starts(more, LEFT_JOIN))
  {
    JoinsOnto(js, n, rest);
    JoinsStart(js[1..], k, rest);
  }

  lemma JoinsParseOne(js: seq<SqlJoin>, n: nat, ts: Tokens, args: seq<Operand>, more: Tokens, rest: Tokens)
    requires js != [] && ProperJoin(js[0]) && HoldsAt(args, n, ArgsOf(js[0].pred))
    requires ts == Onto(PrintJoin(js[0], n), more) && (more == rest || Starts(more, LEFT_JOIN)) &&
             Beyond(rest, WHERE.keyword)
    requires ParseJoins(more, args) == Done(ReadJoins(js[1..]), rest)
    ensures ParseJoins(ts, args) == Done(ReadJoins(js), rest)
  {
    JoinParses(js[0], n, args, more);
    ReadJoinsCons(js);
    JoinsStep(ReadJoin(js[0]), ReadJoins(js[1..]), ts, args, more, rest);
  }

  lemma {:induction false} JoinsParse(js: seq<SqlJoin>, n: nat, ts: Tokens, args: seq<Operand>, rest: Tokens)
    requires ProperJoins(js) && HoldsJoins(args, n, js) && Beyond(rest, WHERE.keyword) &&
             ts == Onto(PrintJoins(js, n), rest)
    ensures ParseJoins(ts, args) == Done(ReadJoins(js), rest)
    decreases js
  {
    if js == [] {
      NoJoins(rest, args);
    } else {
      var k := n + |ArgsOf(js[0].pred)|;
      var more := Onto(PrintJoins(js[1..], k), rest);
      HoldsMore(args, n, js, k);
      JoinsText(js, n, k, ts, more, rest);
      JoinsParse(js[1..], k, more, args, rest);
      JoinsParseOne(js, n, ts, args, more, rest);
    }
  }

  lemma NoJoins(rest: Tokens, args: seq<Operand>)
    requires Beyond(rest, WHERE.keyword)
    ensures ParseJoins(rest, args) == Done(ReadJoins([]), rest)
  {
  }

  lemma HoldsMore(args: seq<Operand>, n: nat, js: seq<SqlJoin>, k: nat)
    requires js != [] && HoldsJoins(args, n, js) && k == n + |ArgsOf(js[0].pred)|
    ensures HoldsAt(args, n, ArgsOf(js[0].pred)) && HoldsJoins(args, k, js[1..])
  {
  }

  lemma JoinsStep(j: SqlJoin, js: seq<SqlJoin>, ts: Tokens, args: seq<Operand>, more: Tokens, rest: Tokens)
    requires Starts(ts, LEFT_JOIN) && ParseJoin(ts.tail, args) == Done(j, more) &&
             ParseJoins(more, args) == Done(js, rest)
    ensures ParseJoins(ts, args) == Done([j] + js, rest)
  {
  }

  lemma ReadJoinsCons(js: seq<SqlJoin>)
    requires js != []
    ensures ReadJoins(js) == [ReadJoin(js[0])] + ReadJoins(js[1..])
  {
  }

  lemma FromOnto(q: Query, rest: Tokens)
    ensures var words := if q.alias == "" then [] else [AS, Ident(q.alias)];
            Onto(PrintFrom(q), rest) ==
                Tok(FROM, Onto(PrintTable(q.relation), Onto(words, Onto(PrintJoins(q.joins, 0), rest))))
  {
    var table, words := PrintTable(q.relation), if q.alias == "" then [] else [AS, Ident(q.alias)];
    var joins := Onto(PrintJoins(q.joins, 0), rest);
    OntoConcat([FROM] + table + words, PrintJoins(q.joins, 0), rest);
    OntoConcat([FROM] + table, words, joins);
    OntoConcat([FROM], table, Onto(words, joins));
    OntoOne(FROM, Onto(table, Onto(words, joins)));
  }

  /** FROM with its joins. */
  lemma FromReads(q: Query, args: seq<Operand>, rest: Tokens) returns (t: Tokens, a: Tokens, j: Tokens)
    requires ProperQuery(q) && HoldsAt(args, 0, JoinArgs(q.joins)) && Beyond(rest, WHERE.keyword)
    ensures Expect(Onto(PrintFrom(q), rest), [FROM]) == Done((), t)
    ensures ParseTable(t) == Done(q.relation, a) && ParseAlias(a) == (q.alias, j)
    ensures ParseJoins(j, args) == Done(ReadJoins(q.joins), rest)
    ensures Starts(Onto(PrintFrom(q), rest), FROM)
  {
    var words := if q.alias == "" then [] else [AS, Ident(q.alias)];
    j := Onto(PrintJoins(q.joins, 0), rest);
    a := Onto(words, j);
    t := Onto(PrintTable(q.relation), a);
    FromOnto(q, rest);
    ExpectOne(FROM, t);
    JoinsStart(q.joins, 0, rest);
    OntoTwo(AS, Ident(q.alias), j);
    NameParses(q.relation.schema, q.relation.name, a);
    SplitJoins(args, 0, q.joins);
    JoinsParse(q.joins, 0, j, args, rest);
  }

  lemma ExpectOne(word: Token, rest: Tokens)
    ensures Expect(Tok(word, rest), [word]) == Done((), rest)
  {
    assert [word][1..] == [];
  }

  // --- the select list ---

  lemma StarReads(q: Query, rest: Tokens)
    requires q.list.Star?
    ensures ParseSelectList(Onto(PrintList(q), rest)) == Done((Star, if q.joins == [] then "" else q.alias), rest)
    ensures !Starts(Onto(PrintList(q), rest), DISTINCT)
  {
    OntoOne(ALL, rest);
    OntoThree(Ident(q.alias), DOT, ALL, rest);
  }

  lemma ColumnIsNoStar(c: Column, rest: Tokens)
    requires !Starts(rest, DOT)
    ensures var ts := Onto(PrintColumn(c), rest);
            ts.Tok? && !ts.head.Word? && !(ts.head.Ident? && Starts(ts.tail, DOT) && Starts(ts.tail.tail, ALL))
  {
    match c
    case Column(q, n) => NameOnto(q, n, rest);
    case CallOf(_, _, _, _, _) => CallOnto(c, rest);
  }

  lemma ListReads(q: Query, rest: Tokens)
    requires ProperList(q.list) && Starts(rest, FROM)
    ensures ParseSelectList(Onto(PrintList(q), rest)) ==
            Done((q.list, if q.list.Star? && q.joins != [] then q.alias else ""), rest)
    ensures !Starts(Onto(PrintList(q), rest), DISTINCT)
  {
    if q.list.Star? {
      StarReads(q, rest);
    } else {
      var items := q.list.items;
      var texts := ItemTexts(items);
      var words := if items[0].alias == "" then [] else [AS, Ident(items[0].alias)];
      var more := Commas(texts[1..], rest);
      ItemsRead(items, rest);
      JoinedParses(ParseItem, items, texts, rest);
      PartsOnto(true, texts, rest);
      OntoConcat(PrintColumn(items[0].column), words, more);
      CommasStart(texts[1..], rest);
      OntoTwo(AS, Ident(items[0].alias), more);
      ColumnIsNoStar(items[0].column, Onto(words, more));
    }
  }

  lemma SelectOnto(q: Query, rest: Tokens)
    ensures var list := Onto(PrintList(q), rest);
            Onto(PrintSelect(q), rest) == Tok(SELECT, if q.distinct then Tok(DISTINCT, list) else list)
  {
    var distinct, list := if q.distinct then [DISTINCT] else [], Onto(PrintList(q), rest);
    OntoConcat([SELECT] + distinct, PrintList(q), rest);
    OntoConcat([SELECT], distinct, list);
    OntoOne(SELECT, Onto(distinct, list));
    OntoOne(DISTINCT, list);
  }

  // --- the whole SELECT ---

  /** q as it is read: its predicates without needless parentheses, its WHERE in
      one. */
  function ReadQuery(q: Query): Query {
    var where := WherePredicate(q.where);
    q.(joins := ReadJoins(q.joins), where := if where.SqlNil? then []
        else [Unwrapped(where)], having := Unwrapped(q.having))
  }

  lemma WhereProper(ps: seq<SqlPredicate>)
    requires ProperAll(ps)
    ensures WherePredicate(ps).SqlNil? || Proper(WherePredicate(ps))
  {
  }

  /** What follows FROM, clause by clause. */
  function AfterFrom(q: Query, limit: int, offset: int): Tokens {
    Onto(PrintClause(WHERE, WherePredicate(q.where), |JoinArgs(q.joins)|), AfterWhere(q, limit, offset))
  }

  function AfterWhere(q: Query, limit: int, offset: int): Tokens {
    Onto(PrintGroupBy(q.groupBy), AfterGroups(q, limit, offset))
  }

  function AfterGroups(q: Query, limit: int, offset: int): Tokens {
    Onto(PrintClause(HAVING, q.having, |JoinArgs(q.joins) + ArgsOf(WherePredicate(q.where))|),
        AfterHaving(q, limit, offset))
  }

  function AfterHaving(q: Query, limit: int, offset: int): Tokens {
    Onto(PrintOrderBy(q.orderBy), Onto(LimitClause(limit, offset), End))
  }

  lemma QueryOnto(q: Query, limit: int, offset: int)
    ensures Onto(PrintQuery(q, limit, offset), End) ==
            Onto(PrintSelect(q), Onto(PrintFrom(q), AfterFrom(q, limit, offset)))
  {
    var where := PrintClause(WHERE, WherePredicate(q.where), |JoinArgs(q.joins)|);
    var having := PrintClause(HAVING, q.having, |JoinArgs(q.joins) + ArgsOf(WherePredicate(q.where))|);
    OntoConcat(PrintBase(q), LimitClause(limit, offset), End);
    OntoConcat(PrintThroughHaving(q), PrintOrderBy(q.orderBy), Onto(LimitClause(limit, offset), End));
    OntoConcat(PrintThroughWhere(q) + PrintGroupBy(q.groupBy), having, AfterHaving(q, limit, offset));
    OntoConcat(PrintThroughWhere(q), PrintGroupBy(q.groupBy), AfterGroups(q, limit, offset));
    OntoConcat(PrintSelect(q) + PrintFrom(q), where, AfterWhere(q, limit, offset));
    OntoConcat(PrintSelect(q), PrintFrom(q), AfterFrom(q, limit, offset));
  }

  lemma TailReads(q: Query, limit: int, offset: int)
    requires ProperQuery(q)
    ensures Beyond(AfterHaving(q, limit, offset), ORDER_BY.keyword)
    ensures var m := ParseAfter(ORDER_BY, ParseSortItem, AfterHaving(q, limit, offset));
            && m.Done? && m.value == q.orderBy
            && var l := ParseNumber(LIMIT, m.rest);
               l.Done? && l.value == ReadLimit(limit) &&
                   ParseNumber(OFFSET, l.rest) == Done(ReadOffset(limit, offset), End)
  {
    var m := LimitReads(limit, offset);
    OrderByReads(q.orderBy, Onto(LimitClause(limit, offset), End));
  }

  /** Where each clause's arguments are. */
  lemma QueryHolds(q: Query)
    ensures var n := |JoinArgs(q.joins)|;
            && HoldsAt(QueryArgs(q), 0, JoinArgs(q.joins))
            && HoldsAt(QueryArgs(q), n, ArgsOf(WherePredicate(q.where)))
            && HoldsAt(QueryArgs(q), |JoinArgs(q.joins) + ArgsOf(WherePredicate(q.where))|, ArgsOf(q.having))
  {
    var joins, where := JoinArgs(q.joins), ArgsOf(WherePredicate(q.where));
    HoldsWhole([], QueryArgs(q), []);
    assert [] + QueryArgs(q) + [] == QueryArgs(q);
    SplitHolds(QueryArgs(q), 0, joins + where, ArgsOf(q.having));
    SplitHolds(QueryArgs(q), 0, joins, where);
  }

  lemma HavingReads(q: Query, limit: int, offset: int)
    requires ProperQuery(q)
    ensures ParseClause(HAVING, AfterGroups(q, limit, offset), QueryArgs(q)) ==
            Done(Unwrapped(q.having), AfterHaving(q, limit, offset))
    ensures Beyond(AfterGroups(q, limit, offset), HAVING.keyword)
  {
    QueryHolds(q);
    TailReads(q, limit, offset);
    ClauseReads(HAVING, q.having, |JoinArgs(q.joins) + ArgsOf(WherePredicate(q.where))|, QueryArgs(q),
        AfterHaving(q, limit, offset));
  }

  lemma GroupsRead(q: Query, limit: int, offset: int)
    requires ProperQuery(q)
    ensures ParseAfter(GROUP_BY, ParseColumn, AfterWhere(q, limit, offset)) ==
            Done(q.groupBy, AfterGroups(q, limit, offset))
    ensures Beyond(AfterWhere(q, limit, offset), GROUP_BY.keyword)
  {
    HavingReads(q, limit, offset);
    GroupByReads(q.groupBy, AfterGroups(q, limit, offset));
  }

  lemma WhereReads(q: Query, limit: int, offset: int)
    requires ProperQuery(q)
    ensures ParseClause(WHERE, AfterFrom(q, limit, offset), QueryArgs(q)) ==
            Done(Unwrapped(WherePredicate(q.where)), AfterWhere(q, limit, offset))
    ensures Beyond(AfterFrom(q, limit, offset), WHERE.keyword)
    ensures Unwrapped(WherePredicate(q.where)).SqlNil? <==> WherePredicate(q.where).SqlNil?
  {
    QueryHolds(q);
    WhereProper(q.where);
    GroupsRead(q, limit, offset);
    ClauseReads(WHERE, WherePredicate(q.where), |JoinArgs(q.joins)|, QueryArgs(q), AfterWhere(q, limit, offset));
    UnwrappedNotNil(WherePredicate(q.where));
  }

  lemma {:induction false} UnwrappedNotNil(p: SqlPredicate)
    requires p.SqlNil? || Proper(p)
    ensures Unwrapped(p).SqlNil? <==> p.SqlNil?
  {
    if (p.SqlAnd? || p.SqlOr?) && |p.preds| == 1 {
      UnwrappedNotNil(p.preds[0]);
    }
  }

  /** From WHERE on. */
  lemma RestReads(q: Query, limit: int, offset: int)
    requires ProperQuery(q)
    ensures ParseRest(q.relation, q.alias, ReadJoins(q.joins), q.list, q.distinct, AfterFrom(q, limit, offset),
            QueryArgs(q)) ==
            Done(Reads(ReadQuery(q), ReadLimit(limit), ReadOffset(limit, offset)), End)
    ensures Beyond(AfterFrom(q, limit, offset), WHERE.keyword)
  {
    var ordered := ParseAfter(ORDER_BY, ParseSortItem, AfterHaving(q, limit, offset));
    TailReads(q, limit, offset);
    HavingReads(q, limit, offset);
    GroupsRead(q, limit, offset);
    WhereReads(q, limit, offset);
    RestStep(ReadQuery(q), QueryArgs(q), Unwrapped(WherePredicate(q.where)), AfterFrom(q, limit, offset),
        AfterWhere(q, limit, offset),
             AfterGroups(q, limit, offset), AfterHaving(q, limit, offset), ordered.rest, ReadLimit(limit),
             ParseNumber(LIMIT, ordered.rest).rest, ReadOffset(limit, offset));
  }

  lemma RestStep(
    q: Query, args: seq<Operand>, where: SqlPredicate, ts: Tokens, g: Tokens, h: Tokens, o: Tokens, l: Tokens,
    limit: int, m: Tokens, offset: int)
    requires ParseClause(WHERE, ts, args) == Done(where, g) && q.where == if where.SqlNil? then [] else [where]
    requires ParseAfter(GROUP_BY, ParseColumn, g) == Done(q.groupBy, h) &&
             ParseClause(HAVING, h, args) == Done(q.having, o)
    requires ParseAfter(ORDER_BY, ParseSortItem, o) == Done(q.orderBy, l)
    requires ParseNumber(LIMIT, l) == Done(limit, m) && ParseNumber(OFFSET, m) == Done(offset, End)
    ensures ParseRest(q.relation, q.alias, q.joins, q.list, q.distinct, ts, args) == Done(Reads(q, limit, offset), End)
  {
  }

  lemma SelectStep(
    q: Query, limit: int, offset: int, list: Tokens, from: Tokens, t: Tokens, a: Tokens, j: Tokens, rest: Tokens,
    star: string, args: seq<Operand>)
    requires !Starts(list, DISTINCT) && ParseSelectList(list) == Done((q.list, star), from)
    requires Expect(from, [FROM]) == Done((), t) && ParseTable(t) == Done(q.relation, a) &&
             ParseAlias(a) == (q.alias, j)
    requires ParseJoins(j, args) == Done(q.joins, rest) && StarOf(q.list, star, q.alias, q.joins)
    requires ParseRest(q.relation, q.alias, q.joins, q.list, q.distinct, rest, args) ==
             Done(Reads(q, limit, offset), End)
    ensures ParseCommand(Tok(SELECT, if q.distinct then Tok(DISTINCT, list) else list), args) ==
            Done(Reads(q, limit, offset), End)
  {
    hide ParseSelectList, Expect, ParseTable, ParseAlias, ParseJoins, ParseRest, StarOf;
  }

  /** A SELECT reads back to the query printed, its limit and its offset. */
  lemma QueryReadsBack(q: Query, limit: int, offset: int)
    requires ProperQuery(q)
    ensures ParseCommand(Onto(PrintQuery(q, limit, offset), End), QueryArgs(q)) ==
            Done(Reads(ReadQuery(q), ReadLimit(limit), ReadOffset(limit, offset)), End)
  {
    hide ParseCommand, ParseRest, ParseJoins, PrintQuery, AfterFrom, QueryArgs;
    var rest := AfterFrom(q, limit, offset);
    var from := Onto(PrintFrom(q), rest);
    QueryOnto(q, limit, offset);
    SelectOnto(q, from);
    RestReads(q, limit, offset);
    QueryHolds(q);
    var t, a, j := FromReads(q, QueryArgs(q), rest);
    ListReads(q, from);
    SelectStep(ReadQuery(q), ReadLimit(limit), ReadOffset(limit, offset), Onto(PrintList(q), from), from, t, a, j, rest,
               if q.list.Star? && q.joins != [] then q.alias else "", QueryArgs(q));
  }

  // --- writes ---

  lemma {:induction false} SetsRead(sets: seq<SetItem>, n: nat, args: seq<Operand>, rest: Tokens)
    requires HoldsAt(args, n, SetArgs(sets))
    ensures EachReads(SetOf(args), sets, SetTexts(sets, n), rest)
    decreases sets
  {
    if sets != [] {
      assert SetTexts(sets, n)[1..] == SetTexts(sets[1..], n + 1);
      assert SetArgs(sets)[1..] == SetArgs(sets[1..]);
      OntoThree(Ident(sets[0].field), Cmp(Eq), Param(n), Commas(SetTexts(sets[1..], n + 1), rest));
      SetsRead(sets[1..], n + 1, args, rest);
    }
  }

  /** args holds, from n on, the values of each tuple in turn. */
  predicate HoldsTuples(args: seq<Operand>, n: nat, tuples: seq<seq<Value>>)
    decreases tuples
  {
    tuples == [] || (HoldsAt(args, n, Scalars(tuples[0])) && HoldsTuples(args, n + |tuples[0]|, tuples[1..]))
  }

  lemma {:induction false} SplitTuples(args: seq<Operand>, n: nat, tuples: seq<seq<Value>>)
    requires HoldsAt(args, n, TupleArgs(tuples))
    ensures HoldsTuples(args, n, tuples)
    decreases tuples
  {
    if tuples != [] {
      SplitHolds(args, n, Scalars(tuples[0]), TupleArgs(tuples[1..]));
      SplitTuples(args, n + |tuples[0]|, tuples[1..]);
    }
  }

  lemma TupleParses(n: nat, vs: seq<Value>, args: seq<Operand>, rest: Tokens)
    requires HoldsAt(args, n, Scalars(vs))
    ensures ParseTuple(Onto(PrintTuple(n, |vs|), rest), args) == Done(vs, rest)
  {
    if vs == [] {
      assert PrintTuple(n, 0) == [OPEN, CLOSE];
      OntoTwo(OPEN, CLOSE, rest);
    } else {
      ListOnto(n, |vs|, rest);
      ListParses(n, vs, args, rest);
    }
  }

  lemma TupleTextsMore(tuples: seq<seq<Value>>, n: nat, k: nat)
    requires tuples != [] && k == n + |tuples[0]|
    ensures TupleTexts(tuples, n)[0] == PrintTuple(n, |tuples[0]|) &&
            TupleTexts(tuples, n)[1..] == TupleTexts(tuples[1..], k)
  {
  }

  lemma {:induction false} TuplesRead(tuples: seq<seq<Value>>, n: nat, args: seq<Operand>, rest: Tokens)
    requires HoldsTuples(args, n, tuples)
    ensures EachReads(TupleOf(args), tuples, TupleTexts(tuples, n), rest)
    decreases tuples
  {
    if tuples != [] {
      var k := n + |tuples[0]|;
      TupleTextsMore(tuples, n, k);
      TupleParses(n, tuples[0], args, Commas(TupleTexts(tuples[1..], k), rest));
      TuplesRead(tuples[1..], k, args, rest);
    }
  }

  lemma TableReads(word: Token, r: RelationRef, rest: Tokens)
    requires !Starts(rest, DOT)
    ensures Onto([word] + PrintTable(r), rest) == Tok(word, Onto(PrintTable(r), rest))
    ensures ParseTable(Onto(PrintTable(r), rest)) == Done(r, rest)
  {
    OntoConcat([word], PrintTable(r), rest);
    OntoOne(word, Onto(PrintTable(r), rest));
    NameParses(r.schema, r.name, rest);
  }

  lemma ReturningReads(names: seq<string>)
    ensures var ts := Onto(if names == [] then [] else [RETURNING] + Joined(IdentTexts(names)), End);
            ParseAfter(RETURNING, ParseIdent, ts) == Done(names, End) && !Starts(ts, COMMA)
  {
    IdentsRead(names, End);
    AfterParses(RETURNING, ParseIdent, names, IdentTexts(names), End);
  }

  lemma InsertOnto(target: RelationRef, columns: seq<string>, tuples: seq<seq<Value>>, returning: seq<string>)
    ensures var back := Onto(if returning == [] then [] else [RETURNING] + Joined(IdentTexts(returning)), End);
            var values := Onto(Joined(TupleTexts(tuples, 0)), back);
            Onto(PrintInsert(target, columns, tuples, returning), End) ==
            Onto([INSERT_INTO] + PrintTable(target),
                Onto([OPEN], Onto(Joined(IdentTexts(columns)), Onto([CLOSE, VALUES], values))))
  {
    var head, names := [INSERT_INTO] + PrintTable(target), Joined(IdentTexts(columns));
    var last := if returning == [] then [] else [RETURNING] + Joined(IdentTexts(returning));
    var values := Onto(Joined(TupleTexts(tuples, 0)), Onto(last, End));
    OntoConcat(head + [OPEN] + names + [CLOSE, VALUES] + Joined(TupleTexts(tuples, 0)), last, End);
    OntoConcat(head + [OPEN] + names + [CLOSE, VALUES], Joined(TupleTexts(tuples, 0)), Onto(last, End));
    OntoConcat(head + [OPEN] + names, [CLOSE, VALUES], values);
    OntoConcat(head + [OPEN], names, Onto([CLOSE, VALUES], values));
    OntoConcat(head, [OPEN], Onto(names, Onto([CLOSE, VALUES], values)));
  }

  lemma ValuesRead(tuples: seq<seq<Value>>, rest: Tokens)
    requires tuples != [] && !Starts(rest, COMMA)
    ensures ParseCommas(TupleOf(TupleArgs(tuples)), Onto(Joined(TupleTexts(tuples, 0)), rest)) == Done(tuples, rest)
  {
    var args := TupleArgs(tuples);
    HoldsWhole([], args, []);
    assert [] + args + [] == args;
    SplitTuples(args, 0, tuples);
    TuplesRead(tuples, 0, args, rest);
    JoinedParses(TupleOf(args), tuples, TupleTexts(tuples, 0), rest);
  }

  /** An INSERT reads back to its columns and its tuples, each value in its
      place. */
  lemma InsertReadsBack(target: RelationRef, columns: seq<string>, tuples: seq<seq<Value>>, returning: seq<string>)
    requires columns != [] && tuples != []
    ensures ParseCommand(Onto(PrintInsert(target, columns, tuples, returning), End), TupleArgs(tuples)) ==
            Done(Inserts(target, columns, tuples, returning), End)
  {
    var back := Onto(if returning == [] then [] else [RETURNING] + Joined(IdentTexts(returning)), End);
    var values := Onto(Joined(TupleTexts(tuples, 0)), back);
    var close := Onto([CLOSE, VALUES], values);
    var names := Onto(Joined(IdentTexts(columns)), close);
    InsertOnto(target, columns, tuples, returning);
    ReturningReads(returning);
    ValuesRead(tuples, back);
    ExpectOnto([CLOSE, VALUES], values);
    OntoTwo(CLOSE, VALUES, values);
    IdentsRead(columns, close);
    JoinedParses(ParseIdent, columns, IdentTexts(columns), close);
    ExpectOnto([OPEN], names);
    OntoOne(OPEN, names);
    TableReads(INSERT_INTO, target, Onto([OPEN], names));
  }

  lemma UpdateOnto(target: RelationRef, sets: seq<SetItem>, p: SqlPredicate)
    ensures Onto(PrintUpdate(target, sets, p), End) ==
            Onto([UPDATE] + PrintTable(target),
                Onto([SET], Onto(Joined(SetTexts(sets, 0)), Onto([WHERE] + Print(p, |sets|), End))))
  {
    var head, where := [UPDATE] + PrintTable(target), Print(p, |sets|);
    OntoConcat(head + [SET] + Joined(SetTexts(sets, 0)) + [WHERE], where, End);
    OntoConcat(head + [SET] + Joined(SetTexts(sets, 0)), [WHERE], Onto(where, End));
    OntoConcat([WHERE], where, End);
    OntoConcat(head + [SET], Joined(SetTexts(sets, 0)), Onto([WHERE] + where, End));
    OntoConcat(head, [SET], Onto(Joined(SetTexts(sets, 0)), Onto([WHERE] + where, End)));
  }

  lemma UpdateStep(
    ts: Tokens, target: RelationRef, s: Tokens, i: Tokens, sets: seq<SetItem>, w: Tokens, p: SqlPredicate,
    args: seq<Operand>)
    requires ParseTable(ts) == Done(target, s) && Expect(s, [SET]) == Done((), i)
    requires ParseCommas(SetOf(args), i) == Done(sets, w) && ParseClause(WHERE, w, args) == Done(p, End)
    ensures ParseCommand(Tok(UPDATE, ts), args) == Done(Updates(target, sets, p), End)
  {
    hide ParseTable, Expect, ParseCommas, ParseClause;
  }

  /** An UPDATE reads back to its assignments, each field to its own value, and
      its predicate. */
  lemma UpdateReadsBack(target: RelationRef, sets: seq<SetItem>, p: SqlPredicate)
    requires sets != [] && Proper(p)
    ensures ParseCommand(Onto(PrintUpdate(target, sets, p), End), SetArgs(sets) + ArgsOf(p)) ==
            Done(Updates(target, sets, Unwrapped(p)), End)
  {
    hide ParseCommand, ParseTable, ParseCommas, ParseClause, PrintUpdate, PrintParts, PrintTable;
    var args := SetArgs(sets) + ArgsOf(p);
    var where := Onto([WHERE] + Print(p, |sets|), End);
    var items := Onto(Joined(SetTexts(sets, 0)), where);
    UpdateOnto(target, sets, p);
    HoldsWhole([], args, []);
    assert [] + args + [] == args;
    SplitHolds(args, 0, SetArgs(sets), ArgsOf(p));
    ClauseReads(WHERE, p, |sets|, args, End);
    SetsRead(sets, 0, args, where);
    JoinedParses(SetOf(args), sets, SetTexts(sets, 0), where);
    ExpectOnto([SET], items);
    OntoOne(SET, items);
    TableReads(UPDATE, target, Onto([SET], items));
    UpdateStep(Onto(PrintTable(target), Onto([SET], items)), target, Onto([SET], items), items, sets, where,
        Unwrapped(p), args);
  }

  lemma DeleteReadsBack(target: RelationRef, p: SqlPredicate)
    requires Proper(p)
    ensures ParseCommand(Onto(PrintDelete(target, p), End), ArgsOf(p)) == Done(Deletes(target, Unwrapped(p)), End)
  {
    var head, where := [DELETE_FROM] + PrintTable(target), Onto([WHERE] + Print(p, 0), End);
    assert head + [WHERE] + Print(p, 0) == head + ([WHERE] + Print(p, 0));
    OntoConcat(head, [WHERE] + Print(p, 0), End);
    HoldsWhole([], ArgsOf(p), []);
    assert [] + ArgsOf(p) + [] == ArgsOf(p);
    ClauseReads(WHERE, p, 0, ArgsOf(p), End);
    TableReads(DELETE_FROM, target, where);
  }

  lemma CallReadsBack(procedure: RelationRef, values: seq<Value>)
    ensures ParseCommand(Onto(PrintCall(procedure, values), End), Scalars(values)) ==
            Done(Calls(procedure, values), End)
  {
    var tuple := Onto(PrintTuple(0, |values|), End);
    OntoConcat([CALL] + PrintTable(procedure), PrintTuple(0, |values|), End);
    HoldsWhole([], Scalars(values), []);
    assert [] + Scalars(values) + [] == Scalars(values);
    TupleParses(0, values, Scalars(values), End);
    WrappedOnto(PrintParams(0, |values|), End);
    TableReads(CALL, procedure, tuple);
  }
}
