/** A printed predicate parses back to the predicate printed, its placeholders
    bound to its own values. */
module RoundTrip {
  import opened Relalg
  import opened SqlSelect
  import opened Printing
  import opened Parsing

  /** args holds, from n on, the values. */
  predicate HoldsAt(args: seq<Operand>, n: nat, values: seq<Operand>)
    decreases values
  {
    values == [] || (n < |args| && args[n] == values[0] && HoldsAt(args, n + 1, values[1..]))
  }

  lemma {:induction false} SplitHolds(args: seq<Operand>, n: nat, s: seq<Operand>, t: seq<Operand>)
    requires HoldsAt(args, n, s + t)
    ensures HoldsAt(args, n, s) && HoldsAt(args, n + |s|, t)
    decreases s
  {
    if s == [] {
      assert s + t == t;
    } else {
      assert (s + t)[1..] == s[1..] + t;
      SplitHolds(args, n + 1, s[1..], t);
    }
  }

  /** A statement's own arguments are held from 0 on. */
  lemma {:induction false} HoldsWhole(before: seq<Operand>, values: seq<Operand>, after: seq<Operand>)
    ensures HoldsAt(before + values + after, |before|, values)
    decreases values
  {
    if values != [] {
      HoldsWhole(before + values[..1], values[1..], after);
      assert before + values[..1] + values[1..] + after == before + values + after;
    }
  }

  lemma OntoTwo(a: Token, b: Token, rest: Tokens)
    ensures Onto([a, b], rest) == Tok(a, Tok(b, rest))
  {
    assert [a, b][1..] == [b];
    OntoOne(b, rest);
  }

  lemma OntoThree(a: Token, b: Token, c: Token, rest: Tokens)
    ensures Onto([a, b, c], rest) == Tok(a, Tok(b, Tok(c, rest)))
  {
    assert [a, b, c][1..] == [b, c];
    OntoTwo(b, c, rest);
  }

  // --- columns and conditions ---

  lemma NameOnto(q: string, n: string, rest: Tokens)
    ensures Onto(PrintName(q, n), rest) ==
            if q == "" then Tok(Ident(n), rest) else Tok(Ident(q), Tok(DOT, Tok(Ident(n), rest)))
  {
    OntoOne(Ident(n), rest);
    OntoThree(Ident(q), DOT, Ident(n), rest);
  }

  lemma NameParses(q: string, n: string, rest: Tokens)
    requires !Starts(rest, DOT)
    ensures ParseName(Onto(PrintName(q, n), rest)) == Done((q, n), rest)
  {
    NameOnto(q, n, rest);
  }

  /** What follows the opening parenthesis of a call. */
  function CallBody(c: Column, rest: Tokens): Tokens
    requires c.CallOf?
  {
    Onto(if c.star then [ALL] else PrintName(c.qualifier, c.name), Tok(CLOSE, rest))
  }

  lemma CallOnto(c: Column, rest: Tokens)
    requires c.CallOf?
    ensures Onto(PrintColumn(c), rest) ==
            Tok(Func(c.fn), Tok(OPEN, if c.distinct then Tok(DISTINCT, CallBody(c, rest)) else CallBody(c, rest)))
  {
    var distinct := if c.distinct then [DISTINCT] else [];
    var body := if c.star then [ALL] else PrintName(c.qualifier, c.name);
    OntoConcat([Func(c.fn), OPEN] + distinct + body, [CLOSE], rest);
    OntoConcat([Func(c.fn), OPEN] + distinct, body, Tok(CLOSE, rest));
    OntoConcat([Func(c.fn), OPEN], distinct, CallBody(c, rest));
    OntoOne(CLOSE, rest);
    OntoOne(DISTINCT, CallBody(c, rest));
    OntoTwo(Func(c.fn), OPEN, Onto(distinct, CallBody(c, rest)));
  }

  lemma CallParses(c: Column, rest: Tokens)
    requires c.CallOf? && ProperColumn(c)
    ensures ParseCall(c.fn, c.distinct, CallBody(c, rest)) == Done(c, rest)
    ensures !Starts(CallBody(c, rest), DISTINCT)
  {
    NameOnto(c.qualifier, c.name, Tok(CLOSE, rest));
    OntoOne(ALL, Tok(CLOSE, rest));
  }

  lemma ColumnParses(c: Column, rest: Tokens)
    requires ProperColumn(c) && !Starts(rest, DOT)
    ensures ParseColumn(Onto(PrintColumn(c), rest)) == Done(c, rest)
  {
    match c
    case Column(q, n) => NameOnto(q, n, rest);
    case CallOf(fn, distinct, star, q, n) =>
      CallOnto(c, rest);
      CallParses(c, rest);
  }

  lemma {:induction false} MoreParamsParse(n: nat, k: nat, rest: Tokens)
    requires !Starts(rest, COMMA)
    ensures ParseMoreParams(Onto(PrintMoreParams(n, k), rest)) == (Range(n, k), rest)
    decreases k
  {
    if k > 0 {
      MoreParamsParse(n + 1, k - 1, rest);
      OntoConcat([COMMA, Param(n)], PrintMoreParams(n + 1, k - 1), rest);
      OntoTwo(COMMA, Param(n), Onto(PrintMoreParams(n + 1, k - 1), rest));
    }
  }

  lemma {:induction false} BoundRange(n: nat, vs: seq<Value>, args: seq<Operand>)
    requires HoldsAt(args, n, Scalars(vs))
    ensures Bound(Range(n, |vs|), args) == Some(vs)
    decreases |vs|
  {
    if vs != [] {
      assert ([n] + Range(n + 1, |vs| - 1))[1..] == Range(n + 1, |vs| - 1);
      BoundRange(n + 1, vs[1..], args);
      assert [vs[0]] + vs[1..] == vs;
    }
  }

  lemma ListOnto(n: nat, k: nat, rest: Tokens)
    requires k > 0
    ensures Onto(PrintTuple(n, k), rest) ==
            Tok(OPEN, Tok(Param(n), Onto(PrintMoreParams(n + 1, k - 1), Tok(CLOSE, rest))))
  {
    OntoConcat([OPEN] + PrintParams(n, k), [CLOSE], rest);
    OntoOne(CLOSE, rest);
    OntoConcat([OPEN], PrintParams(n, k), Tok(CLOSE, rest));
    OntoConcat([Param(n)], PrintMoreParams(n + 1, k - 1), Tok(CLOSE, rest));
    OntoOne(Param(n), Onto(PrintMoreParams(n + 1, k - 1), Tok(CLOSE, rest)));
    OntoOne(OPEN, Onto(PrintParams(n, k), Tok(CLOSE, rest)));
  }

  lemma ListParses(n: nat, vs: seq<Value>, args: seq<Operand>, rest: Tokens)
    requires vs != [] && HoldsAt(args, n, Scalars(vs))
    ensures ParseList(Onto(PrintTuple(n, |vs|), rest), args) == Done(List(vs), rest)
  {
    var k := |vs| - 1;
    ListOnto(n, |vs|, rest);
    MoreParamsParse(n + 1, k, Tok(CLOSE, rest));
    BoundRange(n, vs, args);
    ListStep(n, Onto(PrintMoreParams(n + 1, k), Tok(CLOSE, rest)), Range(n + 1, k), vs, args, rest);
  }

  lemma ListStep(n: nat, ts: Tokens, ks: seq<nat>, vs: seq<Value>, args: seq<Operand>, rest: Tokens)
    requires ParseMoreParams(ts) == (ks, Tok(CLOSE, rest)) && Bound([n] + ks, args) == Some(vs)
    ensures ParseList(Tok(OPEN, Tok(Param(n), ts)), args) == Done(List(vs), rest)
  {
  }

  lemma InOnto(op: Op, operand: Operand, n: nat, rest: Tokens)
    requires op.In? || op.NotIn?
    ensures var list := Onto(PrintTuple(n, |ConditionArgs(op, operand)|), rest);
            Onto(PrintOperator(op, operand, n), rest) == if op.In? then Tok(IN, list) else Tok(NOT, Tok(IN, list))
  {
    var list := PrintTuple(n, |ConditionArgs(op, operand)|);
    if op.In? {
      OntoConcat([IN], list, rest);
      OntoOne(IN, Onto(list, rest));
    } else {
      OntoConcat([NOT, IN], list, rest);
      OntoTwo(NOT, IN, Onto(list, rest));
    }
  }

  lemma OperatorParses(op: Op, operand: Operand, n: nat, args: seq<Operand>, rest: Tokens)
    requires ProperOperand(op, operand) && HoldsAt(args, n, ConditionArgs(op, operand))
    ensures ParseOperator(Onto(PrintOperator(op, operand, n), rest), args) == Done((op, operand), rest)
    ensures !Starts(Onto(PrintOperator(op, operand, n), rest), DOT)
  {
    if op.In? || op.NotIn? {
      InParses(op, operand, n, args, rest);
    } else if op.IsNull? {
      OntoOne(IS_NULL, rest);
    } else if op.IsNotNull? {
      OntoOne(IS_NOT_NULL, rest);
    } else {
      OntoTwo(Cmp(op), Param(n), rest);
    }
  }

  lemma InParses(op: Op, operand: Operand, n: nat, args: seq<Operand>, rest: Tokens)
    requires (op.In? || op.NotIn?) && ProperOperand(op, operand) && HoldsAt(args, n, ConditionArgs(op, operand))
    ensures ParseOperator(Onto(PrintOperator(op, operand, n), rest), args) == Done((op, operand), rest)
    ensures !Starts(Onto(PrintOperator(op, operand, n), rest), DOT)
  {
    InOnto(op, operand, n, rest);
    ListParses(n, operand.values, args, rest);
  }

  /** What a column starts with, and no other predicate does. */
  predicate Leads(t: Token) {
    !t.Word? && !t.Param?
  }

  lemma ConditionParses(c: Column, op: Op, operand: Operand, n: nat, args: seq<Operand>, rest: Tokens)
    requires ProperColumn(c) && ProperOperand(op, operand) && HoldsAt(args, n, ConditionArgs(op, operand))
    ensures ParseCondition(Onto(PrintColumn(c) + PrintOperator(op, operand, n), rest), args) ==
            Done(SqlCondition(c, op, operand), rest)
    ensures var ts := Onto(PrintColumn(c) + PrintOperator(op, operand, n), rest); ts.Tok? && Leads(ts.head)
  {
    OntoConcat(PrintColumn(c), PrintOperator(op, operand, n), rest);
    OperatorParses(op, operand, n, args, rest);
    ColumnParses(c, Onto(PrintOperator(op, operand, n), rest));
    ColumnStart(c, Onto(PrintOperator(op, operand, n), rest));
  }

  /** The first token of a column is none of the words a predicate starts with. */
  lemma ColumnStart(c: Column, rest: Tokens)
    ensures var ts := Onto(PrintColumn(c), rest); ts.Tok? && Leads(ts.head)
  {
    match c
    case Column(q, n) => NameOnto(q, n, rest);
    case CallOf(_, _, _, _, _) => CallOnto(c, rest);
  }

  // --- EXISTS ---

  lemma PairOnto(alias: string, p: OnPair, rest: Tokens)
    ensures Onto(PrintPair(alias, p), rest) ==
            Tok(Ident(alias), Tok(DOT, Tok(Ident(p.right), Tok(Cmp(Eq), Onto(PrintColumn(p.left), rest)))))
  {
    var tail := Onto(PrintColumn(p.left), rest);
    var head := [Ident(alias), DOT, Ident(p.right), Cmp(Eq)];
    OntoConcat(head, PrintColumn(p.left), rest);
    assert head[1..] == [DOT, Ident(p.right), Cmp(Eq)];
    OntoThree(DOT, Ident(p.right), Cmp(Eq), tail);
  }

  lemma PairParses(alias: string, p: OnPair, rest: Tokens)
    requires ProperColumn(p.left) && !Starts(rest, DOT)
    ensures IsPair(Onto(PrintPair(alias, p), rest), alias)
    ensures ParsePair(Onto(PrintPair(alias, p), rest), alias) == Done(p, rest)
  {
    PairOnto(alias, p, rest);
    ColumnStart(p.left, rest);
    ColumnParses(p.left, rest);
  }

  /** After the pairs comes the end, or a predicate of another shape. */
  predicate AfterPairs(alias: string, rest: Tokens) {
    !Starts(rest, DOT) && !(Starts(rest, AND) && IsPair(rest.tail, alias))
  }

  predicate ProperPairs(on: seq<OnPair>) {
    forall i :: 0 <= i < |on| ==> ProperColumn(on[i].left)
  }

  lemma MorePairsOnto(alias: string, on: seq<OnPair>, rest: Tokens)
    requires on != []
    ensures Onto(PrintMorePairs(alias, on), rest) ==
            Tok(AND, Onto(PrintPair(alias, on[0]), Onto(PrintMorePairs(alias, on[1..]), rest)))
  {
    var pair, more := PrintPair(alias, on[0]), PrintMorePairs(alias, on[1..]);
    OntoConcat([AND] + pair, more, rest);
    OntoConcat([AND], pair, Onto(more, rest));
    OntoOne(AND, Onto(pair, Onto(more, rest)));
  }

  lemma {:induction false} MorePairsParse(alias: string, on: seq<OnPair>, rest: Tokens)
    requires AfterPairs(alias, rest) && ProperPairs(on)
    ensures ParseMorePairs(alias, Onto(PrintMorePairs(alias, on), rest)) == (on, rest)
  {
    if on != [] {
      var more := Onto(PrintMorePairs(alias, on[1..]), rest);
      MorePairsParse(alias, on[1..], rest);
      MorePairsOnto(alias, on, rest);
      if on[1..] != [] {
        MorePairsOnto(alias, on[1..], rest);
      }
      PairParses(alias, on[0], more);
      MorePairsStep(alias, on, Onto(PrintPair(alias, on[0]), more), more, rest);
    }
  }

  lemma MorePairsStep(alias: string, on: seq<OnPair>, ts: Tokens, more: Tokens, rest: Tokens)
    requires on != [] && IsPair(ts, alias) && ParsePair(ts, alias) == Done(on[0], more)
    requires ParseMorePairs(alias, more) == (on[1..], rest)
    ensures ParseMorePairs(alias, Tok(AND, ts)) == (on, rest)
  {
    assert [on[0]] + on[1..] == on;
  }

  /** A condition's second operand is a placeholder, a pair's is a column. */
  lemma ConditionIsNoPair(alias: string, p: SqlPredicate, n: nat, rest: Tokens)
    requires p.SqlCondition?
    ensures !IsPair(Onto(Print(p, n), rest), alias)
  {
    var tail := Onto(PrintOperator(p.op, p.operand, n), rest);
    OntoConcat(PrintColumn(p.column), PrintOperator(p.op, p.operand, n), rest);
    if p.column.CallOf? {
      CallOnto(p.column, tail);
    } else {
      NameOnto(p.column.qualifier, p.column.name, tail);
      if p.op.In? || p.op.NotIn? {
        InOnto(p.op, p.operand, n, rest);
      } else if p.op.IsNull? {
        OntoOne(IS_NULL, rest);
      } else if p.op.IsNotNull? {
        OntoOne(IS_NOT_NULL, rest);
      } else {
        OntoTwo(Cmp(p.op), Param(n), rest);
      }
    }
  }

  lemma NotAPair(alias: string, p: SqlPredicate, n: nat, rest: Tokens)
    requires Proper(p)
    ensures !IsPair(Onto(Print(p, n), rest), alias)
  {
    if p.SqlCondition? {
      ConditionIsNoPair(alias, p, n, rest);
    }
  }

  lemma OnOnto(alias: string, on: seq<OnPair>, inner: SqlPredicate, n: nat, rest: Tokens)
    requires on != []
    ensures var tail := if inner.SqlNil? then rest else Tok(AND, Onto(Print(inner, n), rest));
            Onto(PrintOn(alias, on, inner, n), rest) ==
            Onto(PrintPair(alias, on[0]), Onto(PrintMorePairs(alias, on[1..]), tail))
  {
    var tail := if inner.SqlNil? then rest else Tok(AND, Onto(Print(inner, n), rest));
    var last := if inner.SqlNil? then [] else [AND] + Print(inner, n);
    OntoConcat(PrintPairs(alias, on), last, rest);
    OntoConcat([AND], Print(inner, n), rest);
    OntoOne(AND, Onto(Print(inner, n), rest));
    OntoConcat(PrintPair(alias, on[0]), PrintMorePairs(alias, on[1..]), tail);
  }

  lemma OnHeadParses(alias: string, on: seq<OnPair>, tail: Tokens)
    requires on != [] && AfterPairs(alias, tail) && ProperPairs(on)
    ensures var more := Onto(PrintMorePairs(alias, on[1..]), tail);
            var ts := Onto(PrintPair(alias, on[0]), more);
            && IsPair(ts, alias) && ParsePair(ts, alias) == Done(on[0], more)
            && ParseMorePairs(alias, more) == (on[1..], tail)
  {
    if on[1..] != [] {
      MorePairsOnto(alias, on[1..], tail);
    }
    PairParses(alias, on[0], Onto(PrintMorePairs(alias, on[1..]), tail));
    MorePairsParse(alias, on[1..], tail);
  }

  lemma {:induction false} OnParses(
    alias: string, on: seq<OnPair>, inner: SqlPredicate, n: nat, args: seq<Operand>, rest: Tokens)
    requires on != [] && ProperPairs(on) && (inner.SqlNil? || Proper(inner))
    requires HoldsAt(args, n, ArgsOf(inner)) && !Starts(rest, AND) && !Starts(rest, DOT)
    ensures ParseOn(alias, Onto(PrintOn(alias, on, inner, n), rest), args) == Done((on, Unwrapped(inner)), rest)
    decreases inner, 2
  {
    assert [on[0]] + on[1..] == on;
    OnOnto(alias, on, inner, n, rest);
    if inner.SqlNil? {
      OnHeadParses(alias, on, rest);
    } else {
      NotAPair(alias, inner, n, rest);
      OnHeadParses(alias, on, Tok(AND, Onto(Print(inner, n), rest)));
      PrintedReads(inner, n, args, rest);
    }
  }

  lemma {:induction false} ExpectOnto(words: seq<Token>, rest: Tokens)
    ensures Expect(Onto(words, rest), words) == Done((), rest)
  {
    if words != [] {
      ExpectOnto(words[1..], rest);
    }
  }

  lemma ExistsOnto(p: SqlPredicate, n: nat, rest: Tokens)
    requires p.SqlExists?
    ensures Onto(Print(p, n), rest) ==
            Onto(EXISTS_HEAD, Onto(PrintTable(p.relation), Tok(AS, Tok(Ident(p.alias), Tok(WHERE,
              Onto(PrintOn(p.alias, p.on, p.inner, n), Tok(CLOSE, rest)))))))
  {
    var table, on := PrintTable(p.relation), PrintOn(p.alias, p.on, p.inner, n);
    var words := [AS, Ident(p.alias), WHERE];
    var tail := Onto(on, Tok(CLOSE, rest));
    OntoConcat(EXISTS_HEAD + table + words + on, [CLOSE], rest);
    OntoOne(CLOSE, rest);
    OntoConcat(EXISTS_HEAD + table + words, on, Tok(CLOSE, rest));
    OntoConcat(EXISTS_HEAD + table, words, tail);
    OntoThree(AS, Ident(p.alias), WHERE, tail);
    OntoConcat(EXISTS_HEAD, table, Onto(words, tail));
  }

  lemma {:induction false} ExistsParses(p: SqlPredicate, n: nat, args: seq<Operand>, rest: Tokens)
    requires p.SqlExists? && Proper(p) && HoldsAt(args, n, ArgsOf(p))
    ensures ParseExists(Onto(Print(p, n), rest), args) == Done(Unwrapped(p), rest)
    ensures Starts(Onto(Print(p, n), rest), EXISTS)
    decreases p, 0
  {
    var tail := Tok(AS, Tok(Ident(p.alias), Tok(WHERE,
                  Onto(PrintOn(p.alias, p.on, p.inner, n), Tok(CLOSE, rest)))));
    ExistsOnto(p, n, rest);
    ExpectOnto(EXISTS_HEAD, Onto(PrintTable(p.relation), tail));
    NameParses(p.relation.schema, p.relation.name, tail);
    OnParses(p.alias, p.on, p.inner, n, args, Tok(CLOSE, rest));
    ExistsStep(Onto(Print(p, n), rest), Onto(PrintTable(p.relation), tail), tail, p.relation, p.alias, p.on,
        Unwrapped(p.inner), args, rest);
  }

  lemma ExistsStep(
    ts: Tokens, table: Tokens, tail: Tokens, relation: RelationRef, alias: string, on: seq<OnPair>, inner: SqlPredicate,
    args: seq<Operand>, rest: Tokens)
    requires Expect(ts, EXISTS_HEAD) == Done((), table) &&
             ParseName(table) == Done((relation.schema, relation.name), tail)
    requires Starts(tail, AS) && Starts(tail.tail, Ident(alias)) && Starts(tail.tail.tail, WHERE)
    requires ParseOn(alias, tail.tail.tail.tail, args) == Done((on, inner), Tok(CLOSE, rest))
    ensures ParseExists(ts, args) == Done(SqlExists(relation, alias, on, inner), rest)
  {
  }

  // --- AND and OR ---

  lemma AllOnto(sep: Token, ps: seq<SqlPredicate>, n: nat, rest: Tokens)
    requires ps != []
    ensures Onto(PrintAll(sep, ps, n), rest) ==
            Onto(Print(ps[0], n),
              if |ps| == 1 then rest else Tok(sep, Onto(PrintAll(sep, ps[1..], n + |ArgsOf(ps[0])|), rest)))
  {
    if |ps| == 1 {
      assert PrintAll(sep, ps, n) == Print(ps[0], n);
    } else {
      var more := PrintAll(sep, ps[1..], n + |ArgsOf(ps[0])|);
      OntoConcat(Print(ps[0], n), [sep] + more, rest);
      OntoConcat([sep], more, rest);
      OntoOne(sep, Onto(more, rest));
    }
  }

  lemma WrappedOnto(s: seq<Token>, rest: Tokens)
    ensures Onto([OPEN] + s + [CLOSE], rest) == Tok(OPEN, Onto(s, Tok(CLOSE, rest)))
  {
    OntoConcat([OPEN] + s, [CLOSE], rest);
    OntoOne(CLOSE, rest);
    OntoConcat([OPEN], s, Tok(CLOSE, rest));
    OntoOne(OPEN, Onto(s, Tok(CLOSE, rest)));
  }

  lemma WrappedParses(ts: Tokens, args: seq<Operand>, p: SqlPredicate, rest: Tokens)
    requires ParseOr(ts, args) == Done(p, Tok(CLOSE, rest))
    ensures ParseNot(Tok(OPEN, ts), args) == Done(p, rest)
  {
  }

  /** One conjunction, and no OR after it, is a disjunction. */
  lemma OneOr(ts: Tokens, args: seq<Operand>, ps: seq<SqlPredicate>, rest: Tokens)
    requires ParseAnds(ts, args) == Done(ps, rest) && !Starts(rest, OR)
    ensures ParseOr(ts, args) == Done(Combine(AND, ps), rest)
  {
    assert ParseOrs(ts, args) == Done([Combine(AND, ps)], rest);
  }

  predicate ReadsAs(p: SqlPredicate, n: nat, args: seq<Operand>, rest: Tokens) {
    Proper(p) && HoldsAt(args, n, ArgsOf(p)) ==>
      ParseNot(Onto(Print(p, n), rest), args) == Done(Unwrapped(p), rest)
  }

  lemma {:induction false} PrintedReads(p: SqlPredicate, n: nat, args: seq<Operand>, rest: Tokens)
    ensures ReadsAs(p, n, args, rest)
    decreases p, 1
  {
    if Proper(p) && HoldsAt(args, n, ArgsOf(p)) {
      match p
      case SqlCondition(c, op, operand) =>
        ConditionParses(c, op, operand, n, args, rest);
      case SqlAnd(ps) =>
        WrappedOnto(PrintAll(AND, ps, n), rest);
        SplitArgs(args, n, ps);
        AndsParse(ps, n, args, Tok(CLOSE, rest));
        OneOr(Onto(PrintAll(AND, ps, n), Tok(CLOSE, rest)), args, UnwrappedAll(ps), Tok(CLOSE, rest));
        WrappedParses(Onto(PrintAll(AND, ps, n), Tok(CLOSE, rest)), args, Unwrapped(p), rest);
      case SqlOr(ps) =>
        WrappedOnto(PrintAll(OR, ps, n), rest);
        SplitArgs(args, n, ps);
        OrsParse(ps, n, args, Tok(CLOSE, rest));
        WrappedParses(Onto(PrintAll(OR, ps, n), Tok(CLOSE, rest)), args, Unwrapped(p), rest);
      case SqlNot(q) =>
        OntoConcat([NOT], Print(q, n), rest);
        OntoOne(NOT, Onto(Print(q, n), rest));
        PrintedReads(q, n, args, rest);
      case SqlExists(_, _, _, _) =>
        ExistsParses(p, n, args, rest);
    }
  }

  /** Each operand's arguments are held, one after the other. */
  predicate HoldsAll(args: seq<Operand>, n: nat, ps: seq<SqlPredicate>)
    decreases ps
  {
    ps == [] || (HoldsAt(args, n, ArgsOf(ps[0])) && HoldsAll(args, n + |ArgsOf(ps[0])|, ps[1..]))
  }

  lemma {:induction false} SplitArgs(args: seq<Operand>, n: nat, ps: seq<SqlPredicate>)
    requires HoldsAt(args, n, ArgsOfAll(ps))
    ensures HoldsAll(args, n, ps)
    decreases ps
  {
    if ps != [] {
      SplitHolds(args, n, ArgsOf(ps[0]), ArgsOfAll(ps[1..]));
      SplitArgs(args, n + |ArgsOf(ps[0])|, ps[1..]);
    }
  }

  /** From the parse of the first operand, and of the others, that of all. */
  lemma AndsJoin(ps: seq<SqlPredicate>, n: nat, args: seq<Operand>, more: Tokens, rest: Tokens)
    requires |ps| > 1
    requires more == Onto(PrintAll(AND, ps[1..], n + |ArgsOf(ps[0])|), rest)
    requires ParseNot(Onto(Print(ps[0], n), Tok(AND, more)), args) == Done(Unwrapped(ps[0]), Tok(AND, more))
    requires ParseAnds(more, args) == Done(UnwrappedAll(ps[1..]), rest)
    ensures ParseAnds(Onto(PrintAll(AND, ps, n), rest), args) == Done(UnwrappedAll(ps), rest)
  {
    AllOnto(AND, ps, n, rest);
    UnwrappedOne(ps);
    AndsStep(Onto(Print(ps[0], n), Tok(AND, more)), args, Unwrapped(ps[0]), more, UnwrappedAll(ps[1..]), rest);
  }

  lemma AndsOne(ps: seq<SqlPredicate>, n: nat, args: seq<Operand>, rest: Tokens)
    requires |ps| == 1 && !Starts(rest, AND)
    requires ParseNot(Onto(Print(ps[0], n), rest), args) == Done(Unwrapped(ps[0]), rest)
    ensures ParseAnds(Onto(PrintAll(AND, ps, n), rest), args) == Done(UnwrappedAll(ps), rest)
  {
    AllOnto(AND, ps, n, rest);
    UnwrappedOne(ps);
    OneAnd(Onto(Print(ps[0], n), rest), args, Unwrapped(ps[0]), rest);
  }

  lemma {:induction false} AndsParse(ps: seq<SqlPredicate>, n: nat, args: seq<Operand>, rest: Tokens)
    requires ps != [] && ProperAll(ps) && HoldsAll(args, n, ps) && !Starts(rest, AND)
    ensures ParseAnds(Onto(PrintAll(AND, ps, n), rest), args) == Done(UnwrappedAll(ps), rest)
    decreases ps, 0
  {
    if |ps| == 1 {
      PrintedReads(ps[0], n, args, rest);
      AndsOne(ps, n, args, rest);
    } else {
      var k := n + |ArgsOf(ps[0])|;
      var more := Onto(PrintAll(AND, ps[1..], k), rest);
      PrintedReads(ps[0], n, args, Tok(AND, more));
      AndsParse(ps[1..], k, args, rest);
      AndsJoin(ps, n, args, more, rest);
    }
  }

  lemma UnwrappedOne(ps: seq<SqlPredicate>)
    requires ps != []
    ensures UnwrappedAll(ps) == [Unwrapped(ps[0])] + UnwrappedAll(ps[1..])
    ensures |ps| == 1 ==> UnwrappedAll(ps) == [Unwrapped(ps[0])]
  {
  }

  lemma AndsStep(ts: Tokens, args: seq<Operand>, p: SqlPredicate, more: Tokens, ps: seq<SqlPredicate>, rest: Tokens)
    requires ParseNot(ts, args) == Done(p, Tok(AND, more)) && ParseAnds(more, args) == Done(ps, rest)
    ensures ParseAnds(ts, args) == Done([p] + ps, rest)
  {
  }

  lemma OrsStep(ts: Tokens, args: seq<Operand>, p: SqlPredicate, more: Tokens, ps: seq<SqlPredicate>, rest: Tokens)
    requires ParseNot(ts, args) == Done(p, Tok(OR, more)) && ParseOrs(more, args) == Done(ps, rest)
    ensures ParseOrs(ts, args) == Done([p] + ps, rest)
  {
    OneAnd(ts, args, p, Tok(OR, more));
  }

  lemma OrsEnd(ts: Tokens, args: seq<Operand>, p: SqlPredicate, rest: Tokens)
    requires ParseNot(ts, args) == Done(p, rest) && !Starts(rest, AND) && !Starts(rest, OR)
    ensures ParseOrs(ts, args) == Done([p], rest)
  {
    OneAnd(ts, args, p, rest);
  }

  /** One operand, and no AND after it, is a conjunction. */
  lemma OneAnd(ts: Tokens, args: seq<Operand>, p: SqlPredicate, rest: Tokens)
    requires ParseNot(ts, args) == Done(p, rest) && !Starts(rest, AND)
    ensures ParseAnds(ts, args) == Done([p], rest) && Combine(AND, [p]) == p
  {
  }

  lemma OrsJoin(ps: seq<SqlPredicate>, n: nat, args: seq<Operand>, more: Tokens, rest: Tokens)
    requires |ps| > 1
    requires more == Onto(PrintAll(OR, ps[1..], n + |ArgsOf(ps[0])|), rest)
    requires ParseNot(Onto(Print(ps[0], n), Tok(OR, more)), args) == Done(Unwrapped(ps[0]), Tok(OR, more))
    requires ParseOrs(more, args) == Done(UnwrappedAll(ps[1..]), rest)
    ensures ParseOrs(Onto(PrintAll(OR, ps, n), rest), args) == Done(UnwrappedAll(ps), rest)
  {
    AllOnto(OR, ps, n, rest);
    UnwrappedOne(ps);
    OrsStep(Onto(Print(ps[0], n), Tok(OR, more)), args, Unwrapped(ps[0]), more, UnwrappedAll(ps[1..]), rest);
  }

  lemma OrsOne(ps: seq<SqlPredicate>, n: nat, args: seq<Operand>, rest: Tokens)
    requires |ps| == 1 && !Starts(rest, AND) && !Starts(rest, OR)
    requires ParseNot(Onto(Print(ps[0], n), rest), args) == Done(Unwrapped(ps[0]), rest)
    ensures ParseOrs(Onto(PrintAll(OR, ps, n), rest), args) == Done(UnwrappedAll(ps), rest)
  {
    AllOnto(OR, ps, n, rest);
    UnwrappedOne(ps);
    OrsEnd(Onto(Print(ps[0], n), rest), args, Unwrapped(ps[0]), rest);
  }

  lemma {:induction false} OrsParse(ps: seq<SqlPredicate>, n: nat, args: seq<Operand>, rest: Tokens)
    requires ps != [] && ProperAll(ps) && HoldsAll(args, n, ps) && !Starts(rest, AND) && !Starts(rest, OR)
    ensures ParseOrs(Onto(PrintAll(OR, ps, n), rest), args) == Done(UnwrappedAll(ps), rest)
    decreases ps, 0
  {
    if |ps| == 1 {
      PrintedReads(ps[0], n, args, rest);
      OrsOne(ps, n, args, rest);
    } else {
      var k := n + |ArgsOf(ps[0])|;
      var more := Onto(PrintAll(OR, ps[1..], k), rest);
      PrintedReads(ps[0], n, args, Tok(OR, more));
      OrsParse(ps[1..], k, args, rest);
      OrsJoin(ps, n, args, more, rest);
    }
  }

  /** Whatever follows it, a printed predicate parses back to itself, but for
      the parentheses around a single operand. */
  lemma PrintedParses(p: SqlPredicate, n: nat, args: seq<Operand>, rest: Tokens)
    requires Proper(p) && HoldsAt(args, n, ArgsOf(p))
    ensures ParseNot(Onto(Print(p, n), rest), args) == Done(Unwrapped(p), rest)
  {
    PrintedReads(p, n, args, rest);
  }
}
