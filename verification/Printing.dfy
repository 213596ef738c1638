/** The text of a statement, as tokens, with the arguments its placeholders
    bind; and a parser of predicates, NOT binding tighter than AND and AND
    tighter than OR, which reads a printed predicate back. */
module Printing {
  import opened Relalg
  import opened SqlSelect

  /** Word is a keyword or a mark; Param is a bound placeholder, by its position
      among the arguments. */
  datatype Token =
    | Word(keyword: nat)
    | Ident(name: string)
    | Param(index: nat)
    | Cmp(op: Op)
    | Func(fn: AggFunc)
    | Numeral(n: int)

  /** A token stream, as the parser reads it. */
  datatype Tokens = End | Tok(head: Token, tail: Tokens)

  function Len(ts: Tokens): nat {
    if ts.End? then 0 else 1 + Len(ts.tail)
  }

  /** The tokens s, then rest. */
  function Onto(s: seq<Token>, rest: Tokens): Tokens {
    if s == [] then rest else Tok(s[0], Onto(s[1..], rest))
  }

  lemma {:induction false} OntoConcat(s: seq<Token>, t: seq<Token>, rest: Tokens)
    ensures Onto(s + t, rest) == Onto(s, Onto(t, rest))
  {
    if s == [] {
      assert s + t == t;
    } else {
      assert (s + t)[1..] == s[1..] + t;
      OntoConcat(s[1..], t, rest);
    }
  }

  lemma OntoOne(t: Token, rest: Tokens)
    ensures Onto([t], rest) == Tok(t, rest)
  {
  }

  const DOT := Word(0)
  const OPEN := Word(1)
  const CLOSE := Word(2)
  const COMMA := Word(3)
  const ALL := Word(4)
  const AND := Word(5)
  const OR := Word(6)
  const NOT := Word(7)
  const EXISTS := Word(8)
  const IN := Word(9)
  const IS_NULL := Word(10)
  const IS_NOT_NULL := Word(11)
  const SELECT := Word(12)
  const DISTINCT := Word(13)
  const FROM := Word(14)
  const AS := Word(15)
  const LEFT_JOIN := Word(16)
  const ON := Word(17)
  const WHERE := Word(18)
  const GROUP_BY := Word(19)
  const HAVING := Word(20)
  const ORDER_BY := Word(21)
  const CASE_WHEN := Word(22)
  const THEN := Word(23)
  const ELSE := Word(24)
  const END := Word(25)
  const ASC := Word(26)
  const DESC := Word(27)
  const NULLS_LAST := Word(28)
  const LIMIT := Word(29)
  const OFFSET := Word(30)
  const INSERT_INTO := Word(31)
  const VALUES := Word(32)
  const RETURNING := Word(33)
  const UPDATE := Word(34)
  const SET := Word(35)
  const DELETE_FROM := Word(36)
  const CALL := Word(37)
  const EXISTS_HEAD := [EXISTS, OPEN, SELECT, Numeral(1), FROM]

  // --- printing ---

  function PrintName(qualifier: string, name: string): seq<Token> {
    if qualifier == "" then [Ident(name)] else [Ident(qualifier), DOT, Ident(name)]
  }

  function PrintColumn(c: Column): (ts: seq<Token>)
    ensures forall t :: t in ts ==> !t.Param?
  {
    match c
    case Column(q, n) => PrintName(q, n)
    case CallOf(fn, distinct, star, q, n) =>
      [Func(fn), OPEN]
      + (if distinct then [DISTINCT] else [])
      + (if star then [ALL] else PrintName(q, n))
      + [CLOSE]
  }

  function PrintTable(r: RelationRef): seq<Token> {
    PrintName(r.schema, r.name)
  }

  /** k placeholders from n on, separated by commas. */
  function PrintParams(n: nat, k: nat): seq<Token> {
    if k == 0 then [] else [Param(n)] + PrintMoreParams(n + 1, k - 1)
  }

  function PrintMoreParams(n: nat, k: nat): seq<Token>
    decreases k
  {
    if k == 0 then [] else [COMMA, Param(n)] + PrintMoreParams(n + 1, k - 1)
  }

  function PrintTuple(n: nat, k: nat): seq<Token> {
    [OPEN] + PrintParams(n, k) + [CLOSE]
  }

  function Scalars(vs: seq<Value>): (os: seq<Operand>)
    ensures |os| == |vs|
    ensures forall i :: 0 <= i < |vs| ==> os[i] == Scalar(vs[i])
  {
    if vs == [] then [] else [Scalar(vs[0])] + Scalars(vs[1..])
  }

  function ConditionArgs(op: Op, operand: Operand): seq<Operand> {
    match op
    case IsNull => []
    case IsNotNull => []
    case In => if operand.List? then Scalars(operand.values) else []
    case NotIn => if operand.List? then Scalars(operand.values) else []
    case _ => [operand]
  }

  function PrintOperator(op: Op, operand: Operand, n: nat): seq<Token> {
    match op
    case IsNull => [IS_NULL]
    case IsNotNull => [IS_NOT_NULL]
    case In => [IN] + PrintTuple(n, |ConditionArgs(op, operand)|)
    case NotIn => [NOT, IN] + PrintTuple(n, |ConditionArgs(op, operand)|)
    case _ => [Cmp(op), Param(n)]
  }

  function PrintPair(alias: string, p: OnPair): seq<Token> {
    [Ident(alias), DOT, Ident(p.right), Cmp(Eq)] + PrintColumn(p.left)
  }

  function PrintMorePairs(alias: string, on: seq<OnPair>): seq<Token> {
    if on == [] then [] else [AND] + PrintPair(alias, on[0]) + PrintMorePairs(alias, on[1..])
  }

  function PrintPairs(alias: string, on: seq<OnPair>): seq<Token> {
    if on == [] then [] else PrintPair(alias, on[0]) + PrintMorePairs(alias, on[1..])
  }

  function ArgsOf(p: SqlPredicate): seq<Operand>
    decreases p, 1
  {
    match p
    case SqlNil => []
    case SqlCondition(_, op, operand) => ConditionArgs(op, operand)
    case SqlAnd(ps) => ArgsOfAll(ps)
    case SqlOr(ps) => ArgsOfAll(ps)
    case SqlNot(q) => ArgsOf(q)
    case SqlExists(_, _, _, inner) => ArgsOf(inner)
  }

  function ArgsOfAll(ps: seq<SqlPredicate>): seq<Operand>
    decreases ps, 0
  {
    if ps == [] then [] else ArgsOf(ps[0]) + ArgsOfAll(ps[1..])
  }

  /** p, its placeholders numbered from n on. */
  function Print(p: SqlPredicate, n: nat): seq<Token>
    decreases p, 2
  {
    match p
    case SqlNil => []
    case SqlCondition(c, op, operand) => PrintColumn(c) + PrintOperator(op, operand, n)
    case SqlAnd(ps) => [OPEN] + PrintAll(AND, ps, n) + [CLOSE]
    case SqlOr(ps) => [OPEN] + PrintAll(OR, ps, n) + [CLOSE]
    case SqlNot(q) => [NOT] + Print(q, n)
    case SqlExists(relation, alias, on, inner) =>
      EXISTS_HEAD + PrintTable(relation) + [AS, Ident(alias), WHERE] + PrintOn(alias, on, inner, n) + [CLOSE]
  }

  /** The condition joining alias: its pairs, and its own predicate if any. */
  function PrintOn(alias: string, on: seq<OnPair>, inner: SqlPredicate, n: nat): seq<Token>
    decreases inner, 3
  {
    PrintPairs(alias, on) + (if inner.SqlNil? then [] else [AND] + Print(inner, n))
  }

  function PrintAll(sep: Token, ps: seq<SqlPredicate>, n: nat): seq<Token>
    decreases ps, 1
  {
    if ps == [] then []
    else Print(ps[0], n) + (if |ps| == 1 then [] else [sep] + PrintAll(sep, ps[1..], n + |ArgsOf(ps[0])|))
  }

  // --- placeholders in textual order ---

  function Params(ts: seq<Token>): seq<nat> {
    if ts == [] then []
    else (if ts[0].Param? then [ts[0].index] else []) + Params(ts[1..])
  }

  /** n, n + 1, and so on: k of them. */
  function Range(n: nat, k: nat): seq<nat>
    decreases k
  {
    if k == 0 then [] else [n] + Range(n + 1, k - 1)
  }

  /** The placeholder after those of ts, which must count on from n; -1 when
      they do not. */
  function Next(ts: seq<Token>, n: int): (m: int)
    ensures n >= 0 ==> m == -1 || m >= n
  {
    if ts == [] || n < 0 then n
    else if !ts[0].Param? then Next(ts[1..], n)
    else if ts[0].index == n then Next(ts[1..], n + 1)
    else -1
  }

  lemma {:induction false} NextMeans(ts: seq<Token>, n: nat, k: nat)
    ensures Next(ts, n) == n + k <==> Params(ts) == Range(n, k)
  {
    if ts != [] {
      if !ts[0].Param? {
        NextMeans(ts[1..], n, k);
      } else if ts[0].index != n || k == 0 {
        assert Params(ts)[0] == ts[0].index;
      } else {
        NextMeans(ts[1..], n + 1, k - 1);
        assert Params(ts)[1..] == Params(ts[1..]);
        assert Range(n, k)[1..] == Range(n + 1, k - 1);
      }
    }
  }

  lemma {:induction false} NextConcat(s: seq<Token>, t: seq<Token>, n: int)
    ensures Next(s + t, n) == Next(t, Next(s, n))
  {
    if s == [] {
      assert s + t == t;
    } else if n >= 0 {
      assert (s + t)[1..] == s[1..] + t;
      NextConcat(s[1..], t, if s[0].Param? then n + 1 else n);
    }
  }

  lemma NextPlain(s: seq<Token>, n: int)
    requires forall t :: t in s ==> !t.Param?
    ensures Next(s, n) == n
  {
  }

  lemma NextColumn(c: Column, n: int)
    ensures Next(PrintColumn(c), n) == n
  {
    NextPlain(PrintColumn(c), n);
  }

  lemma {:induction false} NextOfMore(n: nat, k: nat)
    ensures Next(PrintMoreParams(n, k), n) == n + k
    decreases k
  {
    if k > 0 {
      NextOfMore(n + 1, k - 1);
      assert ([COMMA, Param(n)] + PrintMoreParams(n + 1, k - 1))[1..] == [Param(n)] + PrintMoreParams(n + 1, k - 1);
      assert ([Param(n)] + PrintMoreParams(n + 1, k - 1))[1..] == PrintMoreParams(n + 1, k - 1);
    }
  }

  lemma NextOfParams(n: nat, k: nat)
    ensures Next(PrintParams(n, k), n) == n + k
  {
    if k > 0 {
      NextOfMore(n + 1, k - 1);
      assert PrintParams(n, k)[1..] == PrintMoreParams(n + 1, k - 1);
    }
  }

  lemma NextWrapped(s: seq<Token>, n: int)
    ensures Next([OPEN] + s + [CLOSE], n) == Next(s, n)
  {
    NextConcat([OPEN] + s, [CLOSE], n);
    NextConcat([OPEN], s, n);
  }

  lemma TupleBinds(n: nat, k: nat)
    ensures Next(PrintTuple(n, k), n) == n + k
  {
    NextOfParams(n, k);
    NextWrapped(PrintParams(n, k), n);
  }

  lemma NextOfOperator(op: Op, operand: Operand, n: nat)
    ensures Next(PrintOperator(op, operand, n), n) == n + |ConditionArgs(op, operand)|
  {
    var k := |ConditionArgs(op, operand)|;
    if op.In? || op.NotIn? {
      var head := if op.In? then [IN] else [NOT, IN];
      NextPlain(head, n);
      TupleBinds(n, k);
      NextConcat(head, PrintTuple(n, k), n);
    } else if op.IsNull? || op.IsNotNull? {
      NextPlain(PrintOperator(op, operand, n), n);
    } else {
      NextPlain([Cmp(op)], n);
      NextConcat([Cmp(op)], [Param(n)], n);
      assert [Cmp(op)] + [Param(n)] == PrintOperator(op, operand, n);
      assert Next([Param(n)], n) == Next([], n + 1);
    }
  }

  lemma NextOfPair(alias: string, p: OnPair, n: int)
    ensures Next(PrintPair(alias, p), n) == n
  {
    var head := [Ident(alias), DOT, Ident(p.right), Cmp(Eq)];
    NextConcat(head, PrintColumn(p.left), n);
    NextPlain(head, n);
    NextColumn(p.left, n);
  }

  lemma {:induction false} NextOfMorePairs(alias: string, on: seq<OnPair>, n: int)
    ensures Next(PrintMorePairs(alias, on), n) == n
  {
    if on != [] {
      NextOfPair(alias, on[0], n);
      NextOfMorePairs(alias, on[1..], n);
      NextConcat([AND] + PrintPair(alias, on[0]), PrintMorePairs(alias, on[1..]), n);
      NextConcat([AND], PrintPair(alias, on[0]), n);
    }
  }

  lemma NextOfPairs(alias: string, on: seq<OnPair>, n: int)
    ensures Next(PrintPairs(alias, on), n) == n
  {
    if on != [] {
      NextOfPair(alias, on[0], n);
      NextOfMorePairs(alias, on[1..], n);
      NextConcat(PrintPair(alias, on[0]), PrintMorePairs(alias, on[1..]), n);
    }
  }

  lemma NextOfTable(word: Token, r: RelationRef, words: seq<Token>, n: int)
    requires !word.Param? && forall t :: t in words ==> !t.Param?
    ensures Next([word] + PrintTable(r) + words, n) == n
  {
    NextPlain([word] + PrintTable(r) + words, n);
  }

  /** The placeholders of a printed predicate are, in the order they are
      written, those of its arguments. */
  lemma {:induction false} PrintBinds(p: SqlPredicate, n: nat)
    ensures Next(Print(p, n), n) == n + |ArgsOf(p)|
    decreases p, 2
  {
    match p
    case SqlNil =>
    case SqlCondition(c, op, operand) =>
      NextColumn(c, n);
      NextOfOperator(op, operand, n);
      NextConcat(PrintColumn(c), PrintOperator(op, operand, n), n);
    case SqlAnd(ps) =>
      PrintAllBinds(AND, ps, n);
      NextWrapped(PrintAll(AND, ps, n), n);
    case SqlOr(ps) =>
      PrintAllBinds(OR, ps, n);
      NextWrapped(PrintAll(OR, ps, n), n);
    case SqlNot(q) =>
      PrintBinds(q, n);
      NextConcat([NOT], Print(q, n), n);
    case SqlExists(relation, alias, on, inner) =>
      PrintOnBinds(alias, on, inner, n);
      NextOfExists(relation, alias, PrintOn(alias, on, inner, n), n);
  }

  lemma NextOfExists(relation: RelationRef, alias: string, on: seq<Token>, n: int)
    ensures Next(EXISTS_HEAD + PrintTable(relation) + [AS, Ident(alias), WHERE] + on + [CLOSE], n) ==
            Next(on, n)
  {
    var head := EXISTS_HEAD + PrintTable(relation) + [AS, Ident(alias), WHERE];
    NextPlain(head, n);
    NextConcat(head, on, n);
    NextConcat(head + on, [CLOSE], n);
  }

  lemma {:induction false} PrintOnBinds(alias: string, on: seq<OnPair>, inner: SqlPredicate, n: nat)
    ensures Next(PrintOn(alias, on, inner, n), n) == n + |ArgsOf(inner)|
    decreases inner, 3
  {
    NextOfPairs(alias, on, n);
    NextConcat(PrintPairs(alias, on), if inner.SqlNil? then [] else [AND] + Print(inner, n), n);
    if !inner.SqlNil? {
      PrintBinds(inner, n);
      NextConcat([AND], Print(inner, n), n);
    }
  }

  lemma PrintAllOne(sep: Token, ps: seq<SqlPredicate>, n: nat)
    requires |ps| == 1
    ensures PrintAll(sep, ps, n) == Print(ps[0], n) && ArgsOfAll(ps) == ArgsOf(ps[0])
  {
  }

  lemma NextOfMany(sep: Token, ps: seq<SqlPredicate>, n: nat)
    requires !sep.Param? && |ps| > 1
    ensures Next(PrintAll(sep, ps, n), n) ==
            Next(PrintAll(sep, ps[1..], n + |ArgsOf(ps[0])|), Next(Print(ps[0], n), n))
  {
    var more, k := PrintAll(sep, ps[1..], n + |ArgsOf(ps[0])|), Next(Print(ps[0], n), n);
    NextConcat(Print(ps[0], n), [sep] + more, n);
    NextConcat([sep], more, k);
    NextPlain([sep], k);
  }

  lemma {:induction false} PrintAllBinds(sep: Token, ps: seq<SqlPredicate>, n: nat)
    requires !sep.Param?
    ensures Next(PrintAll(sep, ps, n), n) == n + |ArgsOfAll(ps)|
    decreases ps, 1
  {
    if |ps| == 1 {
      PrintBinds(ps[0], n);
      PrintAllOne(sep, ps, n);
    } else if |ps| > 1 {
      PrintBinds(ps[0], n);
      PrintAllBinds(sep, ps[1..], n + |ArgsOf(ps[0])|);
      NextOfMany(sep, ps, n);
    }
  }
}
