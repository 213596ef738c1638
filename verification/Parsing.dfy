/** Reading a printed predicate back: the grammar or := and {OR and},
    and := not {AND not}, not := NOT not | primary. */
module Parsing {
  import opened Relalg
  import opened SqlSelect
  import opened Printing

  datatype Parsed<T> = Fail | Done(value: T, rest: Tokens) {
    predicate IsFailure() {
      Fail?
    }

    function PropagateFailure<U>(): Parsed<U>
      requires Fail?
    {
      Fail
    }

    function Extract(): (T, Tokens)
      requires Done?
    {
      (value, rest)
    }
  }

  predicate Starts(ts: Tokens, t: Token) {
    ts.Tok? && ts.head == t
  }

  // --- columns and conditions ---

  function ParseName(ts: Tokens): (r: Parsed<(string, string)>)
    ensures r.Done? ==> Len(r.rest) < Len(ts)
  {
    if ts.Tok? && ts.head.Ident? then
      if Starts(ts.tail, DOT) && ts.tail.tail.Tok? && ts.tail.tail.head.Ident? then
        assert Len(ts.tail) == 2 + Len(ts.tail.tail.tail);
        Done((ts.head.name, ts.tail.tail.head.name), ts.tail.tail.tail)
      else Done(("", ts.head.name), ts.tail)
    else Fail
  }

  function ParseCall(fn: AggFunc, distinct: bool, ts: Tokens): (r: Parsed<Column>)
    ensures r.Done? ==> Len(r.rest) < Len(ts)
  {
    if Starts(ts, ALL) then
      if Starts(ts.tail, CLOSE) then Done(CallOf(fn, distinct, true, "", ""), ts.tail.tail) else Fail
    else
      match ParseName(ts)
      case Fail => Fail
      case Done((q, n), rest) => if Starts(rest, CLOSE) then Done(CallOf(fn, distinct, false, q, n), rest.tail)
          else Fail
  }

  function ParseColumn(ts: Tokens): (r: Parsed<Column>)
    ensures r.Done? ==> Len(r.rest) < Len(ts)
  {
    if ts.Tok? && ts.head.Func? then
      if Starts(ts.tail, OPEN) then
        var body := ts.tail.tail;
        assert Len(body) < Len(ts.tail);
        if Starts(body, DISTINCT) then ParseCall(ts.head.fn, true, body.tail) else ParseCall(ts.head.fn, false, body)
      else Fail
    else
      match ParseName(ts)
      case Fail => Fail
      case Done((q, n), rest) => Done(Column(q, n), rest)
  }

  function ParseMoreParams(ts: Tokens): (r: (seq<nat>, Tokens))
    ensures Len(r.1) <= Len(ts)
  {
    if Starts(ts, COMMA) && ts.tail.Tok? && ts.tail.head.Param? then
      var (ks, rest) := ParseMoreParams(ts.tail.tail);
      ([ts.tail.head.index] + ks, rest)
    else ([], ts)
  }

  /** An IN list: its values are the arguments its placeholders name. */
  function ParseList(ts: Tokens, args: seq<Operand>): (r: Parsed<Operand>)
    ensures r.Done? ==> Len(r.rest) < Len(ts)
  {
    if Starts(ts, OPEN) && ts.tail.Tok? && ts.tail.head.Param? then
      var (ks, rest) := ParseMoreParams(ts.tail.tail);
      if Starts(rest, CLOSE) then
        match Bound([ts.tail.head.index] + ks, args)
        case None => Fail
        case Some(vs) => Done(List(vs), rest.tail)
      else Fail
    else Fail
  }

  function Bound(indices: seq<nat>, args: seq<Operand>): Option<seq<Value>> {
    if indices == [] then Some([])
    else if indices[0] < |args| && args[indices[0]].Scalar? then
      match Bound(indices[1..], args)
      case None => None
      case Some(vs) => Some([args[indices[0]].value] + vs)
    else None
  }

  function ParseOperator(ts: Tokens, args: seq<Operand>): (r: Parsed<(Op, Operand)>)
    ensures r.Done? ==> Len(r.rest) < Len(ts)
  {
    if Starts(ts, IS_NULL) then Done((IsNull, Scalar(Null)), ts.tail)
    else if Starts(ts, IS_NOT_NULL) then Done((IsNotNull, Scalar(Null)), ts.tail)
    else if Starts(ts, IN) then
      match ParseList(ts.tail, args)
      case Fail => Fail
      case Done(operand, rest) => Done((In, operand), rest)
    else if Starts(ts, NOT) && Starts(ts.tail, IN) then
      match ParseList(ts.tail.tail, args)
      case Fail => Fail
      case Done(operand, rest) => Done((NotIn, operand), rest)
    else if ts.Tok? && ts.head.Cmp? && ts.tail.Tok? && ts.tail.head.Param? && ts.tail.head.index < |args| then
      Done((ts.head.op, args[ts.tail.head.index]), ts.tail.tail)
    else Fail
  }

  function ParseCondition(ts: Tokens, args: seq<Operand>): (r: Parsed<SqlPredicate>)
    ensures r.Done? ==> Len(r.rest) < Len(ts)
  {
    match ParseColumn(ts)
    case Fail => Fail
    case Done(c, rest) =>
      match ParseOperator(rest, args)
      case Fail => Fail
      case Done((op, operand), end) => Done(SqlCondition(c, op, operand), end)
  }

  // --- predicates ---

  function Combine(op: Token, ps: seq<SqlPredicate>): SqlPredicate {
    if |ps| == 1 then ps[0] else if op == AND then SqlAnd(ps) else SqlOr(ps)
  }

  function ParseOr(ts: Tokens, args: seq<Operand>): (r: Parsed<SqlPredicate>)
    ensures r.Done? ==> Len(r.rest) < Len(ts)
    decreases Len(ts), 5
  {
    match ParseOrs(ts, args)
    case Fail => Fail
    case Done(ps, rest) => Done(Combine(OR, ps), rest)
  }

  function ParseOrs(ts: Tokens, args: seq<Operand>): (r: Parsed<seq<SqlPredicate>>)
    ensures r.Done? ==> Len(r.rest) < Len(ts)
    decreases Len(ts), 4
  {
    match ParseAnds(ts, args)
    case Fail => Fail
    case Done(ps, rest) =>
      var p := Combine(AND, ps);
      if Starts(rest, OR) then
        match ParseOrs(rest.tail, args)
        case Fail => Fail
        case Done(qs, end) => Done([p] + qs, end)
      else Done([p], rest)
  }

  function ParseAnds(ts: Tokens, args: seq<Operand>): (r: Parsed<seq<SqlPredicate>>)
    ensures r.Done? ==> Len(r.rest) < Len(ts)
    decreases Len(ts), 3
  {
    match ParseNot(ts, args)
    case Fail => Fail
    case Done(p, rest) =>
      if Starts(rest, AND) then
        match ParseAnds(rest.tail, args)
        case Fail => Fail
        case Done(ps, end) => Done([p] + ps, end)
      else Done([p], rest)
  }

  function ParseNot(ts: Tokens, args: seq<Operand>): (r: Parsed<SqlPredicate>)
    ensures r.Done? ==> Len(r.rest) < Len(ts)
    decreases Len(ts), 1
  {
    if Starts(ts, NOT) then
      match ParseNot(ts.tail, args)
      case Fail => Fail
      case Done(p, rest) => Done(SqlNot(p), rest)
    else if Starts(ts, OPEN) then
      match ParseOr(ts.tail, args)
      case Fail => Fail
      case Done(p, rest) => if Starts(rest, CLOSE) then Done(p, rest.tail) else Fail
    else if Starts(ts, EXISTS) then ParseExists(ts, args)
    else ParseCondition(ts, args)
  }

  /** A pair equates two columns; a condition ends in a placeholder. */
  predicate IsPair(ts: Tokens, alias: string) {
    && Starts(ts, Ident(alias)) && Starts(ts.tail, DOT)
    && ts.tail.tail.Tok? && ts.tail.tail.head.Ident?
    && Starts(ts.tail.tail.tail, Cmp(Eq))
    && ts.tail.tail.tail.tail.Tok? && !ts.tail.tail.tail.tail.head.Param?
  }

  function ParsePair(ts: Tokens, alias: string): (r: Parsed<OnPair>)
    requires IsPair(ts, alias)
    ensures r.Done? ==> Len(r.rest) < Len(ts)
  {
    assert Len(ts.tail.tail.tail.tail) <= Len(ts.tail.tail);
    match ParseColumn(ts.tail.tail.tail.tail)
    case Fail => Fail
    case Done(c, rest) => Done(OnPair(ts.tail.tail.head.name, c), rest)
  }

  function ParseMorePairs(alias: string, ts: Tokens): (r: (seq<OnPair>, Tokens))
    ensures Len(r.1) <= Len(ts)
    decreases Len(ts)
  {
    if Starts(ts, AND) && IsPair(ts.tail, alias) then
      match ParsePair(ts.tail, alias)
      case Fail => ([], ts)
      case Done(p, rest) =>
        var (ps, more) := ParseMorePairs(alias, rest);
        ([p] + ps, more)
    else ([], ts)
  }

  function ParseOn(alias: string, ts: Tokens, args: seq<Operand>): (r: Parsed<(seq<OnPair>, SqlPredicate)>)
    ensures r.Done? ==> Len(r.rest) < Len(ts)
    decreases Len(ts), 2
  {
    if !IsPair(ts, alias) then Fail
    else
      match ParsePair(ts, alias)
      case Fail => Fail
      case Done(p, rest) =>
        var (ps, more) := ParseMorePairs(alias, rest);
        if Starts(more, AND) then
          match ParseNot(more.tail, args)
          case Fail => Fail
          case Done(q, end) => Done(([p] + ps, q), end)
        else Done(([p] + ps, SqlNil), more)
  }

  function Expect(ts: Tokens, words: seq<Token>): (r: Parsed<()>)
    ensures r.Done? ==> Len(r.rest) <= Len(ts)
  {
    if words == [] then Done((), ts)
    else if Starts(ts, words[0]) then Expect(ts.tail, words[1..])
    else Fail
  }

  function ParseExists(ts: Tokens, args: seq<Operand>): (r: Parsed<SqlPredicate>)
    ensures r.Done? ==> Len(r.rest) < Len(ts)
    decreases Len(ts), 0
  {
    match Expect(ts, EXISTS_HEAD)
    case Fail => Fail
    case Done(_, table) =>
      match ParseName(table)
      case Fail => Fail
      case Done((schema, name), rest) =>
        if Starts(rest, AS) && rest.tail.Tok? && rest.tail.head.Ident? && Starts(rest.tail.tail, WHERE) then
          assert Len(rest.tail.tail.tail) <= Len(rest.tail);
          match ParseOn(rest.tail.head.name, rest.tail.tail.tail, args)
          case Fail => Fail
          case Done((on, inner), more) =>
            if Starts(more, CLOSE) then
              Done(SqlExists(RelationRef(schema, name), rest.tail.head.name, on, inner), more.tail)
            else Fail
        else Fail
  }

  // --- what can be printed ---

  /** A column as the renderer writes one. */
  predicate ProperColumn(c: Column) {
    c.CallOf? && c.star ==> c.qualifier == "" && c.name == ""
  }

  predicate ProperOperand(op: Op, operand: Operand) {
    match op
    case IsNull => operand == Scalar(Null)
    case IsNotNull => operand == Scalar(Null)
    case In => operand.List? && operand.values != []
    case NotIn => operand.List? && operand.values != []
    case _ => true
  }

  predicate Proper(p: SqlPredicate)
    decreases p, 1
  {
    match p
    case SqlNil => false
    case SqlCondition(c, op, operand) => ProperColumn(c) && ProperOperand(op, operand)
    case SqlAnd(ps) => ps != [] && ProperAll(ps)
    case SqlOr(ps) => ps != [] && ProperAll(ps)
    case SqlNot(q) => Proper(q)
    case SqlExists(_, _, on, inner) =>
      on != [] && (forall i :: 0 <= i < |on| ==> ProperColumn(on[i].left)) && (inner.SqlNil? || Proper(inner))
  }

  predicate ProperAll(ps: seq<SqlPredicate>)
    decreases ps, 0
  {
    ps == [] || (Proper(ps[0]) && ProperAll(ps[1..]))
  }

  /** p without the parentheses around a single operand. */
  function Unwrapped(p: SqlPredicate): SqlPredicate
    decreases p, 1
  {
    match p
    case SqlAnd(ps) => Combine(AND, UnwrappedAll(ps))
    case SqlOr(ps) => Combine(OR, UnwrappedAll(ps))
    case SqlNot(q) => SqlNot(Unwrapped(q))
    case SqlExists(relation, alias, on, inner) => SqlExists(relation, alias, on, Unwrapped(inner))
    case _ => p
  }

  function UnwrappedAll(ps: seq<SqlPredicate>): (qs: seq<SqlPredicate>)
    ensures |qs| == |ps|
    decreases ps, 0
  {
    if ps == [] then [] else [Unwrapped(ps[0])] + UnwrappedAll(ps[1..])
  }

  /** The two have the same three-valued meaning, on every database. */
  lemma {:induction false} UnwrappedMeans(db: Db, from: string, ctx: Ctx, p: SqlPredicate)
    ensures Truth3(db, from, ctx, Unwrapped(p)) == Truth3(db, from, ctx, p)
    decreases p, 1
  {
    match p
    case SqlAnd(ps) => UnwrappedMeanAll(db, from, ctx, ps); CombineMeans(db, from, ctx, AND, UnwrappedAll(ps));
    case SqlOr(ps) => UnwrappedMeanAll(db, from, ctx, ps); CombineMeans(db, from, ctx, OR, UnwrappedAll(ps));
    case SqlNot(q) => UnwrappedMeans(db, from, ctx, q);
    case SqlExists(relation, alias, on, inner) =>
      forall row ensures Truth3(db, "", Inside(from, ctx, alias, row), Unwrapped(inner)) ==
                         Truth3(db, "", Inside(from, ctx, alias, row), inner)
      {
        UnwrappedMeans(db, "", Inside(from, ctx, alias, row), inner);
      }
    case _ =>
  }

  lemma CombineMeans(db: Db, from: string, ctx: Ctx, op: Token, ps: seq<SqlPredicate>)
    requires op == AND || op == OR
    ensures Truth3(db, from, ctx, Combine(op, ps)) ==
            if op == AND then AndAll(Truths(db, from, ctx, ps)) else OrAll(Truths(db, from, ctx, ps))
  {
    if |ps| == 1 {
      assert Truths(db, from, ctx, ps)[1..] == [];
    }
  }

  lemma {:induction false} UnwrappedMeanAll(db: Db, from: string, ctx: Ctx, ps: seq<SqlPredicate>)
    ensures Truths(db, from, ctx, UnwrappedAll(ps)) == Truths(db, from, ctx, ps)
    decreases ps, 0
  {
    if ps != [] {
      UnwrappedMeans(db, from, ctx, ps[0]);
      UnwrappedMeanAll(db, from, ctx, ps[1..]);
      assert UnwrappedAll(ps)[1..] == UnwrappedAll(ps[1..]);
    }
  }
}
