/** The SELECT a chain renders as returns the chain's rows: for every database,
    and whichever way the dialect puts NULLs last. */
module SelectCorrect {
  import opened Lists
  import opened Texts
  import opened Relalg
  import opened SqlSelect
  import opened Flatten
  import opened Resolve
  import opened SortKeys

  // --- what the names must not do ---

  predicate DotFree(s: string) {
    '.' !in s
  }

  /** name is cut to the alias it starts with: no alias holds a dot before it. */
  predicate Clear(aliases: set<string>, name: string) {
    forall a :: a in aliases && a + "." <= name ==> DotFree(a)
  }

  predicate ClearIn(aliases: set<string>, p: Predicate)
    decreases p, 1
  {
    match p
    case Condition(f, _, _) => Clear(aliases, f)
    case Exists(_, on, _) => forall i :: 0 <= i < |on| ==> Clear(aliases, on[i].left)
    case And(ps) => ClearInAll(aliases, ps)
    case Or(ps) => ClearInAll(aliases, ps)
    case Not(q) => ClearIn(aliases, q)
    case Nil => true
  }

  predicate ClearInAll(aliases: set<string>, ps: seq<Predicate>)
    decreases ps, 0
  {
    ps == [] || (ClearIn(aliases, ps[0]) && ClearInAll(aliases, ps[1..]))
  }

  /** How many EXISTS p has. */
  function Nestings(p: Predicate): nat
    decreases p, 1
  {
    match p
    case Exists(_, _, _) => 1
    case And(ps) => NestingsAll(ps)
    case Or(ps) => NestingsAll(ps)
    case Not(q) => Nestings(q)
    case _ => 0
  }

  function NestingsAll(ps: seq<Predicate>): nat
    decreases ps, 0
  {
    if ps == [] then 0 else Nestings(ps[0]) + NestingsAll(ps[1..])
  }

  lemma {:induction false} ResolvedCount(ns: Names, outputs: seq<AggCall>, p: Predicate, k: nat)
    requires Flat(p)
    ensures Resolved(ns, outputs, p, k).1 == k + Nestings(p)
    decreases p, 1
  {
    match p
    case And(ps) => ResolvedCountAll(ns, outputs, ps, k);
    case Or(ps) => ResolvedCountAll(ns, outputs, ps, k);
    case Not(q) => ResolvedCount(ns, outputs, q, k);
    case _ =>
  }

  lemma {:induction false} ResolvedCountAll(ns: Names, outputs: seq<AggCall>, ps: seq<Predicate>, k: nat)
    requires FlatAll(ps)
    ensures ResolvedAll(ns, outputs, ps, k).1 == k + NestingsAll(ps)
    decreases ps, 0
  {
    if ps != [] {
      ResolvedCount(ns, outputs, ps[0], k);
      ResolvedCountAll(ns, outputs, ps[1..], k + Nestings(ps[0]));
    }
  }

  /** No EXISTS of p, k coming before, compares a column its own alias hides. */
  predicate Uncaptured(ns: Names, p: Predicate, k: nat)
    decreases p, 1
  {
    match p
    case Exists(_, on, _) => forall i :: 0 <= i < |on| ==> Col(ns, on[i].left).qualifier != ExistsAlias(k + 1)
    case And(ps) => UncapturedAll(ns, ps, k)
    case Or(ps) => UncapturedAll(ns, ps, k)
    case Not(q) => Uncaptured(ns, q, k)
    case _ => true
  }

  predicate UncapturedAll(ns: Names, ps: seq<Predicate>, k: nat)
    decreases ps, 0
  {
    ps == [] || (Uncaptured(ns, ps[0], k) && UncapturedAll(ns, ps[1..], k + Nestings(ps[0])))
  }

  /** Join aliases are not the read's own, and a join compares columns already
      joined. */
  predicate JoinsInScope(c: Clauses) {
    && (forall i :: 0 <= i < |c.joins| ==> c.joins[i].alias != c.scanAlias)
    && (forall i, m, n :: 0 <= i <= m < |c.joins| && 0 <= n < |c.joins[i].on| ==>
          Col(NamesOf(c), c.joins[i].on[n].left).qualifier != c.joins[m].alias)
    && (forall i, n :: 0 <= i < |c.joins| && 0 <= n < |c.joins[i].on| ==>
       Clear(Aliases(c.joins[..i]), c.joins[i].on[n].left))
  }

  /** What flattening checks of the aliases. */
  predicate JoinsApart(c: Clauses) {
    && (forall i :: 0 <= i < |c.joins| ==> c.joins[i].alias != "" && c.joins[i].alias != ROOT_ALIAS)
    && (forall i, k :: 0 <= i < k < |c.joins| ==> c.joins[i].alias != c.joins[k].alias)
  }

  predicate JoinsSound(c: Clauses) {
    JoinsInScope(c) && JoinsApart(c)
  }

  /** A column HAVING or ORDER BY may name of an aggregate: a group-by field or
      a call. */
  predicate OutputName(c: Clauses, name: string) {
    name in c.groupBy || Named(c.aggregates, name) >= 0
  }

  /** A column the EXISTS in HAVING that k come before may compare: a group-by
      field that no call takes the name of, and its alias does not hide. */
  predicate GroupField(c: Clauses, name: string, k: nat) {
    name in c.groupBy && Named(c.aggregates, name) < 0 && Col(NamesOf(c), name).qualifier != ExistsAlias(k + 1)
  }

  /** The condition is true of every value or of none, on every database. */
  predicate Blind(op: Op, operand: Operand) {
    match op
    case IsNull => false
    case IsNotNull => false
    case In => operand.List? ==> forall i :: 0 <= i < |operand.values| ==> operand.values[i].Null?
    case NotIn => operand.List? ==>
        operand.values == [] || exists i :: 0 <= i < |operand.values| && operand.values[i].Null?
    case OtherOp(_) => true
    case _ => operand.Scalar? ==> operand.value.Null?
  }

  predicate OutputNames(c: Clauses, p: Predicate, k: nat)
    decreases p, 1
  {
    match p
    case Condition(f, _, _) => OutputName(c, f)
    case And(ps) => OutputNamesAll(c, ps, k)
    case Or(ps) => OutputNamesAll(c, ps, k)
    case Not(q) => OutputNames(c, q, k)
    case Exists(_, on, _) => forall i :: 0 <= i < |on| ==> GroupField(c, on[i].left, k)
    case Nil => true
  }

  predicate OutputNamesAll(c: Clauses, ps: seq<Predicate>, k: nat)
    decreases ps, 0
  {
    ps == [] || (OutputNames(c, ps[0], k) && OutputNamesAll(c, ps[1..], k + Nestings(ps[0])))
  }

  /** The first output a plain read renames to name, |c.cols| when there is
      none: ORDER BY takes a name for an output's before a column's. */
  function RenamedTo(c: Clauses, name: string): (i: nat)
    ensures i <= |c.cols|
  {
    PositionByAlias(ProjectColumns(NamesOf(c), c.cols), Col(NamesOf(c), name))
  }

  /** The field ORDER BY name sorts by. */
  function SortField(c: Clauses, name: string): string {
    if !Aggregates(c) && RenamedTo(c, name) < |c.cols| then c.cols[RenamedTo(c, name)].field else name
  }

  function SortTerm(c: Clauses, t: OrderTerm): OrderTerm {
    t.(field := SortField(c, t.field))
  }

  /** The terms by what the statement sorts them by. */
  function SortTerms(c: Clauses, terms: seq<OrderTerm>): (ts: seq<OrderTerm>)
    ensures |ts| == |terms| && forall i :: 0 <= i < |terms| ==> ts[i] == SortTerm(c, terms[i])
  {
    if terms == [] then [] else [SortTerm(c, terms[0])] + SortTerms(c, terms[1..])
  }

  /** An order term names a column of the aggregate; or, of distinct plain rows,
      one they select. */
  predicate TermSelected(c: Clauses, t: OrderTerm) {
    if Aggregates(c) then OutputName(c, t.field)
    else
      c.distinct ==>
        if c.cols != [] then RenamedTo(c, t.field) < |c.cols| || t.field in ItemFields(c.cols)
        else Col(NamesOf(c), t.field).qualifier == NamesOf(c).root
  }

  /** No two groups tie on the first n terms: they name every group-by field, and
      no call takes its name. */
  predicate Separates(c: Clauses, n: nat)
    requires n <= |c.order|
  {
    forall k :: 0 <= k < |c.groupBy| ==>
      Named(c.aggregates, c.groupBy[k]) < 0 && exists i :: 0 <= i < n && c.order[i].field == c.groupBy[k]
  }

  /** An order term that may be none of these: it comes after what orders every
      group. */
  predicate Idle(c: Clauses, n: nat)
    requires n <= |c.order|
  {
    Aggregates(c) && !c.distinct && Separates(c, n)
  }

  predicate TermsSelected(c: Clauses) {
    forall i :: 0 <= i < |c.order| ==> TermSelected(c, c.order[i]) || Idle(c, i)
  }

  predicate GroupsClear(c: Clauses) {
    && (forall i :: 0 <= i < |c.groupBy| ==> Clear(Aliases(c.joins), c.groupBy[i]))
    && (forall i :: 0 <= i < |c.aggregates| ==> Clear(Aliases(c.joins), c.aggregates[i].field))
  }

  predicate OrderClear(c: Clauses, t: OrderTerm) {
    !Aggregates(c) ==> Clear(Aliases(c.joins), SortField(c, t.field))
  }

  /** Every name is cut to the alias it starts with. */
  predicate NamesClear(c: Clauses) {
    && ClearInAll(Aliases(c.joins), c.wheres) && GroupsClear(c)
    && (forall i :: 0 <= i < |c.cols| ==> Clear(Aliases(c.joins), c.cols[i].field))
    && (forall i :: 0 <= i < |c.order| ==> OrderClear(c, c.order[i]))
  }

  predicate NamesSound(c: Clauses) {
    JoinsSound(c) && NamesClear(c)
  }

  /** HAVING keeps the groups it keeps in the chain. */
  predicate HavingKept(c: Clauses) {
    OutputNames(c, c.having, NestingsAll(c.wheres)) || (c.having.Condition? && Blind(c.having.op, c.having.operand))
  }

  /** Every name but an order term's means in the statement what it means in
      the chain. */
  predicate Placed(c: Clauses) {
    JoinsInScope(c) && NamesClear(c) && UncapturedAll(NamesOf(c), c.wheres, 0) && HavingKept(c)
  }

  /** The order shows what it shows in the chain: the terms that decide it are
      the same by the fields ORDER BY takes them for. */
  predicate OrderKept(c: Clauses) {
    Deciding(c.order, Shown(c.cols), {}) == Deciding(SortTerms(c, c.order), Shown(c.cols), {})
  }

  /** Every name of the chain means in the statement what it means in the chain. */
  predicate Unambiguous(c: Clauses) {
    Placed(c) && TermsSelected(c) && OrderKept(c)
  }

  /** What flattening gives of a chain's clauses. */
  ghost predicate Assembled(c: Clauses) {
    JoinsApart(c) && (!Aggregates(c) ==> c.having.Nil?) && (Aggregates(c) ==> c.cols == [])
  }

  /** What flattening gives of it. */
  lemma {:induction false} FlattenedNames(e: Expr)
    requires FlattenInput(e).Ok? && Shaped(e)
    ensures Assembled(FlattenInput(e).value)
  {
    FlattenedWithin(e);
    match e
    case Scan(_, _) =>
    case Select(input, _) => FlattenedNames(input);
    case Project(input, _) => FlattenedNames(input);
    case Aggregate(input, _, _) => FlattenedNames(input); FlattenedWithin(input);
    case Having(input, _) => FlattenedNames(input);
    case Sort(input, _) => FlattenedNames(input);
    case Limit(input, _, _) => FlattenedNames(input);
    case Distinct(input) => FlattenedNames(input);
    case Join(input, _, alias, _, _) =>
      FlattenedNames(input);
      var c := FlattenInput(input).value;
      assert forall i :: 0 <= i < |c.joins| ==> c.joins[i].alias in Aliases(c.joins);
  }

  // --- rows ---

  /** env as the rows of the read's relations by alias. */
  function FramesOf(from: string, env: Env): Frames {
    env.joined[from := env.own]
  }

  lemma PrefixIsCut(a: string, name: string)
    requires DotFree(a)
    ensures a + "." <= name <==> Find(name, '.') == |a| < |name| && name[..|a|] == a
  {
    if a + "." <= name {
      assert name[|a|] == (a + ".")[|a|];
      assert name[..|a|] == a;
      FindUnique(name, '.', |a|);
    }
    if Find(name, '.') == |a| < |name| && name[..|a|] == a {
      assert a + "." == name[..|a| + 1];
    }
  }

  lemma LookupOnly(env: Env, name: string, a: string)
    requires a in env.joined && a + "." <= name && forall b :: b in env.joined && b + "." <= name ==> b == a
    ensures Lookup(env, name) == Get(env.joined[a], name[|a| + 1..])
  {
  }

  lemma LookupOwn(env: Env, name: string)
    requires forall b :: b in env.joined ==> !(b + "." <= name)
    ensures Lookup(env, name) == Get(env.own, name)
  {
  }

  lemma CutJoined(env: Env, name: string, a: string)
    requires Clear(env.joined.Keys, name) && a in env.joined && Find(name, '.') == |a| < |name| && name[..|a|] == a
    ensures Lookup(env, name) == Get(env.joined[a], name[|a| + 1..])
  {
    hide Lookup;
    forall b | b in env.joined && b + "." <= name ensures b == a {
      PrefixIsCut(b, name);
    }
    assert DotFree(a);
    PrefixIsCut(a, name);
    LookupOnly(env, name, a);
  }

  lemma CutOwn(env: Env, name: string)
    requires Clear(env.joined.Keys, name)
    requires var i := Find(name, '.'); !(i < |name| && name[..i] in env.joined)
    ensures Lookup(env, name) == Get(env.own, name)
  {
    hide Lookup;
    forall b | b in env.joined ensures !(b + "." <= name) {
      if DotFree(b) {
        PrefixIsCut(b, name);
      }
    }
    LookupOwn(env, name);
  }

  /** A name refers to the one alias it is cut to. */
  lemma LookupCut(env: Env, name: string)
    requires Clear(env.joined.Keys, name)
    ensures var i := Find(name, '.');
            Lookup(env, name) ==
            if i < |name| && name[..i] in env.joined then Get(env.joined[name[..i]], name[i + 1..])
            else Get(env.own, name)
  {
    hide Lookup, Clear;
    var i := Find(name, '.');
    if i < |name| && name[..i] in env.joined {
      CutJoined(env, name, name[..i]);
    } else {
      CutOwn(env, name);
    }
  }

  /** The qualified column is the one the name refers to, whatever rows the
      joins so far (a subset of all) found. */
  lemma LookupResolved(ns: Names, from: string, env: Env, name: string)
    requires forall a :: a in ns.joins ==> a != "" && a != from
    requires env.joined.Keys <= ns.joins && Clear(env.joined.Keys, name)
    requires ns.root == "" || ns.root == from
    requires Col(ns, name).qualifier in ns.joins - env.joined.Keys ==> Col(ns, name).qualifier == ns.root
    ensures Lookup(env, name) == ColumnOf(from, FramesOf(from, env), Col(ns, name).qualifier, Col(ns, name).name)
  {
    LookupCut(env, name);
  }

  lemma {:induction false} ScopedMeans(db: Db, from: string, ctx: Ctx, alias: string, row: Row, p: Predicate)
    requires !HasExists(p) && alias != "" && Frame(Representative(ctx), alias) == row
    ensures Truth3(db, from, ctx, Scoped(alias, p)) == Meaning(db, Env(row, map[]), p)
    decreases p, 1
  {
    match p
    case Nil =>
    case Condition(f, op, operand) =>
    case And(ps) => ScopedMeanAll(db, from, ctx, alias, row, ps);
    case Or(ps) => ScopedMeanAll(db, from, ctx, alias, row, ps);
    case Not(q) => ScopedMeans(db, from, ctx, alias, row, q);
  }

  lemma {:induction false} ScopedMeanAll(db: Db, from: string, ctx: Ctx, alias: string, row: Row, ps: seq<Predicate>)
    requires !AnyExists(ps) && alias != "" && Frame(Representative(ctx), alias) == row
    ensures Truths(db, from, ctx, ScopedAll(alias, ps)) == Meanings(db, Env(row, map[]), ps)
    decreases ps, 0
  {
    if ps != [] {
      assert forall i :: 0 < i < |ps| ==> ps[i] == ps[1..][i-1];
      assert ScopedAll(alias, ps)[1..] == ScopedAll(alias, ps[1..]);
      ScopedMeans(db, from, ctx, alias, row, ps[0]);
      ScopedMeanAll(db, from, ctx, alias, row, ps[1..]);
    }
  }

  // --- EXISTS ---

  /** No EXISTS of p reads a relation with a column named as a bare one it
      compares: SQL would take the name for the relation's own. */
  ghost predicate Unshadowed(db: Db, ns: Names, p: Predicate)
    decreases p, 1
  {
    match p
    case Exists(relation, on, _) => forall i :: 0 <= i < |on| ==> NoneHas(db, relation, Col(ns, on[i].left))
    case And(ps) => UnshadowedAll(db, ns, ps)
    case Or(ps) => UnshadowedAll(db, ns, ps)
    case Not(q) => Unshadowed(db, ns, q)
    case _ => true
  }

  ghost predicate UnshadowedAll(db: Db, ns: Names, ps: seq<Predicate>)
    decreases ps, 0
  {
    ps == [] || (Unshadowed(db, ns, ps[0]) && UnshadowedAll(db, ns, ps[1..]))
  }

  ghost predicate NoneHas(db: Db, relation: RelationRef, c: Column) {
    c.Column? && c.qualifier == "" ==> forall k :: 0 <= k < |db.table(relation)| ==> c.name !in db.table(relation)[k]
  }

  /** Nothing is bare in a read that has an EXISTS. */
  lemma {:induction false} QualifiedUnshadowed(db: Db, ns: Names, p: Predicate)
    requires HasExists(p) ==> ns.root != "" && "" !in ns.joins
    ensures Unshadowed(db, ns, p)
    decreases p, 1
  {
    match p
    case And(ps) => QualifiedUnshadowedAll(db, ns, ps);
    case Or(ps) => QualifiedUnshadowedAll(db, ns, ps);
    case Not(q) => QualifiedUnshadowed(db, ns, q);
    case _ =>
  }

  lemma {:induction false} QualifiedUnshadowedAll(db: Db, ns: Names, ps: seq<Predicate>)
    requires AnyExists(ps) ==> ns.root != "" && "" !in ns.joins
    ensures UnshadowedAll(db, ns, ps)
    decreases ps, 0
  {
    if ps != [] {
      assert forall i :: 0 < i < |ps| ==> ps[i] == ps[1..][i-1];
      QualifiedUnshadowed(db, ns, ps[0]);
      QualifiedUnshadowedAll(db, ns, ps[1..]);
    }
  }

  /** An outer column inside an EXISTS that neither its alias nor its relation
      hides. */
  lemma OuterColumn(db: Db, from: string, ctx: Ctx, alias: string, row: Row, c: Column)
    requires c.Column? && c.qualifier != alias && alias != "" && (c.qualifier == "" ==> c.name !in row)
    ensures ColumnValue(db, "", Inside(from, ctx, alias, row), c) == ColumnValue(db, from, ctx, c)
  {
  }

  /** The subquery keeps the row that the predicate asks for. */
  ghost predicate ExistsRow(
    db: Db, from: string, env: Env, ctx: Ctx, alias: string, pairs: seq<OnPair>, scoped: SqlPredicate,
    on: seq<JoinPair>, inner: Predicate, row: Row)
  {
    && OnPairsTrue(db, "", Inside(from, ctx, alias, row), pairs, row) == OnTrue(db, env, on, row)
    && Truth3(db, "", Inside(from, ctx, alias, row), scoped) == Meaning(db, Env(row, map[]), inner)
  }

  lemma ExistsRows(
    db: Db, from: string, env: Env, ctx: Ctx, relation: RelationRef, alias: string, pairs: seq<OnPair>,
    scoped: SqlPredicate, on: seq<JoinPair>, inner: Predicate)
    requires forall i :: 0 <= i < |db.table(relation)| ==>
               ExistsRow(db, from, env, ctx, alias, pairs, scoped, on, inner, db.table(relation)[i])
    ensures Truth3(db, from, ctx, SqlExists(relation, alias, pairs, scoped)) ==
            Meaning(db, env, Exists(relation, on, inner))
  {
    hide Inside, OnPairsTrue, OnTrue, ConditionTruth, Lookup;
    var rows := db.table(relation);
    assert forall i :: 0 <= i < |rows| ==> ExistsRow(db, from, env, ctx, alias, pairs, scoped, on, inner, rows[i]);
  }

  /** An EXISTS means what it means in the chain when its outer columns do, and
      nothing of its own hides them: over rows or over groups. */
  lemma ExistsMeans(
    db: Db, ns: Names, from: string, ctx: Ctx, env: Env, relation: RelationRef, on: seq<JoinPair>, inner: Predicate,
    k: nat)
    requires !HasExists(inner)
    requires forall i :: 0 <= i < |on| ==>
             Col(ns, on[i].left).qualifier != ExistsAlias(k + 1) && NoneHas(db, relation, Col(ns, on[i].left))
    requires forall i :: 0 <= i < |on| ==> ColumnValue(db, from, ctx, Col(ns, on[i].left)) == Lookup(env, on[i].left)
    ensures var alias := ExistsAlias(k + 1);
            Truth3(db, from, ctx, SqlExists(relation, alias, OnPairs(ns, on), Scoped(alias, inner))) ==
            Meaning(db, env, Exists(relation, on, inner))
  {
    var alias, rows := ExistsAlias(k + 1), db.table(relation);
    var pairs, scoped := OnPairs(ns, on), Scoped(alias, inner);
    forall i | 0 <= i < |rows| ensures ExistsRow(db, from, env, ctx, alias, pairs, scoped, on, inner, rows[i]) {
      ExistsOnPairs(db, ns, from, ctx, env, alias, on, rows[i]);
      ScopedMeans(db, "", Inside(from, ctx, alias, rows[i]), alias, rows[i], inner);
    }
    ExistsRows(db, from, env, ctx, relation, alias, pairs, scoped, on, inner);
  }

  lemma ExistsOnPairs(db: Db, ns: Names, from: string, ctx: Ctx, env: Env, alias: string, on: seq<JoinPair>, row: Row)
    requires alias != ""
    requires forall i :: 0 <= i < |on| ==>
               var c := Col(ns, on[i].left); c.qualifier != alias && (c.qualifier == "" ==> c.name !in row)
    requires forall i :: 0 <= i < |on| ==> ColumnValue(db, from, ctx, Col(ns, on[i].left)) == Lookup(env, on[i].left)
    ensures OnPairsTrue(db, "", Inside(from, ctx, alias, row), OnPairs(ns, on), row) == OnTrue(db, env, on, row)
  {
    forall i | 0 <= i < |on|
      ensures ColumnValue(db, "", Inside(from, ctx, alias, row), OnPairs(ns, on)[i].left) == Lookup(env, on[i].left)
    {
      OuterColumn(db, from, ctx, alias, row, Col(ns, on[i].left));
    }
  }

  // --- predicates on a row ---

  /** The names and rows of a read: every join found a row or none. */
  ghost predicate EachJoined(ns: Names, from: string, env: Env) {
    && (forall a :: a in ns.joins ==> a != "" && a != from)
    && env.joined.Keys == ns.joins
    && (ns.root == "" || ns.root == from)
  }

  lemma {:induction false} ResolvedMeans(db: Db, ns: Names, from: string, env: Env, p: Predicate, k: nat)
    requires Flat(p) && ClearIn(ns.joins, p) && Uncaptured(ns, p, k) && Unshadowed(db, ns, p) &&
             EachJoined(ns, from, env)
    ensures Truth3(db, from, RowCtx(FramesOf(from, env)), Resolved(ns, [], p, k).0) == Meaning(db, env, p)
    decreases p, 1
  {
    match p
    case Nil =>
    case Condition(f, op, operand) => LookupResolved(ns, from, env, f);
    case And(ps) => ResolvedMeanAll(db, ns, from, env, ps, k);
    case Or(ps) => ResolvedMeanAll(db, ns, from, env, ps, k);
    case Not(q) => ResolvedMeans(db, ns, from, env, q, k);
    case Exists(relation, on, inner) => RowExistsMeans(db, ns, from, env, relation, on, inner, k);
  }

  lemma RowExistsMeans(
    db: Db, ns: Names, from: string, env: Env, relation: RelationRef, on: seq<JoinPair>, inner: Predicate, k: nat)
    requires !HasExists(inner) && EachJoined(ns, from, env) &&
             (forall i :: 0 <= i < |on| ==> Clear(ns.joins, on[i].left))
    requires forall i :: 0 <= i < |on| ==>
             Col(ns, on[i].left).qualifier != ExistsAlias(k + 1) && NoneHas(db, relation, Col(ns, on[i].left))
    ensures var alias := ExistsAlias(k + 1);
            Truth3(db, from, RowCtx(FramesOf(from, env)),
                SqlExists(relation, alias, OnPairs(ns, on), Scoped(alias, inner))) ==
            Meaning(db, env, Exists(relation, on, inner))
  {
    forall i | 0 <= i < |on|
      ensures ColumnValue(db, from, RowCtx(FramesOf(from, env)), Col(ns, on[i].left)) == Lookup(env, on[i].left)
    {
      LookupResolved(ns, from, env, on[i].left);
    }
    ExistsMeans(db, ns, from, RowCtx(FramesOf(from, env)), env, relation, on, inner, k);
  }

  lemma {:induction false} ResolvedMeanAll(db: Db, ns: Names, from: string, env: Env, ps: seq<Predicate>, k: nat)
    requires FlatAll(ps) && ClearInAll(ns.joins, ps) && UncapturedAll(ns, ps, k) && UnshadowedAll(db, ns, ps) &&
             EachJoined(ns, from, env)
    ensures Truths(db, from, RowCtx(FramesOf(from, env)), ResolvedAll(ns, [], ps, k).0) == Meanings(db, env, ps)
    decreases ps, 0
  {
    if ps != [] {
      var n := Resolved(ns, [], ps[0], k).1;
      ResolvedCount(ns, [], ps[0], k);
      ResolvedMeans(db, ns, from, env, ps[0], k);
      ResolvedMeanAll(db, ns, from, env, ps[1..], n);
      assert ResolvedAll(ns, [], ps, k).0[1..] == ResolvedAll(ns, [], ps[1..], n).0;
    }
  }

  // --- FROM and LEFT JOIN ---

  ghost function Framed(from: string): Record -> Frames {
    (r: Record) => FramesOf(from, r.env)
  }

  ghost function Sources(db: Db, c: Clauses, n: nat): seq<Record>
    requires n <= |c.joins|
  {
    JoinRows(db, c.joins[..n], ScanRows(db, c.relation))
  }

  lemma SourcesStep(db: Db, c: Clauses, n: nat)
    requires 0 < n <= |c.joins|
    ensures Sources(db, c, n) == FlatMap(JoinPartRow(db, c.joins[n-1]), Sources(db, c, n-1))
    ensures Aliases(c.joins[..n]) == Aliases(c.joins[..n-1]) + {c.joins[n-1].alias}
  {
    assert c.joins[..n][..n-1] == c.joins[..n-1];
    var s := Aliases(c.joins[..n]);
    forall a | a in s ensures a in Aliases(c.joins[..n-1]) + {c.joins[n-1].alias} {
      var i :| 0 <= i < n && c.joins[..n][i].alias == a;
      assert i < n-1 ==> c.joins[..n-1][i].alias == a;
    }
    forall a | a in Aliases(c.joins[..n-1]) + {c.joins[n-1].alias} ensures a in s {
      if a in Aliases(c.joins[..n-1]) {
        var i :| 0 <= i < n-1 && c.joins[..n-1][i].alias == a;
        assert c.joins[..n][i].alias == a;
      } else {
        assert c.joins[..n][n-1].alias == a;
      }
    }
  }

  ghost predicate SourceRecord(joins: seq<JoinPart>, r: Record) {
    r.env.joined.Keys == Aliases(joins) && r.out == Whole(r.env.own)
  }

  lemma JoinRowMember(db: Db, j: JoinPart, s: Record, r: Record)
    requires r in JoinPartRow(db, j)(s)
    ensures r.env.joined.Keys == s.env.joined.Keys + {j.alias} && r.env.own == s.env.own && r.out == s.out
  {
    var rows := OrNone(Filter(Matching(db, s.env, j.on, j.pred), db.table(j.right)));
    var i :| 0 <= i < |rows| && r == Map(Joining(s, j.alias), rows)[i];
  }

  lemma {:induction false} SourcesJoined(db: Db, c: Clauses, n: nat, r: Record)
    requires n <= |c.joins| && r in Sources(db, c, n)
    ensures SourceRecord(c.joins[..n], r)
  {
    if n > 0 {
      SourcesStep(db, c, n);
      var s := FlatMapMember(JoinPartRow(db, c.joins[n-1]), Sources(db, c, n-1), r);
      SourcesJoined(db, c, n-1, s);
      JoinRowMember(db, c.joins[n-1], s, r);
    } else {
      var i :| 0 <= i < |ScanRows(db, c.relation)| && r == ScanRows(db, c.relation)[i];
    }
  }

  lemma OnPairAgrees(db: Db, c: Clauses, n: nat, env: Env, row: Row, i: nat)
    requires JoinsSound(c) && n < |c.joins| && i < |c.joins[n].on|
    requires env.joined.Keys == Aliases(c.joins[..n])
    ensures var ns, from, j := NamesOf(c), FromAlias(c), c.joins[n];
            ColumnValue(db, from, Extend(RowCtx(FramesOf(from, env)), j.alias, row), Col(ns, j.on[i].left)) ==
            Lookup(env, j.on[i].left)
  {
    var ns, from, j := NamesOf(c), FromAlias(c), c.joins[n];
    var q := Col(ns, j.on[i].left).qualifier;
    assert q != j.alias;
    assert q !in ns.joins - env.joined.Keys by {
      if q in ns.joins {
        var m :| 0 <= m < |c.joins| && c.joins[m].alias == q;
        assert m < n;
        assert c.joins[..n][m].alias == q;
      }
    }
    assert env.joined.Keys <= ns.joins by {
      forall a | a in env.joined.Keys ensures a in ns.joins {
        var m :| 0 <= m < n && c.joins[..n][m].alias == a;
        assert c.joins[m].alias == a;
      }
    }
    LookupResolved(ns, from, env, j.on[i].left);
  }

  lemma OnAgrees(db: Db, c: Clauses, n: nat, env: Env, row: Row)
    requires JoinsSound(c) && n < |c.joins|
    requires env.joined.Keys == Aliases(c.joins[..n])
    ensures var j := c.joins[n];
            OnPairsTrue(db, FromAlias(c), Extend(RowCtx(FramesOf(FromAlias(c), env)), j.alias, row),
                OnPairs(NamesOf(c), j.on), row) ==
            OnTrue(db, env, j.on, row)
  {
    var ns, from, j := NamesOf(c), FromAlias(c), c.joins[n];
    forall i | 0 <= i < |j.on|
      ensures ColumnValue(db, from, Extend(RowCtx(FramesOf(from, env)), j.alias, row), Col(ns, j.on[i].left)) ==
              Lookup(env, j.on[i].left)
    {
      OnPairAgrees(db, c, n, env, row, i);
    }
  }

  lemma MatchingAgrees(db: Db, c: Clauses, n: nat, env: Env, row: Row)
    requires JoinsSound(c) && Renderable(c) && n < |c.joins|
    requires env.joined.Keys == Aliases(c.joins[..n])
    ensures SqlMatching(db, FromAlias(c), SqlJoins(NamesOf(c), c.joins)[n], FramesOf(FromAlias(c), env))(row) ==
            Matching(db, env, c.joins[n].on, c.joins[n].pred)(row)
  {
    OnAgrees(db, c, n, env, row);
    var j := c.joins[n];
    ScopedMeans(db, FromAlias(c), Extend(RowCtx(FramesOf(FromAlias(c), env)), j.alias, row), j.alias, row, j.pred);
  }

  lemma JoiningFrames(from: string, r: Record, alias: string, row: Row)
    requires alias != from
    ensures Framed(from)(Joining(r, alias)(row)) == SqlJoining(FramesOf(from, r.env), alias)(row)
  {
  }

  lemma FoundAgrees(db: Db, c: Clauses, n: nat, env: Env)
    requires JoinsSound(c) && Renderable(c) && n < |c.joins|
    requires env.joined.Keys == Aliases(c.joins[..n])
    ensures var rows := db.table(c.joins[n].right);
            Filter(Matching(db, env, c.joins[n].on, c.joins[n].pred), rows) ==
            Filter(SqlMatching(db, FromAlias(c), SqlJoins(NamesOf(c), c.joins)[n], FramesOf(FromAlias(c), env)), rows)
  {
    var j, from, sj := c.joins[n], FromAlias(c), SqlJoins(NamesOf(c), c.joins)[n];
    var p, q := Matching(db, env, j.on, j.pred), SqlMatching(db, from, sj, FramesOf(from, env));
    forall row | row in db.table(j.right) ensures p(row) == q(row) {
      MatchingAgrees(db, c, n, env, row);
    }
    FilterCong(p, q, db.table(j.right));
  }

  lemma JoinRowAgrees(db: Db, c: Clauses, n: nat, r: Record)
    requires JoinsSound(c) && Renderable(c) && n < |c.joins|
    requires r.env.joined.Keys == Aliases(c.joins[..n])
    ensures var from := FromAlias(c);
            SqlJoinRow(db, from, SqlJoins(NamesOf(c), c.joins)[n])(FramesOf(from, r.env)) ==
            Map(Framed(from), JoinPartRow(db, c.joins[n])(r))
  {
    var j, from, sj := c.joins[n], FromAlias(c), SqlJoins(NamesOf(c), c.joins)[n];
    FoundAgrees(db, c, n, r.env);
    var rows := OrNone(Filter(Matching(db, r.env, j.on, j.pred), db.table(j.right)));
    forall row | row in rows
      ensures Framed(from)(Joining(r, j.alias)(row)) == SqlJoining(FramesOf(from, r.env), j.alias)(row)
    {
      JoiningFrames(from, r, j.alias, row);
    }
    MapCompose(Joining(r, j.alias), Framed(from), SqlJoining(FramesOf(from, r.env), j.alias), rows);
  }

  /** q's FROM is that of the clauses. */
  predicate FromOf(q: Query, c: Clauses)
    requires Renderable(c)
  {
    q.relation == c.relation && q.alias == FromAlias(c) && q.joins == SqlJoins(NamesOf(c), c.joins)
  }

  lemma FromRowAgrees(db: Db, c: Clauses, q: Query, n: nat, r: Record)
    requires JoinsSound(c) && Renderable(c) && n < |c.joins| && FromOf(q, c) && r in Sources(db, c, n)
    ensures SqlJoinRow(db, q.alias, q.joins[n])(Framed(q.alias)(r)) ==
            Map(Framed(q.alias), JoinPartRow(db, c.joins[n])(r))
  {
    SourcesJoined(db, c, n, r);
    JoinRowAgrees(db, c, n, r);
  }

  lemma FromStep(db: Db, c: Clauses, q: Query, n: nat, rs: seq<Record>, frames: seq<Frames>)
    requires JoinsSound(c) && Renderable(c) && n < |c.joins| && FromOf(q, c)
    requires rs == Sources(db, c, n) && frames == Map(Framed(q.alias), rs)
    ensures FlatMap(SqlJoinRow(db, q.alias, q.joins[n]), frames) ==
            Map(Framed(q.alias), FlatMap(JoinPartRow(db, c.joins[n]), rs))
  {
    var h, g := JoinPartRow(db, c.joins[n]), SqlJoinRow(db, q.alias, q.joins[n]);
    forall r | r in rs ensures g(Framed(q.alias)(r)) == Map(Framed(q.alias), h(r)) {
      FromRowAgrees(db, c, q, n, r);
    }
    FlatMapOfMap(Framed(q.alias), h, g, rs);
  }

  lemma FromScanned(db: Db, c: Clauses, q: Query)
    requires Renderable(c) && FromOf(q, c)
    ensures FromRows(db, q, 0) == Map(Framed(FromAlias(c)), Sources(db, c, 0))
  {
    MapCompose(Scanned(), Framed(q.alias), SqlJoining(map[], q.alias), db.table(c.relation));
  }

  lemma FromJoined(db: Db, c: Clauses, q: Query, n: nat)
    requires JoinsSound(c) && Renderable(c) && 0 < n <= |c.joins| && FromOf(q, c)
    requires FromRows(db, q, n-1) == Map(Framed(FromAlias(c)), Sources(db, c, n-1))
    ensures FromRows(db, q, n) == Map(Framed(FromAlias(c)), Sources(db, c, n))
  {
    hide JoinsSound, FromRows, Sources, FlatMap;
    FromStep(db, c, q, n-1, Sources(db, c, n-1), FromRows(db, q, n-1));
    FromRowsUnfold(db, q, n);
    SourcesStep(db, c, n);
  }

  lemma FromRowsUnfold(db: Db, q: Query, n: nat)
    requires 0 < n <= |q.joins|
    ensures FromRows(db, q, n) == FlatMap(SqlJoinRow(db, q.alias, q.joins[n-1]), FromRows(db, q, n-1))
  {
  }

  lemma {:induction false} FromAgrees(db: Db, c: Clauses, q: Query, n: nat)
    requires JoinsSound(c) && Renderable(c) && n <= |c.joins| && FromOf(q, c)
    ensures FromRows(db, q, n) == Map(Framed(FromAlias(c)), Sources(db, c, n))
  {
    hide JoinsSound, FromRows, Sources;
    if n == 0 {
      FromScanned(db, c, q);
    } else {
      FromAgrees(db, c, q, n-1);
      FromJoined(db, c, q, n);
    }
  }

  // --- WHERE ---

  lemma SatisfyingSnoc(db: Db, front: seq<Predicate>, last: Predicate, r: Record)
    ensures Satisfying(db, And(front + [last]))(r) == (Satisfying(db, And(front))(r) && Satisfying(db, last)(r))
  {
    var wheres := front + [last];
    AndAllTrue(Meanings(db, r.env, wheres));
    AndAllTrue(Meanings(db, r.env, front));
    assert forall i :: 0 <= i < |front| ==> wheres[i] == front[i];
    assert wheres[|front|] == last;
  }

  lemma FilterSnocSatisfying(
    db: Db, wheres: seq<Predicate>, front: seq<Predicate>, last: Predicate, rs: seq<Record>, kept: seq<Record>)
    requires wheres == front + [last] && kept == Filter(Satisfying(db, And(front)), rs)
    ensures Filter(Satisfying(db, last), kept) == Filter(Satisfying(db, And(wheres)), rs)
  {
    var p, q, both := Satisfying(db, And(front)), Satisfying(db, last), Satisfying(db, And(wheres));
    forall r: Record ensures both(r) == (p(r) && q(r)) {
      SatisfyingSnoc(db, front, last, r);
    }
    FilterTwice(p, q, both, rs);
  }

  lemma {:induction false} SelectRowsAre(db: Db, wheres: seq<Predicate>, rs: seq<Record>)
    ensures SelectRows(db, wheres, rs) == Filter(Satisfying(db, And(wheres)), rs)
  {
    if wheres == [] {
      FilterAll(Satisfying(db, And(wheres)), rs);
    } else {
      var front, last := wheres[..|wheres|-1], wheres[|wheres|-1];
      SelectRowsAre(db, front, rs);
      FilterSnocSatisfying(db, wheres, front, last, rs, SelectRows(db, front, rs));
    }
  }

  lemma SourceJoined(db: Db, c: Clauses, r: Record)
    requires JoinsSound(c) && r in Source(db, c)
    ensures SourceRecord(c.joins, r) && EachJoined(NamesOf(c), FromAlias(c), r.env)
  {
    assert c.joins[..|c.joins|] == c.joins;
    SelectRowsAre(db, c.wheres, Sources(db, c, |c.joins|));
    SourcesJoined(db, c, |c.joins|, r);
  }

  lemma WhereMeans(db: Db, c: Clauses, env: Env)
    requires ClearInAll(Aliases(c.joins), c.wheres) && UncapturedAll(NamesOf(c), c.wheres, 0) && FlatAll(c.wheres)
    requires EachJoined(NamesOf(c), FromAlias(c), env)
    ensures Truth3(db, FromAlias(c), RowCtx(FramesOf(FromAlias(c), env)),
                   SqlAnd(ResolvedAll(NamesOf(c), [], c.wheres, 0).0)) == Meaning(db, env, And(c.wheres))
  {
    QualifiedUnshadowedAll(db, NamesOf(c), c.wheres);
    ResolvedMeanAll(db, NamesOf(c), FromAlias(c), env, c.wheres, 0);
  }

  lemma WhereAgrees(db: Db, c: Clauses, nullsLast: bool)
    requires JoinsSound(c) && ClearInAll(Aliases(c.joins), c.wheres) && UncapturedAll(NamesOf(c), c.wheres, 0) &&
             Renderable(c)
    ensures WhereRows(db, QueryOf(c, nullsLast)) == Map(Framed(FromAlias(c)), Source(db, c))
  {
    var q, from, n := QueryOf(c, nullsLast), FromAlias(c), |c.joins|;
    var rs := Sources(db, c, n);
    assert c.joins[..n] == c.joins;
    FromAgrees(db, c, q, n);
    SelectRowsAre(db, c.wheres, rs);
    forall r | r in rs
      ensures TrueOn(db, from, SqlAnd(q.where))(Framed(from)(r)) == Satisfying(db, And(c.wheres))(r)
    {
      SourcesJoined(db, c, n, r);
      WhereMeans(db, c, r.env);
    }
    FilterOfMap(Framed(from), Satisfying(db, And(c.wheres)), TrueOn(db, from, SqlAnd(q.where)), rs);
  }
}
