/** Validation of predicates, and what it guarantees the renderer: what passes
    is written without an error, and reads back. */
module Validate {
  import opened Relalg
  import opened SqlSelect
  import opened Resolve
  import opened Parsing

  function ValidCondition(field: string, op: Op, operand: Operand, maxIn: int): bool {
    && field != ""
    && !op.OtherOp?
    && (op.IsNull? || op.IsNotNull? ==> operand == Scalar(Null))
    && (op.In? || op.NotIn? ==> operand.List? && 0 < |operand.values| <= maxIn)
  }

  /** Whether validation passes p, a nil predicate included. */
  predicate Valid(p: Predicate, maxIn: int)
    decreases p, 1
  {
    && 0 < maxIn
    && match p
       case Nil => true
       case Condition(field, op, operand) => ValidCondition(field, op, operand, maxIn)
       case And(ps) => ps != [] && ValidAll(ps, maxIn)
       case Or(ps) => ps != [] && ValidAll(ps, maxIn)
       case Not(q) => !q.Nil? && Valid(q, maxIn)
       case Exists(relation, on, inner) => relation.name != "" && on != [] && !HasExists(inner) && Valid(inner, maxIn)
  }

  predicate ValidAll(ps: seq<Predicate>, maxIn: int)
    decreases ps, 0
  {
    ps == [] || (!ps[0].Nil? && Valid(ps[0], maxIn) && ValidAll(ps[1..], maxIn))
  }

  /** Whether the renderer writes p: inside an EXISTS or a join it writes no
      EXISTS, and an IN list must be one, not empty and within the bound. */
  predicate Writable(p: Predicate, scoped: bool, maxIn: int)
    decreases p, 1
  {
    match p
    case Nil => true
    case Condition(_, op, operand) => op.In? || op.NotIn? ==> operand.List? && 0 < |operand.values| <= maxIn
    case And(ps) => AllWritable(ps, scoped, maxIn)
    case Or(ps) => AllWritable(ps, scoped, maxIn)
    case Not(q) => Writable(q, scoped, maxIn)
    case Exists(_, _, inner) => !scoped && Writable(inner, true, maxIn)
  }

  predicate AllWritable(ps: seq<Predicate>, scoped: bool, maxIn: int)
    decreases ps, 0
  {
    ps == [] || (Writable(ps[0], scoped, maxIn) && AllWritable(ps[1..], scoped, maxIn))
  }

  /** Validation leaves the renderer one error to report: an EXISTS inside the
      predicate of a join. */
  lemma {:induction false} ValidIsWritable(p: Predicate, scoped: bool, maxIn: int)
    requires Valid(p, maxIn)
    ensures Writable(p, scoped, maxIn) <==> !(scoped && HasExists(p))
    ensures Flat(p)
    decreases p, 1
  {
    match p
    case And(ps) => AllValidWritable(ps, scoped, maxIn);
    case Or(ps) => AllValidWritable(ps, scoped, maxIn);
    case Not(q) => ValidIsWritable(q, scoped, maxIn);
    case Exists(_, _, inner) => ValidIsWritable(inner, true, maxIn);
    case _ =>
  }

  lemma {:induction false} AllValidWritable(ps: seq<Predicate>, scoped: bool, maxIn: int)
    requires ValidAll(ps, maxIn)
    ensures AllWritable(ps, scoped, maxIn) <==> !(scoped && AnyExists(ps))
    ensures FlatAll(ps)
    decreases ps, 0
  {
    if ps != [] {
      ValidIsWritable(ps[0], scoped, maxIn);
      AllValidWritable(ps[1..], scoped, maxIn);
      assert AnyExists(ps) == (HasExists(ps[0]) || AnyExists(ps[1..]));
    }
  }

  // --- what is written ---

  /** p as the renderer writes it in scope, an alias or "" outside any, with k
      EXISTS written before it. */
  function Written(ns: Names, calls: seq<AggCall>, scope: string, p: Predicate, k: nat): (SqlPredicate, nat)
    decreases p, 1
  {
    match p
    case Nil => (SqlNil, k)
    case Condition(f, op, operand) =>
      (SqlCondition(if scope != "" then Column(scope, f) else OutputColumn(ns, calls, f), op, operand), k)
    case And(ps) => var (qs, n) := WrittenAll(ns, calls, scope, ps, k); (SqlAnd(qs), n)
    case Or(ps) => var (qs, n) := WrittenAll(ns, calls, scope, ps, k); (SqlOr(qs), n)
    case Not(q) => var (r, n) := Written(ns, calls, scope, q, k); (SqlNot(r), n)
    case Exists(relation, on, inner) =>
      var alias := ExistsAlias(k + 1);
      var (r, n) := Written(ns, calls, alias, inner, k + 1);
      (SqlExists(relation, alias, OnPairs(ns, on), r), n)
  }

  function WrittenAll(
    ns: Names, calls: seq<AggCall>, scope: string, ps: seq<Predicate>, k: nat): (r: (seq<SqlPredicate>, nat))
    ensures |r.0| == |ps|
    decreases ps, 0
  {
    if ps == [] then ([], k)
    else
      var (q, n) := Written(ns, calls, scope, ps[0], k);
      var (qs, m) := WrittenAll(ns, calls, scope, ps[1..], n);
      ([q] + qs, m)
  }

  lemma {:induction false} WrittenScoped(ns: Names, calls: seq<AggCall>, scope: string, p: Predicate, k: nat)
    requires scope != "" && !HasExists(p)
    ensures Written(ns, calls, scope, p, k) == (Scoped(scope, p), k)
    decreases p, 1
  {
    match p
    case And(ps) => AllWrittenScoped(ns, calls, scope, ps, k);
    case Or(ps) => AllWrittenScoped(ns, calls, scope, ps, k);
    case Not(q) => WrittenScoped(ns, calls, scope, q, k);
    case _ =>
  }

  lemma {:induction false} AllWrittenScoped(ns: Names, calls: seq<AggCall>, scope: string, ps: seq<Predicate>, k: nat)
    requires scope != "" && !AnyExists(ps)
    ensures WrittenAll(ns, calls, scope, ps, k) == (ScopedAll(scope, ps), k)
    decreases ps, 0
  {
    if ps != [] {
      assert !HasExists(ps[0]) && !AnyExists(ps[1..]);
      WrittenScoped(ns, calls, scope, ps[0], k);
      AllWrittenScoped(ns, calls, scope, ps[1..], k);
    }
  }

  lemma {:induction false} WrittenResolved(ns: Names, calls: seq<AggCall>, p: Predicate, k: nat)
    requires Flat(p)
    ensures Written(ns, calls, "", p, k) == Resolved(ns, calls, p, k)
    decreases p, 1
  {
    match p
    case And(ps) => AllWrittenResolved(ns, calls, ps, k);
    case Or(ps) => AllWrittenResolved(ns, calls, ps, k);
    case Not(q) => WrittenResolved(ns, calls, q, k);
    case Exists(_, _, inner) => WrittenScoped(ns, calls, ExistsAlias(k + 1), inner, k + 1);
    case _ =>
  }

  lemma {:induction false} AllWrittenResolved(ns: Names, calls: seq<AggCall>, ps: seq<Predicate>, k: nat)
    requires FlatAll(ps)
    ensures WrittenAll(ns, calls, "", ps, k) == ResolvedAll(ns, calls, ps, k)
    decreases ps, 0
  {
    if ps != [] {
      WrittenResolved(ns, calls, ps[0], k);
      AllWrittenResolved(ns, calls, ps[1..], Resolved(ns, calls, ps[0], k).1);
    }
  }

  /** What is written of a valid predicate reads back. */
  lemma {:induction false} ValidIsProper(
    ns: Names, calls: seq<AggCall>, scope: string, p: Predicate, k: nat, maxIn: int)
    requires Valid(p, maxIn) && !p.Nil?
    ensures Proper(Written(ns, calls, scope, p, k).0)
    decreases p, 1
  {
    match p
    case Condition(_, _, _) =>
    case And(ps) => AllValidProper(ns, calls, scope, ps, k, maxIn);
    case Or(ps) => AllValidProper(ns, calls, scope, ps, k, maxIn);
    case Not(q) => ValidIsProper(ns, calls, scope, q, k, maxIn);
    case Exists(_, on, inner) =>
      if !inner.Nil? {
        ValidIsProper(ns, calls, ExistsAlias(k + 1), inner, k + 1, maxIn);
      }
  }

  lemma {:induction false} AllValidProper(
    ns: Names, calls: seq<AggCall>, scope: string, ps: seq<Predicate>, k: nat, maxIn: int)
    requires ValidAll(ps, maxIn)
    ensures ProperAll(WrittenAll(ns, calls, scope, ps, k).0)
    decreases ps, 0
  {
    if ps != [] {
      var (q, n) := Written(ns, calls, scope, ps[0], k);
      ValidIsProper(ns, calls, scope, ps[0], k, maxIn);
      AllValidProper(ns, calls, scope, ps[1..], n, maxIn);
      assert ([q] + WrittenAll(ns, calls, scope, ps[1..], n).0)[1..] == WrittenAll(ns, calls, scope, ps[1..], n).0;
    }
  }
}
