/** What the renderer writes of a validated predicate reads back, NOT tighter than
    AND and AND tighter than OR, to the same three-valued function. */
module ReadBack {
  import opened Relalg
  import opened SqlSelect
  import opened Resolve
  import opened Printing
  import opened Parsing
  import opened RoundTrip
  import opened Validate
  import opened SelectCorrect
  import opened Render
  import opened Witnesses
  import opened ExistsExactness

  /** Wherever in a statement it stands, whatever arguments come before and after
      its own, and whatever follows it. */
  lemma WrittenReadsBack(
    db: Db, from: string, ctx: Ctx, ns: Names, calls: seq<AggCall>, scope: string, p: Predicate, k: nat, maxIn: int,
    before: seq<Operand>, after: seq<Operand>, rest: Tokens)
    requires Valid(p, maxIn) && !p.Nil?
    ensures var q := Written(ns, calls, scope, p, k).0;
            var r := ParseNot(Onto(Print(q, |before|), rest), before + ArgsOf(q) + after);
            r.Done? && r.rest == rest && Truth3(db, from, ctx, r.value) == Truth3(db, from, ctx, q)
  {
    var q := Written(ns, calls, scope, p, k).0;
    ValidIsProper(ns, calls, scope, p, k, maxIn);
    HoldsWhole(before, ArgsOf(q), after);
    PrintedParses(q, |before|, before + ArgsOf(q) + after, rest);
    UnwrappedMeans(db, from, ctx, q);
  }

  // --- writes ---

  /** A write names no relation an EXISTS alias could hide. */
  lemma {:induction false} BareUncaptured(p: Predicate, k: nat)
    ensures Uncaptured(BARE, p, k) && ClearIn({}, p)
    decreases p, 1
  {
    match p
    case And(ps) => BareUncapturedAll(ps, k);
    case Or(ps) => BareUncapturedAll(ps, k);
    case Not(q) => BareUncaptured(q, k);
    case _ =>
  }

  lemma {:induction false} BareUncapturedAll(ps: seq<Predicate>, k: nat)
    ensures UncapturedAll(BARE, ps, k) && ClearInAll({}, ps)
    decreases ps, 0
  {
    if ps != [] {
      BareUncaptured(ps[0], k);
      BareUncapturedAll(ps[1..], k + Nestings(ps[0]));
    }
  }

  lemma WriteMeans(db: Db, row: Row, p: Predicate, k: nat)
    requires Flat(p) && Unshadowed(db, BARE, p)
    ensures Truth3(db, "", RowCtx(map["" := row]), Resolved(BARE, [], p, k).0) == Meaning(db, Env(row, map[]), p)
  {
    BareUncaptured(p, k);
    ResolvedMeans(db, BARE, "", Env(row, map[]), p, k);
    assert FramesOf("", Env(row, map[])) == map["" := row];
  }

  /** The WHERE of an UPDATE or DELETE, read back, is true of exactly the rows
      the plan's predicate is, unless the relation of an EXISTS has a column
      named as one it is compared with. */
  lemma WriteReadsBack(db: Db, row: Row, p: Predicate, maxIn: int, before: seq<Operand>, rest: Tokens)
    requires Valid(p, maxIn) && !p.Nil? && Unshadowed(db, BARE, p)
    ensures var q := Written(BARE, [], "", p, 0).0;
            var r := ParseNot(Onto(Print(q, |before|), rest), before + ArgsOf(q));
            r.Done? && r.rest == rest &&
                Truth3(db, "", RowCtx(map["" := row]), r.value) == Meaning(db, Env(row, map[]), p)
  {
    var q := Written(BARE, [], "", p, 0).0;
    WrittenReadsBack(db, "", RowCtx(map["" := row]), BARE, [], "", p, 0, maxIn, before, [], rest);
    assert before + ArgsOf(q) + [] == before + ArgsOf(q);
    ValidIsWritable(p, false, maxIn);
    WrittenResolved(BARE, [], p, 0);
    WriteMeans(db, row, p, 0);
  }

  /** Every row of relation has the columns of cols. */
  ghost predicate Typed(db: Db, relation: RelationRef, cols: set<string>) {
    forall k :: 0 <= k < |db.table(relation)| ==> db.table(relation)[k].Keys == cols
  }

  /** The row of a write that has 2 where cols has a column of that name, and 1
      elsewhere. */
  function Outer(on: seq<JoinPair>, cols: set<string>): Row {
    map n | n in (set i | 0 <= i < |on| :: on[i].left) :: if n in cols then Num(2.0) else Num(1.0)
  }

  function Ones(cols: set<string>): Db {
    AllTables([Const(cols, Num(1.0))], Null)
  }

  lemma ShadowedColumn(on: seq<JoinPair>, cols: set<string>, i: nat)
    requires i < |on|
    ensures ColumnValue(Ones(cols), "",
            Inside("", RowCtx(map["" := Outer(on, cols)]), ExistsAlias(1), Const(cols, Num(1.0))),
                        Col(BARE, on[i].left)) == Num(1.0)
  {
    assert on[i].left in Outer(on, cols);
  }

  /** Such a column is compared in the outer one's place: the EXISTS finds a row
      the plan does not. */
  lemma WriteDiffers(relation: RelationRef, on: seq<JoinPair>, cols: set<string>, i: nat)
    requires (forall j :: 0 <= j < |on| ==> on[j].right in cols) && i < |on| && on[i].left in cols
    ensures var db, row, p := Ones(cols), Outer(on, cols), Exists(relation, on, Nil);
            && Typed(db, relation, cols)
            && Truth3(db, "", RowCtx(map["" := row]), Resolved(BARE, [], p, 0).0) == True
            && Meaning(db, Env(row, map[]), p) == False
  {
    var db, row := Ones(cols), Outer(on, cols);
    forall j | 0 <= j < |on|
      ensures Get(db.table(relation)[0], on[j].right) == Num(1.0)
      ensures ColumnValue(db, "", Inside("", RowCtx(map["" := row]), ExistsAlias(1), db.table(relation)[0]),
              Col(BARE, on[j].left)) == Num(1.0)
    {
      ShadowedColumn(on, cols, j);
    }
    ExistsTrue(db, "", RowCtx(map["" := row]), relation, BARE, on, 0);
    assert on[i].left in row && Lookup(Env(row, map[]), on[i].left) == Num(2.0);
    PairDrops(db, Env(row, map[]), relation, on, i);
  }

  /** A write bounded by an EXISTS over a relation of known columns means in SQL
      what the plan means, on every database and row, exactly when none of them
      has the name of a column it is compared with. */
  lemma WriteExact(relation: RelationRef, on: seq<JoinPair>, cols: set<string>)
    requires forall i :: 0 <= i < |on| ==> on[i].right in cols
    ensures (forall db, row :: Typed(db, relation, cols) ==>
               Truth3(db, "", RowCtx(map["" := row]), Resolved(BARE, [], Exists(relation, on, Nil), 0).0) ==
               Meaning(db, Env(row, map[]), Exists(relation, on, Nil)))
            <==> forall i :: 0 <= i < |on| ==> on[i].left !in cols
  {
    var p := Exists(relation, on, Nil);
    if i :| 0 <= i < |on| && on[i].left in cols {
      WriteDiffers(relation, on, cols, i);
    } else {
      forall db, row | Typed(db, relation, cols)
        ensures Truth3(db, "", RowCtx(map["" := row]), Resolved(BARE, [], p, 0).0) == Meaning(db, Env(row, map[]), p)
      {
        WriteMeans(db, row, p, 0);
      }
    }
  }

  /** The same of the text: an UPDATE or DELETE that touches a row the plan does
      not. */
  lemma WriteTouchesMore(
    relation: RelationRef, on: seq<JoinPair>, cols: set<string>, i: nat, maxIn: int, before: seq<Operand>, rest: Tokens)
    requires (forall j :: 0 <= j < |on| ==> on[j].right in cols) && i < |on| && on[i].left in cols
    requires Valid(Exists(relation, on, Nil), maxIn)
    ensures var db, row, p := Ones(cols), Outer(on, cols), Exists(relation, on, Nil);
            var q := Written(BARE, [], "", p, 0).0;
            var r := ParseNot(Onto(Print(q, |before|), rest), before + ArgsOf(q));
            r.Done? && Truth3(db, "", RowCtx(map["" := row]), r.value) == True &&
                Meaning(db, Env(row, map[]), p) == False
  {
    var db, row, p := Ones(cols), Outer(on, cols), Exists(relation, on, Nil);
    var q := Written(BARE, [], "", p, 0).0;
    WriteDiffers(relation, on, cols, i);
    WrittenReadsBack(db, "", RowCtx(map["" := row]), BARE, [], "", p, 0, maxIn, before, [], rest);
    assert before + ArgsOf(q) + [] == before + ArgsOf(q);
    ValidIsWritable(p, false, maxIn);
    WrittenResolved(BARE, [], p, 0);
  }
}
