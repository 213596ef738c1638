/** Databases that tell a chain from its statement: how their values are
    ordered, and what agreeing on every database means. */
module Witnesses {
  import opened Texts
  import opened Relalg
  import opened SqlSelect
  import opened Flatten
  import opened Resolve
  import opened SelectOrder

  function Kind(v: Value): nat {
    match v case Null => 0 case Num(_) => 1 case Bool(_) => 2 case Text(_) => 3
  }

  predicate ValueLe(v: Value, w: Value) {
    if Kind(v) != Kind(w) then Kind(v) < Kind(w)
    else match v
         case Null => true
         case Bool(b) => b ==> w.b
         case Num(n) => n <= w.n
         case Text(s) => StrLe(s, w.s)
  }

  lemma ValueLeTotalOrder()
    ensures TotalOrder(ValueLe)
  {
    forall v, w ensures ValueLe(v, w) || ValueLe(w, v) {
      if v.Text? && w.Text? { StrLeTotal(v.s, w.s); }
    }
    forall v, w | ValueLe(v, w) && ValueLe(w, v) ensures v == w {
      if v.Text? { StrLeTotal(v.s, w.s); }
    }
    forall v, w, x | ValueLe(v, w) && ValueLe(w, x) ensures ValueLe(v, x) {
      if v.Text? && x.Text? { StrLeTransitive(v.s, w.s, x.s); }
    }
  }

  /** Every table holds the same rows, LIKE is true, every aggregate is v, and
      NULLs come first where an order does not say. */
  function AllTables(rows: seq<Row>, v: Value): Db {
    Db(_ => rows, ValueLe, (_, _) => true, (_, _, _) => v, _ => true)
  }

  lemma AllTablesOrdered(rows: seq<Row>, v: Value)
    ensures Ordered(AllTables(rows, v))
  {
    ValueLeTotalOrder();
  }

  /** The row with v in every column of names. */
  function Const(names: set<string>, v: Value): Row {
    map n | n in names :: v
  }

  /** The statement returns the chain's rows, whatever the database. */
  ghost predicate Agrees(e: Expr, nullsLast: bool)
    requires FlattenInput(e).Ok? && Renderable(FlattenInput(e).value)
  {
    var c := FlattenInput(e).value;
    forall db :: Ordered(db) ==>
        Result(db, QueryOf(c, nullsLast), LimitOf(c), OffsetOf(c)) == Some(Outputs(Eval(db, e)))
  }

  function ScannedRow(row: Row): Record {
    Record(Env(row, map[]), Whole(row))
  }
}
