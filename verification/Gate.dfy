/** The cost gate: a chain of layers consulted before a statement runs. A bypass
    skips only the estimate; write safety and the row cap always run. */
module Gate {
  import opened Relalg
  import opened SqlSelect
  import opened Flatten
  import opened Resolve
  import opened Printing
  import opened Render
  import opened Statement
  import opened Validate
  import SelectCorrect
  import SelectOrder
  import opened SelectMain
  import opened Compile

  // --- plans ---

  datatype ScanType = ScanUnknown | ScanSeq | ScanIndex | ScanPoint | ScanFull | ScanOther

  datatype Plan = Plan(
    scan: ScanType, estimatedRows: int, hasSort: bool, hasTempTable: bool, statsFresh: bool, tableRows: int,
        tableSized: bool)

  datatype Threshold = Threshold(
    softScore: int, hardScore: int, maxRows: int, maxScannedRows: int, rejectFullScan: bool, fullScanMaxRows: int,
    whitelistPKPoint: bool, requirePKForWrite: bool, requireAggregatePredicate: bool,
    explainFailClosed: bool, requireKnownScan: bool, requireFreshStats: bool)

  function Max(a: int, b: int): int {
    if a < b then b else a
  }

  function RowPenalty(rows: int): int {
    if rows > 10_000_000 then 45
    else if rows > 1_000_000 then 35
    else if rows > 100_000 then 25
    else if rows > 10_000 then 15
    else 0
  }

  function ScorePlan(p: Plan): (v: int)
    ensures 0 <= v <= 100
  {
    var scan := match p.scan
                case ScanPoint => 100
                case ScanIndex => 85
                case ScanSeq => 60
                case ScanFull => 20
                case _ => 50;
    var v := scan - (if p.hasSort then 5 else 0) - (if p.hasTempTable then 10 else 0)
             - (if p.statsFresh then 0 else 15) - RowPenalty(p.estimatedRows);
    if v < 0 then 0 else if v > 100 then 100 else v
  }

  /** The rows a plan reads, and whether that is known. */
  function ScannedRows(p: Plan): (int, bool) {
    if p.tableSized then (Max(p.estimatedRows, p.tableRows), true) else (p.estimatedRows, !p.scan.ScanFull?)
  }

  predicate OverScanLimit(p: Plan, limit: int) {
    limit > 0 && (!ScannedRows(p).1 || ScannedRows(p).0 > limit)
  }

  function SmallTable(p: Plan, th: Threshold): Plan {
    if p.scan.ScanFull? && th.fullScanMaxRows > 0 && p.tableSized && p.tableRows <= th.fullScanMaxRows
        then p.(scan := ScanIndex)
    else p
  }

  /** plan is what the estimate carries, when it has one. */
  datatype Verdict = Verdict(allow: bool, soft: bool, bypass: bool, plan: Option<Plan>, rewritten: Option<Compiled>)

  const ADMIT := Verdict(true, false, false, None, None)
  const REFUSE := Verdict(false, false, false, None, None)

  /** failed: the plan could not be explained. */
  function EvaluatePlan(plan: Plan, failed: bool, th: Threshold): Verdict {
    var score := ScorePlan(plan);
    var hard := REFUSE.(plan := Some(plan));
    if th.explainFailClosed && (failed || plan.scan.ScanUnknown?) then hard
    else if plan.scan.ScanFull? && th.rejectFullScan then hard
    else if OverScanLimit(plan, th.maxScannedRows) then hard
    else if plan.scan.ScanUnknown? && th.requireKnownScan then hard
    else if !plan.statsFresh && th.requireFreshStats then hard
    else if th.hardScore > 0 && score < th.hardScore then hard
    else if th.softScore > 0 && score < th.softScore then hard.(soft := true)
    else ADMIT.(plan := Some(plan))
  }

  /** A caller's own limits. */
  datatype Tightening = Tightening(softScore: int, hardScore: int, rejectFullScan: bool, maxScannedRows: int)

  function Tighten(th: Threshold, t: Tightening): Threshold {
    th.(softScore := Max(th.softScore, t.softScore), hardScore := Max(th.hardScore, t.hardScore),
        rejectFullScan := th.rejectFullScan || t.rejectFullScan,
        maxScannedRows := if t.maxScannedRows > 0 && (th.maxScannedRows <= 0 || t.maxScannedRows < th.maxScannedRows)
                          then t.maxScannedRows else th.maxScannedRows)
  }

  /** What passes a caller's own limits passes the gate's, and what the gate
      refuses outright stays so. */
  lemma TightenNeverLoosens(plan: Plan, failed: bool, th: Threshold, t: Tightening)
    ensures var before, after := EvaluatePlan(SmallTable(plan, th), failed, th),
                                 EvaluatePlan(SmallTable(plan, Tighten(th, t)), failed, Tighten(th, t));
            (after.allow ==> before.allow) && (!before.allow && !before.soft ==> !after.allow && !after.soft)
  {
  }

  // --- layers ---

  /** What EXPLAIN answered: nothing, so the check fails, or a plan. */
  datatype Explained = Unavailable | Explained(plan: Plan, failed: bool)

  /** Templates are known by the statements they match. */
  datatype Layer =
    | StaticRule(pkWhitelist: bool, rejected: Compiled -> bool, allowed: Compiled -> bool)
    | WriteGuard
    | CallGuard(allowed: Compiled -> bool)
    | AggregateGuard
    | Estimate(th: Threshold, explain: Compiled -> Explained)
    | EnforceCap(hardRows: int)

  const POINT_PLAN := Plan(ScanPoint, 0, false, false, true, 0, false)

  function WriteCheck(c: Compiled): Verdict {
    if c.kind != KindWrite then ADMIT
    else if !c.expr.Update? && !c.expr.Delete? then ADMIT
    else if c.isKeyPoint then ADMIT
    else REFUSE
  }

  const MAX_INT := 0x7fff_ffff_ffff_ffff

  function AggregateCheck(c: Compiled): Verdict {
    var p := WhereOf(Predicates(c.expr));
    if c.kind != KindAggregate then ADMIT
    else if !p.Nil? && Valid(p, MAX_INT) then ADMIT
    else REFUSE
  }

  /** SELECT * FROM (sql) AS sub LIMIT n. */
  function Wrapped(sql: seq<Token>, n: int): seq<Token> {
    [SELECT, ALL, FROM, OPEN] + sql + [CLOSE, AS, Ident("sub"), LIMIT, Numeral(n)]
  }

  function CapCheck(n: int, c: Compiled): Verdict {
    if n <= 0 || c.kind == KindCall then ADMIT
    else if c.kind != KindRead && c.kind != KindAggregate then ADMIT
    else
      var capped := CapRows(c.text, n);
      if capped.1 then
        if capped.0.sql == c.text.sql then ADMIT else ADMIT.(rewritten := Some(c.(text := capped.0)))
      else ADMIT.(rewritten := Some(c.(text := c.text.(sql := Wrapped(c.text.sql, n)))))
  }

  function StaticCheck(l: Layer, c: Compiled): Verdict
    requires l.StaticRule?
  {
    if l.rejected(c) then REFUSE
    else if l.pkWhitelist && c.isKeyPoint then ADMIT.(bypass := true, plan := Some(POINT_PLAN))
    else if l.allowed(c) then ADMIT.(bypass := true)
    else ADMIT
  }

  function EstimateCheck(l: Layer, t: Tightening, c: Compiled): Option<Verdict>
    requires l.Estimate?
  {
    if c.kind != KindRead && c.kind != KindAggregate then Some(ADMIT)
    else
      match l.explain(c)
      case Unavailable => None
      case Explained(plan, failed) =>
        var th := Tighten(l.th, t);
        Some(EvaluatePlan(SmallTable(plan, th), failed, th))
  }

  /** A layer's verdict, None when it fails. */
  function LayerCheck(l: Layer, t: Tightening, c: Compiled): Option<Verdict> {
    match l
    case StaticRule(_, _, _) => Some(StaticCheck(l, c))
    case WriteGuard => Some(WriteCheck(c))
    case CallGuard(allowed) => Some(if c.kind != KindCall || allowed(c) then ADMIT else REFUSE)
    case AggregateGuard => Some(AggregateCheck(c))
    case Estimate(_, _) => EstimateCheck(l, t, c)
    case EnforceCap(n) => Some(CapCheck(n, c))
  }

  // --- the chain ---

  /** The statement as rewritten so far, and what the layers said. */
  datatype State = State(c: Compiled, rewritten: bool, bypass: bool, soft: bool, plan: Option<Plan>)

  function AfterVerdict(s: State, v: Verdict): State {
    State(if v.rewritten.Some? then v.rewritten.value else s.c, s.rewritten || v.rewritten.Some?, s.bypass || v.bypass,
          s.soft || (!v.allow && v.soft), if v.plan.Some? then v.plan else s.plan)
  }

  function Final(s: State): Verdict {
    Verdict(!s.soft, s.soft, s.bypass, s.plan, if s.rewritten then Some(s.c) else None)
  }

  /** What the layers from the i-th on decide. */
  function Chain(layers: seq<Layer>, t: Tightening, s: State, i: nat): Option<Verdict>
    requires i <= |layers|
    decreases |layers| - i
  {
    if i == |layers| then Some(Final(s))
    else if s.bypass && layers[i].Estimate? then Chain(layers, t, s, i + 1)
    else
      match LayerCheck(layers[i], t, s.c)
      case None => None
      case Some(v) =>
        var next := AfterVerdict(s, v);
        if !v.allow && !v.soft then Some(v.(rewritten := if next.rewritten then Some(next.c) else None))
        else Chain(layers, t, next, i + 1)
  }

  function Begin(c: Compiled): State {
    State(c, false, false, false, None)
  }

  method Check(layers: seq<Layer>, t: Tightening, c: Compiled) returns (r: Option<Verdict>)
    ensures r == Chain(layers, t, Begin(c), 0)
  {
    var at, rewritten, bypass, soft, plan := c, false, false, false, None;
    for i := 0 to |layers|
      invariant Chain(layers, t, State(at, rewritten, bypass, soft, plan), i) == Chain(layers, t, Begin(c), 0)
    {
      if bypass && layers[i].Estimate? {
        continue;
      }
      var d := LayerCheck(layers[i], t, at);
      if d.None? {
        return None;
      }
      var v := d.value;
      if v.rewritten.Some? {
        at, rewritten := v.rewritten.value, true;
      }
      if v.bypass {
        bypass := true;
      }
      if v.plan.Some? {
        plan := v.plan;
      }
      if !v.allow && v.soft {
        soft := true;
      }
      if !v.allow && !v.soft {
        return Some(v.(rewritten := if rewritten then Some(at) else None));
      }
    }
    return Some(Verdict(!soft, soft, bypass, plan, if rewritten then Some(at) else None));
  }

  /** The chain a connection's threshold asks for. */
  function NewGate(
    th: Threshold, rejected: Compiled -> bool, allowed: Compiled -> bool, explain: Option<Compiled -> Explained>)
    : seq<Layer>
  {
    [StaticRule(th.whitelistPKPoint, rejected, allowed)]
    + (if th.requirePKForWrite then [WriteGuard] else [])
    + [CallGuard(allowed)]
    + (if th.requireAggregatePredicate then [AggregateGuard] else [])
    + (if explain.Some? then [Estimate(th, explain.value)] else [])
    + (if th.maxRows > 0 then [EnforceCap(th.maxRows)] else [])
  }

  /** The gate's verdict on c. */
  function Judged(
    th: Threshold, rejected: Compiled -> bool, allowed: Compiled -> bool, explain: Option<Compiled -> Explained>,
    t: Tightening, c: Compiled): Option<Verdict>
  {
    Chain(NewGate(th, rejected, allowed, explain), t, Begin(c), 0)
  }

  /** The statement the gate lets run. */
  function Admitted(c: Compiled, v: Verdict): Compiled {
    if v.rewritten.Some? then v.rewritten.value else c
  }

  // --- what an admitted statement passed ---

  /** A layer that is not an estimate was asked, and did not refuse. */
  lemma {:induction false} MandatoryAsked(layers: seq<Layer>, t: Tightening, s: State, i: nat, k: nat)
    requires i <= k < |layers| && !layers[k].Estimate?
    requires Chain(layers, t, s, i).Some? && Chain(layers, t, s, i).value.allow
    requires forall j :: i <= j < k ==> !layers[j].EnforceCap?
    ensures LayerCheck(layers[k], t, s.c).Some? && LayerCheck(layers[k], t, s.c).value.allow
    decreases k - i
  {
    if !(s.bypass && layers[i].Estimate?) {
      var v := LayerCheck(layers[i], t, s.c).value;
      if i == k {
        SoftStays(layers, t, AfterVerdict(s, v), i + 1);
      } else {
        NotRewritten(layers[i], t, s.c);
        MandatoryAsked(layers, t, AfterVerdict(s, v), i + 1, k);
      }
    } else {
      MandatoryAsked(layers, t, s, i + 1, k);
    }
  }

  /** Only the row cap rewrites. */
  lemma NotRewritten(l: Layer, t: Tightening, c: Compiled)
    requires !l.EnforceCap? && LayerCheck(l, t, c).Some?
    ensures LayerCheck(l, t, c).value.rewritten.None?
  {
  }

  /** A soft refusal is never admitted. */
  lemma {:induction false} SoftStays(layers: seq<Layer>, t: Tightening, s: State, i: nat)
    requires i <= |layers|
    ensures var r := Chain(layers, t, s, i); r.Some? && r.value.allow ==> !s.soft
    decreases |layers| - i
  {
    if i < |layers| {
      if s.bypass && layers[i].Estimate? {
        SoftStays(layers, t, s, i + 1);
      } else if LayerCheck(layers[i], t, s.c).Some? {
        SoftStays(layers, t, AfterVerdict(s, LayerCheck(layers[i], t, s.c).value), i + 1);
      }
    }
  }

  /** A write of the gate is a point lookup on an identity key. */
  lemma AdmittedWriteIsPoint(
    th: Threshold, rejected: Compiled -> bool, allowed: Compiled -> bool, explain: Option<Compiled -> Explained>,
    t: Tightening, c: Compiled)
    requires th.requirePKForWrite && c.kind == KindWrite && (c.expr.Update? || c.expr.Delete?)
    requires var r := Judged(th, rejected, allowed, explain, t, c); r.Some? && r.value.allow
    ensures c.isKeyPoint
  {
    var layers := NewGate(th, rejected, allowed, explain);
    assert layers[1] == WriteGuard;
    MandatoryAsked(layers, t, Begin(c), 0, 1);
  }

  /** With point writes required, an UPDATE or DELETE the gate admits, bypassed
      or not, matches at most one row of a table its identity keys identify. */
  lemma AdmittedWriteMatchesOne(
    th: Threshold, rejected: Compiled -> bool, allowed: Compiled -> bool, explain: Option<Compiled -> Explained>,
    t: Tightening, c: Compiled, nullsLast: bool, returning: seq<string>, maxIn: int, pk: seq<string>,
    keys: Option<seq<seq<string>>>, db: Db, rows: seq<Row>, i: nat, j: nat)
    requires th.requirePKForWrite && (c.expr.Update? || c.expr.Delete?)
    requires CompiledOf(c, c.expr, nullsLast, returning, maxIn, pk, keys)
    requires var r := Judged(th, rejected, allowed, explain, t, c); r.Some? && r.value.allow
    requires var all := Keys(pk, keys); forall k :: 0 <= k < |all| ==> Identifies(all[k], rows)
    requires i < |rows| && j < |rows| && Matches(db, c.expr.pred, rows[i]) && Matches(db, c.expr.pred, rows[j])
    ensures i == j
  {
    AdmittedWriteIsPoint(th, rejected, allowed, explain, t, c);
    var all := Keys(pk, keys);
    var k :| 0 <= k < |all| && KeyPoint(WhereOf(Predicates(c.expr)), all[k]);
    assert Predicates(c.expr) == [c.expr.pred];
    KeyPointMatchesOne(db, c.expr.pred, all[k], rows, i, j);
  }

  /** The row cap, last in the chain, decides the statement that runs. */
  lemma {:induction false} CapDecides(layers: seq<Layer>, t: Tightening, s: State, i: nat, n: int)
    requires i < |layers| && layers[|layers|-1] == EnforceCap(n) && !s.rewritten
    requires forall j :: i <= j < |layers| - 1 ==> !layers[j].EnforceCap?
    requires Chain(layers, t, s, i).Some? && Chain(layers, t, s, i).value.allow
    ensures Chain(layers, t, s, i).value.rewritten == CapCheck(n, s.c).rewritten
    decreases |layers| - i
  {
    if i < |layers| - 1 {
      if s.bypass && layers[i].Estimate? {
        CapDecides(layers, t, s, i + 1, n);
      } else {
        NotRewritten(layers[i], t, s.c);
        CapDecides(layers, t, AfterVerdict(s, LayerCheck(layers[i], t, s.c).value), i + 1, n);
      }
    }
  }

  lemma GateEndsInCap(
    th: Threshold, rejected: Compiled -> bool, allowed: Compiled -> bool, explain: Option<Compiled -> Explained>)
    requires th.maxRows > 0
    ensures var layers := NewGate(th, rejected, allowed, explain);
            layers != [] && layers[|layers|-1] == EnforceCap(th.maxRows) && forall j :: 0 <= j < |layers| - 1 ==>
                !layers[j].EnforceCap?
  {
  }

  /** Another limit is another clause. */
  lemma SameLimit(base: seq<Token>, limit: int, offset: int, n: int)
    requires n >= 1 && base + LimitClause(Capped(limit, n), offset) == base + LimitClause(limit, offset)
    ensures Capped(limit, n) == limit
  {
    var a, b := LimitClause(Capped(limit, n), offset), LimitClause(limit, offset);
    assert (base + a)[|base|..] == a && (base + b)[|base|..] == b;
    assert a[1] == Numeral(Capped(limit, n));
  }

  lemma CapCheckCaps(n: int, c: Compiled, q: Query, limit: int, offset: int)
    requires n > 0 && (c.kind == KindRead || c.kind == KindAggregate) && c.text == OfQuery(q, limit, offset)
    ensures Admitted(c, CapCheck(n, c)).text == OfQuery(q, Capped(limit, n), offset)
  {
    CapRowsText(q, limit, offset, n);
    if PrintQuery(q, Capped(limit, n), offset) == PrintQuery(q, limit, offset) {
      SameLimit(PrintBase(q), limit, offset, n);
    }
  }

  /** A select the gate admits under a row cap is the same one, its limit at
      most the cap. */
  lemma AdmittedReadCapped(
    th: Threshold, rejected: Compiled -> bool, allowed: Compiled -> bool, explain: Option<Compiled -> Explained>,
    t: Tightening, c: Compiled, q: Query, limit: int, offset: int)
    requires th.maxRows > 0 && (c.kind == KindRead || c.kind == KindAggregate) && c.text == OfQuery(q, limit, offset)
    requires var r := Judged(th, rejected, allowed, explain, t, c); r.Some? && r.value.allow
    ensures var v := Judged(th, rejected, allowed, explain, t, c).value;
            Admitted(c, v).text == OfQuery(q, Capped(limit, th.maxRows), offset)
  {
    GateEndsInCap(th, rejected, allowed, explain);
    CapDecides(NewGate(th, rejected, allowed, explain), t, Begin(c), 0, th.maxRows);
    CapCheckCaps(th.maxRows, c, q, limit, offset);
  }

  /** The rows of a read's own statement are those its plan means. */
  lemma ReadMeans(
    e: Expr, maxIn: int, nullsLast: bool, returning: seq<string>, db: Db) returns (q: Query, limit: int, offset: int)
    requires IsRead(e) && Rendered(e, maxIn, nullsLast, returning).Some? && SelectOrder.Ordered(db) && Shaped(e)
    requires FlattenInput(e).Ok? && SelectCorrect.Unambiguous(FlattenInput(e).value)
    ensures Renderable(FlattenInput(e).value) && q == QueryOf(FlattenInput(e).value, nullsLast)
    ensures Rendered(e, maxIn, nullsLast, returning).value == OfQuery(q, limit, offset)
    ensures Result(db, q, limit, offset) == Some(Outputs(Eval(db, e))) && (limit < 1 ==> offset == 0)
  {
    RenderedReads(e, maxIn, nullsLast, returning);
    SelectKeepsMeaning(db, e, nullsLast);
    FlattenedLimit(e);
    var f := FlattenInput(e).value;
    q, limit, offset := QueryOf(f, nullsLast), LimitOf(f), OffsetOf(f);
  }

  /** A read's statement is the query its clauses resolve to, and so is what the
      gate admits of it under a row cap, but for the limit. */
  lemma AdmittedQuery(
    th: Threshold, rejected: Compiled -> bool, allowed: Compiled -> bool, explain: Option<Compiled -> Explained>,
    t: Tightening, c: Compiled, nullsLast: bool, returning: seq<string>, maxIn: int)
    requires th.maxRows > 0 && IsRead(c.expr) && (c.kind == KindRead || c.kind == KindAggregate)
    requires Rendered(c.expr, maxIn, nullsLast, returning) == Some(c.text)
    requires var r := Judged(th, rejected, allowed, explain, t, c); r.Some? && r.value.allow
    ensures FlattenInput(c.expr).Ok? && Renderable(FlattenInput(c.expr).value)
    ensures var f := FlattenInput(c.expr).value;
            && c.text == OfQuery(QueryOf(f, nullsLast), LimitOf(f), OffsetOf(f))
            && (LimitOf(f) < 1 ==> OffsetOf(f) == 0)
            && Admitted(c, Judged(th, rejected, allowed, explain, t, c).value).text ==
               OfQuery(QueryOf(f, nullsLast), Capped(LimitOf(f), th.maxRows), OffsetOf(f))
  {
    hide Judged, QueryOf, Rendered, OfQuery, Renderable, FlattenInput, Admitted;
    RenderedReads(c.expr, maxIn, nullsLast, returning);
    FlattenedLimit(c.expr);
    var f := FlattenInput(c.expr).value;
    AdmittedReadCapped(th, rejected, allowed, explain, t, c, QueryOf(f, nullsLast), LimitOf(f), OffsetOf(f));
  }

  lemma ReadKind(
    c: Compiled, nullsLast: bool, returning: seq<string>, maxIn: int, pk: seq<string>, keys: Option<seq<seq<string>>>)
    requires IsRead(c.expr) && CompiledOf(c, c.expr, nullsLast, returning, maxIn, pk, keys)
    ensures c.kind == KindRead || c.kind == KindAggregate
  {
  }

  /** A read the gate admits under a row cap runs as a select whose result is a
      prefix, at most the cap long, of the rows the plan means. */
  lemma AdmittedReadIsPrefix(
    th: Threshold, rejected: Compiled -> bool, allowed: Compiled -> bool, explain: Option<Compiled -> Explained>,
    t: Tightening, c: Compiled, nullsLast: bool, returning: seq<string>, maxIn: int, pk: seq<string>,
    keys: Option<seq<seq<string>>>, db: Db) returns (q: Query, limit: int, offset: int)
    requires th.maxRows > 0 && IsRead(c.expr) && CompiledOf(c, c.expr, nullsLast, returning, maxIn, pk, keys)
    requires var r := Judged(th, rejected, allowed, explain, t, c); r.Some? && r.value.allow
    requires FlattenInput(c.expr).Ok? && SelectOrder.Ordered(db) && Shaped(c.expr)
    requires SelectCorrect.Unambiguous(FlattenInput(c.expr).value)
    ensures Renderable(FlattenInput(c.expr).value) && q == QueryOf(FlattenInput(c.expr).value, nullsLast)
    ensures var v := Judged(th, rejected, allowed, explain, t, c).value;
            Admitted(c, v).text == OfQuery(q, limit, offset) && Result(db, q, limit, offset).Some?
    ensures var rows, all := Result(db, q, limit, offset).value, Outputs(Eval(db, c.expr));
            |rows| <= th.maxRows && rows <= all && (|all| <= th.maxRows ==> rows == all)
  {
    hide Judged, QueryOf, Rendered, OfQuery, Renderable, FlattenInput, Admitted, Shaped, Result,
        SelectCorrect.Unambiguous;
    ReadKind(c, nullsLast, returning, maxIn, pk, keys);
    AdmittedQuery(th, rejected, allowed, explain, t, c, nullsLast, returning, maxIn);
    SelectKeepsMeaning(db, c.expr, nullsLast);
    var f := FlattenInput(c.expr).value;
    q, limit, offset := QueryOf(f, nullsLast), Capped(LimitOf(f), th.maxRows), OffsetOf(f);
    CapRowsPrefix(db, q, LimitOf(f), offset, th.maxRows);
  }
}
