/** What the cost gate admits, said of the statement and its plan and not of the
    layers that judge it. */
module GateAdmits {
  import opened Relalg
  import opened Render
  import opened Validate
  import opened Compile
  import opened SqlSelect
  import opened Gate

  // --- a plan within the limits ---

  /** The whole of each table is read, and they are not known to be small. */
  predicate ReadsAll(plan: Plan, th: Threshold) {
    plan.scan == ScanFull && !(th.fullScanMaxRows > 0 && plan.tableSized && plan.tableRows <= th.fullScanMaxRows)
  }

  /** At most limit rows are read, and that is known; no limit is positive. */
  predicate ReadsWithin(plan: Plan, limit: int) {
    limit > 0 ==>
      plan.estimatedRows <= limit && if plan.tableSized then plan.tableRows <= limit else plan.scan != ScanFull
  }

  predicate ScoresAtLeast(plan: Plan, th: Threshold, cutoff: int) {
    cutoff > 0 ==> ScorePlan(SmallTable(plan, th)) >= cutoff
  }

  /** The plan is within the limits of the gate and the caller's own. */
  predicate WithinLimits(plan: Plan, failed: bool, th: Threshold, t: Tightening) {
    && (th.explainFailClosed ==> !failed && plan.scan != ScanUnknown)
    && (th.rejectFullScan || t.rejectFullScan ==> !ReadsAll(plan, th))
    && ReadsWithin(plan, th.maxScannedRows) && ReadsWithin(plan, t.maxScannedRows)
    && (th.requireKnownScan ==> plan.scan != ScanUnknown)
    && (th.requireFreshStats ==> plan.statsFresh)
    && ScoresAtLeast(plan, th, th.hardScore) && ScoresAtLeast(plan, th, t.hardScore)
    && ScoresAtLeast(plan, th, th.softScore) && ScoresAtLeast(plan, th, t.softScore)
  }

  /** The scans from the safest to the riskiest. */
  function Risk(scan: ScanType): nat {
    match scan
    case ScanPoint => 0
    case ScanIndex => 1
    case ScanSeq => 2
    case ScanFull => 4
    case _ => 3
  }

  /** A plan no better than another in anything scores no higher. */
  lemma WorseScoresNoHigher(p: Plan, q: Plan)
    requires Risk(p.scan) >= Risk(q.scan) && p.estimatedRows >= q.estimatedRows
    requires (q.hasSort ==> p.hasSort) && (q.hasTempTable ==> p.hasTempTable) && (p.statsFresh ==> q.statsFresh)
    ensures ScorePlan(p) <= ScorePlan(q)
  {
  }

  lemma ScanLimit(plan: Plan, th: Threshold, limit: int)
    ensures OverScanLimit(SmallTable(plan, th), limit) <==> !ReadsWithin(plan, limit)
  {
  }

  lemma Cutoffs(plan: Plan, th: Threshold, a: int, b: int)
    ensures (Gate.Max(a, b) > 0 && ScorePlan(SmallTable(plan, th)) < Gate.Max(a, b)) <==>
            !(ScoresAtLeast(plan, th, a) && ScoresAtLeast(plan, th, b))
  {
    hide ScorePlan;
  }

  /** A plan is admitted exactly within the limits. */
  lemma PlanAdmitted(plan: Plan, failed: bool, th: Threshold, t: Tightening)
    ensures EvaluatePlan(SmallTable(plan, Tighten(th, t)), failed, Tighten(th, t)).allow <==>
            WithinLimits(plan, failed, th, t)
  {
    hide ScorePlan, OverScanLimit, ReadsWithin, ScoresAtLeast;
    var all := Tighten(th, t);
    assert SmallTable(plan, all) == SmallTable(plan, th);
    ScanLimit(plan, th, all.maxScannedRows);
    TighterScan(plan, th, t);
    Cutoffs(plan, th, th.hardScore, t.hardScore);
    Cutoffs(plan, th, th.softScore, t.softScore);
  }

  lemma TighterScan(plan: Plan, th: Threshold, t: Tightening)
    ensures ReadsWithin(plan, Tighten(th, t).maxScannedRows) <==>
            ReadsWithin(plan, th.maxScannedRows) && ReadsWithin(plan, t.maxScannedRows)
  {
  }

  // --- the chain ---

  predicate Allows(v: Option<Verdict>) {
    v.Some? && v.value.allow
  }

  /** Past the static rules: admitted exactly when no layer asked refuses. */
  lemma {:induction false} ChainAllows(layers: seq<Layer>, t: Tightening, s: State, i: nat)
    requires i <= |layers| && forall k :: i <= k < |layers| ==> !layers[k].StaticRule?
    requires forall k :: i <= k < |layers| - 1 ==> !layers[k].EnforceCap?
    ensures Allows(Chain(layers, t, s, i)) <==>
            !s.soft && forall k :: i <= k < |layers| ==>
                         (s.bypass && layers[k].Estimate?) || Allows(LayerCheck(layers[k], t, s.c))
    decreases |layers| - i
  {
    hide EstimateCheck, WriteCheck, AggregateCheck, CapCheck;
    if i < |layers| {
      if s.bypass && layers[i].Estimate? {
        ChainAllows(layers, t, s, i + 1);
      } else if LayerCheck(layers[i], t, s.c).Some? {
        var v := LayerCheck(layers[i], t, s.c).value;
        NoBypass(layers[i], t, s.c);
        ChainAllows(layers, t, AfterVerdict(s, v), i + 1);
        if !layers[i].EnforceCap? {
          NotRewritten(layers[i], t, s.c);
        }
      }
    }
  }

  lemma NoBypass(l: Layer, t: Tightening, c: Compiled)
    requires !l.StaticRule? && LayerCheck(l, t, c).Some?
    ensures !LayerCheck(l, t, c).value.bypass
  {
  }

  lemma CapAllows(n: int, t: Tightening, c: Compiled)
    ensures Allows(LayerCheck(EnforceCap(n), t, c))
  {
  }

  /** Whether the estimate is skipped: a point read, or an allowed template. */
  predicate Skips(th: Threshold, allowed: Compiled -> bool, c: Compiled) {
    (th.whitelistPKPoint && c.isKeyPoint) || allowed(c)
  }

  predicate Reads(c: Compiled) {
    c.kind == KindRead || c.kind == KindAggregate
  }

  lemma EstimateAllows(th: Threshold, explain: Compiled -> Explained, t: Tightening, c: Compiled)
    ensures Allows(LayerCheck(Estimate(th, explain), t, c)) <==>
            (Reads(c) ==> explain(c).Explained? && WithinLimits(explain(c).plan, explain(c).failed, th, t))
  {
    hide EvaluatePlan, WithinLimits;
    if Reads(c) && explain(c).Explained? {
      PlanAdmitted(explain(c).plan, explain(c).failed, th, t);
    }
  }

  /** What the layers after the static rules admit. */
  predicate PassesGuards(
    th: Threshold, allowed: Compiled -> bool, explain: Option<Compiled -> Explained>, t: Tightening, skips: bool,
    c: Compiled)
  {
    && (th.requirePKForWrite && c.kind == KindWrite && (c.expr.Update? || c.expr.Delete?) ==> c.isKeyPoint)
    && (c.kind == KindCall ==> allowed(c))
    && (th.requireAggregatePredicate && c.kind == KindAggregate ==>
          var p := WhereOf(Predicates(c.expr)); !p.Nil? && Valid(p, MAX_INT))
    && (explain.Some? && !skips && Reads(c) ==>
          explain.value(c).Explained? && WithinLimits(explain.value(c).plan, explain.value(c).failed, th, t))
  }

  lemma GuardsAllow(
    th: Threshold, rejected: Compiled -> bool, allowed: Compiled -> bool, explain: Option<Compiled -> Explained>,
    t: Tightening, skips: bool, c: Compiled)
    ensures var layers := NewGate(th, rejected, allowed, explain);
            (forall k :: 1 <= k < |layers| ==>
               (skips && layers[k].Estimate?) || Allows(LayerCheck(layers[k], t, c))) <==>
            PassesGuards(th, allowed, explain, t, skips, c)
  {
    hide WithinLimits, EstimateCheck, CapCheck, Valid;
    var layers := NewGate(th, rejected, allowed, explain);
    if explain.Some? {
      EstimateAllows(th, explain.value, t, c);
    }
    CapAllows(th.maxRows, t, c);
    var writes := if th.requirePKForWrite then 1 else 0;
    var aggregates := if th.requireAggregatePredicate then 1 else 0;
    assert th.requirePKForWrite ==> layers[1] == WriteGuard;
    assert layers[1 + writes] == CallGuard(allowed);
    assert th.requireAggregatePredicate ==> layers[2 + writes] == AggregateGuard;
    assert explain.Some? ==> layers[2 + writes + aggregates] == Estimate(th, explain.value);
  }

  /** A statement is admitted exactly when no rejected template matches it, a
      write required to is on a key, a call has its template, an aggregate
      required to has a condition, and a read whose estimate is not skipped has
      a plan within the limits. */
  lemma AdmittedExactly(
    th: Threshold, rejected: Compiled -> bool, allowed: Compiled -> bool, explain: Option<Compiled -> Explained>,
    t: Tightening, c: Compiled)
    ensures Allows(Judged(th, rejected, allowed, explain, t, c)) <==>
            !rejected(c) && PassesGuards(th, allowed, explain, t, Skips(th, allowed, c), c)
  {
    hide PassesGuards, LayerCheck;
    var layers := NewGate(th, rejected, allowed, explain);
    GateStarts(th, rejected, allowed, explain, t, c);
    if !rejected(c) {
      var next := AfterVerdict(Begin(c), StaticCheck(layers[0], c));
      ChainAllows(layers, t, next, 1);
      GuardsAllow(th, rejected, allowed, explain, t, Skips(th, allowed, c), c);
    }
  }

  lemma GateStarts(
    th: Threshold, rejected: Compiled -> bool, allowed: Compiled -> bool, explain: Option<Compiled -> Explained>,
    t: Tightening, c: Compiled)
    ensures var layers := NewGate(th, rejected, allowed, explain);
            && layers != [] && layers[0] == StaticRule(th.whitelistPKPoint, rejected, allowed)
            && LayerCheck(layers[0], t, c) == Some(StaticCheck(layers[0], c))
            && (forall k :: 1 <= k < |layers| ==> !layers[k].StaticRule?)
            && (forall k :: 1 <= k < |layers| - 1 ==> !layers[k].EnforceCap?)
  {
  }
}
