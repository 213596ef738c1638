/** Compilation: a plan rendered as one statement, with what the gate and the
    store read of it. */
module Compile {
  import opened Buffers
  import opened Relalg
  import opened SqlSelect
  import opened Flatten
  import opened Resolve
  import opened Printing
  import opened Statement
  import opened Validate
  import opened Progress
  import opened Render

  // --- what is rendered ---

  /** capBase is a select before its LIMIT, empty for another statement;
      capLimit and capOffset are those of that clause. */
  datatype Rendering = Rendering(
    sql: seq<Token>, args: seq<Operand>, capBase: seq<Token>, capLimit: int, capOffset: int)

  function Uncapped(sql: seq<Token>, args: seq<Operand>): Rendering {
    Rendering(sql, args, [], 0, 0)
  }

  function OfQuery(q: Query, limit: int, offset: int): Rendering {
    Rendering(PrintQuery(q, limit, offset), QueryArgs(q), PrintBase(q), limit, offset)
  }

  predicate Tupled(columns: seq<string>, tuples: seq<seq<Value>>) {
    columns != [] && tuples != [] && forall i :: 0 <= i < |tuples| ==> |tuples[i]| == |columns|
  }

  predicate IsWrite(e: Expr) {
    e.Insert? || e.Update? || e.Delete?
  }

  predicate IsRead(e: Expr) {
    !IsWrite(e) && !e.Call?
  }

  /** The text and the arguments of e, or None when it is refused. */
  function Rendered(e: Expr, maxIn: int, nullsLast: bool, returning: seq<string>): Option<Rendering> {
    match e
    case Insert(target, columns, tuples) =>
      if Tupled(columns, tuples) then Some(Uncapped(PrintInsert(target, columns, tuples, returning), TupleArgs(tuples)))
      else None
    case Update(target, pred, sets) =>
      if sets != [] && !pred.Nil? && Valid(pred, maxIn) then
        var q := Written(BARE, [], "", pred, 0).0;
        Some(Uncapped(PrintUpdate(target, sets, q), SetArgs(sets) + ArgsOf(q)))
      else None
    case Delete(target, pred) =>
      if !pred.Nil? && Valid(pred, maxIn) then
        var q := Written(BARE, [], "", pred, 0).0;
        Some(Uncapped(PrintDelete(target, q), ArgsOf(q)))
      else None
    case Call(procedure, args) => Some(Uncapped(PrintCall(procedure, args), Scalars(args)))
    case _ =>
      match FlattenInput(e)
      case Err(_) => None
      case Ok(c) =>
        if Accepted(c, maxIn) then
          Some(OfQuery(WrittenQuery(c, nullsLast), LimitOf(c), OffsetOf(c)))
        else None
  }

  /** Whatever the statement, its i-th placeholder in the order they are
      written is bound to its i-th argument. */
  lemma RenderedBinds(e: Expr, maxIn: int, nullsLast: bool, returning: seq<string>)
    requires Rendered(e, maxIn, nullsLast, returning).Some?
    ensures var t := Rendered(e, maxIn, nullsLast, returning).value;
            Params(t.sql) == Range(0, |t.args|)
  {
    var t := Rendered(e, maxIn, nullsLast, returning).value;
    match e
    case Insert(target, columns, tuples) => InsertBinds(target, columns, tuples, returning);
    case Update(target, pred, sets) => UpdateBinds(target, sets, Written(BARE, [], "", pred, 0).0);
    case Delete(target, pred) => DeleteBinds(target, Written(BARE, [], "", pred, 0).0);
    case Call(procedure, args) => CallBinds(procedure, args);
    case _ =>
      var c := FlattenInput(e).value;
      QueryBinds(WrittenQuery(c, nullsLast), LimitOf(c), OffsetOf(c));
  }

  /** A read is the statement of the query its clauses resolve to. */
  lemma RenderedReads(e: Expr, maxIn: int, nullsLast: bool, returning: seq<string>)
    requires IsRead(e) && Rendered(e, maxIn, nullsLast, returning).Some?
    ensures FlattenInput(e).Ok? && Renderable(FlattenInput(e).value)
    ensures var c := FlattenInput(e).value;
            Rendered(e, maxIn, nullsLast, returning).value == OfQuery(QueryOf(c, nullsLast), LimitOf(c), OffsetOf(c))
  {
    FlattenedShape(e);
    AcceptedWritten(FlattenInput(e).value, maxIn, nullsLast);
  }

  // --- point lookups ---

  /** The conditions of a conjunction, and whether it is one. */
  function FlattenAnd(p: Predicate): (seq<Predicate>, bool)
    decreases p, 1
  {
    match p
    case Nil => ([], true)
    case Condition(_, _, _) => ([p], true)
    case And(ps) => FlattenAnds(ps)
    case _ => ([], false)
  }

  function FlattenAnds(ps: seq<Predicate>): (seq<Predicate>, bool)
    decreases ps, 0
  {
    if ps == [] then ([], true)
    else
      var (cs, pure) := FlattenAnd(ps[0]);
      var (more, rest) := FlattenAnds(ps[1..]);
      if pure && rest then (cs + more, true) else ([], false)
  }

  lemma {:induction false} FlattenAndMeans(db: Db, env: Env, p: Predicate)
    requires FlattenAnd(p).1
    ensures forall i :: 0 <= i < |FlattenAnd(p).0| ==> FlattenAnd(p).0[i].Condition?
    ensures Meaning(db, env, p) == True ==>
              forall i :: 0 <= i < |FlattenAnd(p).0| ==> Meaning(db, env, FlattenAnd(p).0[i]) == True
    decreases p, 1
  {
    if p.And? {
      FlattenAndsMean(db, env, p.preds);
    }
  }

  lemma {:induction false} FlattenAndsMean(db: Db, env: Env, ps: seq<Predicate>)
    requires FlattenAnds(ps).1
    ensures forall i :: 0 <= i < |FlattenAnds(ps).0| ==> FlattenAnds(ps).0[i].Condition?
    ensures AndAll(Meanings(db, env, ps)) == True ==>
              forall i :: 0 <= i < |FlattenAnds(ps).0| ==> Meaning(db, env, FlattenAnds(ps).0[i]) == True
    decreases ps, 0
  {
    if ps != [] {
      FlattenAndMeans(db, env, ps[0]);
      FlattenAndsMean(db, env, ps[1..]);
      assert Meanings(db, env, ps)[1..] == Meanings(db, env, ps[1..]);
    }
  }

  predicate NoDup(xs: seq<string>) {
    forall i, j :: 0 <= i < j < |xs| ==> xs[i] != xs[j]
  }

  /** p is a conjunction equating every column of key, and comparing none of
      them otherwise. */
  predicate KeyPoint(p: Predicate, key: seq<string>) {
    && key != [] && NoDup(key) && FlattenAnd(p).1
    && var cs := FlattenAnd(p).0;
       && Covers(cs, key)
       && (forall i :: 0 <= i < |cs| ==> (cs[i].Condition? && cs[i].field in key ==> cs[i].op.Eq?))
  }

  /** No two rows agree, without a NULL, on every column of key. */
  predicate Identifies(key: seq<string>, rows: seq<Row>) {
    forall i, j :: 0 <= i < j < |rows| ==>
      exists k :: k in key && (Get(rows[i], k).Null? || Get(rows[j], k).Null? || Get(rows[i], k) != Get(rows[j], k))
  }

  ghost predicate Matches(db: Db, p: Predicate, row: Row) {
    Meaning(db, Env(row, map[]), p) == True
  }

  /** A point lookup matches at most one row of a table its key identifies. */
  lemma KeyPointMatchesOne(db: Db, p: Predicate, key: seq<string>, rows: seq<Row>, i: nat, j: nat)
    requires KeyPoint(p, key) && Identifies(key, rows)
    requires i < |rows| && j < |rows| && Matches(db, p, rows[i]) && Matches(db, p, rows[j])
    ensures i == j
  {
    if i != j {
      var a, b := if i < j then i else j, if i < j then j else i;
      forall k | k in key ensures !Get(rows[a], k).Null? && Get(rows[a], k) == Get(rows[b], k) {
        KeyColumnEquals(db, p, key, rows[a], rows[b], k);
      }
    }
  }

  lemma KeyColumnEquals(db: Db, p: Predicate, key: seq<string>, row: Row, other: Row, k: string)
    requires KeyPoint(p, key) && k in key && Matches(db, p, row) && Matches(db, p, other)
    ensures !Get(row, k).Null? && Get(row, k) == Get(other, k)
  {
    var cs := FlattenAnd(p).0;
    var i :| 0 <= i < |cs| && cs[i].Condition? && cs[i].field == k;
    FlattenAndMeans(db, Env(row, map[]), p);
    FlattenAndMeans(db, Env(other, map[]), p);
    assert Meaning(db, Env(row, map[]), cs[i]) == True && Meaning(db, Env(other, map[]), cs[i]) == True;
  }

  /** Whether p is a point lookup on key. */
  method IsKeyPoint(p: Predicate, key: seq<string>) returns (point: bool)
    ensures point <==> KeyPoint(p, key)
  {
    hide FlattenAnd, FlattenAnds;
    if key == [] {
      return false;
    }
    var (conds, pure) := FlattenAnd(p);
    FlattenAndConditions(p);
    if !pure {
      return false;
    }
    if |conds| < |key| {
      TooFew(conds, key);
      return false;
    }
    var keySet := set k | k in key;
    var seen: set<string> := {};
    for i := 0 to |conds|
      invariant forall j :: 0 <= j < i ==> (conds[j].field in key ==> conds[j].op.Eq?)
      invariant seen == Seen(conds[..i], key)
    {
      assert conds[..i + 1][..i] == conds[..i];
      if conds[i].field in keySet {
        if !conds[i].op.Eq? {
          return false;
        }
        seen := seen + {conds[i].field};
      }
    }
    assert conds[..|conds|] == conds;
    SeenAll(conds, key);
    point := |seen| == |key|;
  }

  lemma {:induction false} FlattenAndConditions(p: Predicate)
    ensures forall i :: 0 <= i < |FlattenAnd(p).0| ==> FlattenAnd(p).0[i].Condition?
    decreases p, 1
  {
    if p.And? {
      FlattenAndsConditions(p.preds);
    }
  }

  lemma {:induction false} FlattenAndsConditions(ps: seq<Predicate>)
    ensures forall i :: 0 <= i < |FlattenAnds(ps).0| ==> FlattenAnds(ps).0[i].Condition?
    decreases ps, 0
  {
    if ps != [] {
      FlattenAndConditions(ps[0]);
      FlattenAndsConditions(ps[1..]);
    }
  }

  function Elements(xs: seq<string>): set<string> {
    set x | x in xs
  }

  lemma {:induction false} ElementCount(xs: seq<string>)
    ensures |Elements(xs)| <= |xs|
    ensures |Elements(xs)| == |xs| <==> NoDup(xs)
  {
    if xs != [] {
      var init, last := xs[..|xs|-1], xs[|xs|-1];
      ElementCount(init);
      assert Elements(xs) == Elements(init) + {last};
      if last in Elements(init) {
        var i :| 0 <= i < |init| && init[i] == last;
        assert xs[i] == xs[|xs|-1];
      } else {
        assert forall i :: 0 <= i < |init| ==> xs[i] in Elements(init);
      }
    }
  }

  lemma SubsetCount(a: set<string>, b: set<string>)
    requires a <= b
    ensures |a| <= |b| && (|a| == |b| <==> a == b)
  {
    assert b == a + (b - a);
    if |b - a| == 0 {
      assert b - a == {};
    }
  }

  /** The columns of key the conditions are on. */
  function Seen(conds: seq<Predicate>, key: seq<string>): set<string> {
    if conds == [] then {}
    else
      var last := conds[|conds|-1];
      Seen(conds[..|conds|-1], key) + (if last.Condition? && last.field in key then {last.field} else {})
  }

  lemma {:induction false} SeenMeans(conds: seq<Predicate>, key: seq<string>, k: string)
    ensures k in Seen(conds, key) <==>
            k in key && exists i :: 0 <= i < |conds| && conds[i].Condition? && conds[i].field == k
  {
    if conds != [] {
      SeenMeans(conds[..|conds|-1], key, k);
    }
  }

  lemma {:induction false} SeenCount(conds: seq<Predicate>, key: seq<string>)
    ensures |Seen(conds, key)| <= |conds|
  {
    if conds != [] {
      SeenCount(conds[..|conds|-1], key);
    }
  }

  predicate Covers(conds: seq<Predicate>, key: seq<string>) {
    forall k :: k in key ==> exists i :: 0 <= i < |conds| && conds[i].Condition? && conds[i].field == k
  }

  /** As many columns seen as the key has: all of them, none twice. */
  lemma SeenAll(conds: seq<Predicate>, key: seq<string>)
    ensures |Seen(conds, key)| == |key| <==> NoDup(key) && Covers(conds, key)
  {
    var seen := Seen(conds, key);
    ElementCount(key);
    forall k
      ensures k in seen <==> k in key && exists i :: 0 <= i < |conds| && conds[i].Condition? && conds[i].field == k
    {
      SeenMeans(conds, key, k);
    }
    SubsetCount(seen, Elements(key));
    if seen == Elements(key) {
      assert forall k :: k in key ==> k in Elements(key);
    }
  }

  lemma TooFew(conds: seq<Predicate>, key: seq<string>)
    requires |conds| < |key|
    ensures !(NoDup(key) && Covers(conds, key))
  {
    SeenCount(conds, key);
    SeenAll(conds, key);
  }

  // --- the WHERE predicate of a plan ---

  function InputOf(e: Expr): Option<Expr> {
    match e
    case Select(input, _) => Some(input)
    case Project(input, _) => Some(input)
    case Aggregate(input, _, _) => Some(input)
    case Having(input, _) => Some(input)
    case Sort(input, _) => Some(input)
    case Limit(input, _, _) => Some(input)
    case Distinct(input) => Some(input)
    case Join(input, _, _, _, _) => Some(input)
    case _ => None
  }

  function OwnPredicate(e: Expr): seq<Predicate> {
    if e.Select? || e.Update? || e.Delete? then [e.pred] else []
  }

  /** Every predicate along the chain, innermost first. */
  function Predicates(e: Expr): seq<Predicate> {
    match InputOf(e)
    case None => OwnPredicate(e)
    case Some(input) => Predicates(input) + OwnPredicate(e)
  }

  function Reversed<T>(xs: seq<T>): seq<T> {
    if xs == [] then [] else Reversed(xs[1..]) + [xs[0]]
  }

  lemma {:induction false} ReversedSnoc<T>(xs: seq<T>, x: T)
    ensures Reversed(xs + [x]) == [x] + Reversed(xs)
  {
    if xs == [] {
      assert xs + [x] == [x];
    } else {
      assert (xs + [x])[1..] == xs[1..] + [x];
      ReversedSnoc(xs[1..], x);
    }
  }

  method PredicateOf(e: Expr) returns (p: Predicate)
    ensures p == WhereOf(Predicates(e))
  {
    var preds: seq<Predicate> := [];
    var at := Some(e);
    while at.Some?
      invariant (if at.None? then [] else Predicates(at.value)) + Reversed(preds) == Predicates(e)
      decreases at.Some?, if at.Some? then at.value else e
    {
      var own := OwnPredicate(at.value);
      if own != [] {
        ReversedSnoc(preds, own[0]);
        preds := preds + [own[0]];
      }
      at := InputOf(at.value);
    }
    ReversedLength(preds);
    if |preds| == 0 {
      return Nil;
    }
    if |preds| == 1 {
      return preds[0];
    }
    p := And(Reversed(preds));
  }

  lemma {:induction false} ReversedLength<T>(xs: seq<T>)
    ensures |Reversed(xs)| == |xs|
  {
    if xs != [] {
      ReversedLength(xs[1..]);
    }
  }

  /** What the gate takes for a read's predicate is its WHERE clause. */
  lemma {:induction false} PredicatesAreWhere(e: Expr)
    requires FlattenInput(e).Ok?
    ensures Predicates(e) == FlattenInput(e).value.wheres
  {
    match e
    case Scan(_, _) =>
    case Select(input, _) => PredicatesAreWhere(input);
    case Project(input, _) => PredicatesAreWhere(input);
    case Aggregate(input, _, _) => PredicatesAreWhere(input);
    case Having(input, _) => PredicatesAreWhere(input);
    case Sort(input, _) => PredicatesAreWhere(input);
    case Limit(input, _, _) => PredicatesAreWhere(input);
    case Distinct(input) => PredicatesAreWhere(input);
    case Join(input, _, _, _, _) => PredicatesAreWhere(input);
  }

  // --- kinds ---

  datatype Kind = KindRead | KindAggregate | KindWrite | KindCall

  function Innermost(e: Expr): Expr {
    match InputOf(e)
    case None => e
    case Some(input) => Innermost(input)
  }

  predicate Aggregating(e: Expr) {
    e.Aggregate? || (InputOf(e).Some? && Aggregating(InputOf(e).value))
  }

  /** A chain that ends in no scan is taken for a write. */
  method KindOf(e: Expr) returns (kind: Kind)
    ensures kind == KindCall <==> e.Call?
    ensures kind == KindRead <==> Innermost(e).Scan? && !Aggregating(e)
    ensures kind == KindAggregate <==> Innermost(e).Scan? && Aggregating(e)
  {
    if IsWrite(e) {
      return KindWrite;
    }
    if e.Call? {
      return KindCall;
    }
    kind := KindRead;
    var at := e;
    while true
      invariant kind == KindRead || kind == KindAggregate
      invariant Innermost(at) == Innermost(e)
      invariant Aggregating(e) <==> kind == KindAggregate || Aggregating(at)
      decreases at
    {
      if at.Aggregate? {
        kind := KindAggregate;
      }
      var input := InputOf(at);
      if input.None? {
        break;
      }
      at := input.value;
    }
    if !at.Scan? {
      kind := KindWrite;
    }
  }

  // --- compiled statements ---

  datatype Compiled = Compiled(
    expr: Expr, kind: Kind, text: Rendering, isKeyPoint: bool, primaryKey: seq<string>, readOnly: bool)

  lemma ContentsOf<T>(b: Buffer<T>, xs: seq<T>)
    requires b == Append(Empty, xs)
    ensures Contents(b) == xs
  {
    ContentsAppend<T>(Empty, xs);
  }

  /** Renders e with a new builder. */
  method RenderExpr(
    e: Expr, maxIn: int, nullsLast: bool, returning: seq<string>) returns (r: Outcome<Rendering>, readOnly: bool)
    ensures r.Ok? <==> Rendered(e, maxIn, nullsLast, returning).Some?
    ensures r.Ok? ==> r.value == Rendered(e, maxIn, nullsLast, returning).value
    ensures readOnly <==> IsRead(e)
  {
    var b := new Builder(maxIn, nullsLast, returning);
    if IsRead(e) {
      r := RenderRead(e, b);
    } else {
      r := RenderOther(e, b);
    }
    readOnly := b.readOnly;
  }

  method RenderOther(e: Expr, b: Builder) returns (r: Outcome<Rendering>)
    requires !IsRead(e) && b.Valid() && b.Now() == Progress(Empty, Empty, 0, 0)
    requires b.NamesNow() == BARE && b.scope == "" && b.calls == []
    modifies b
    ensures b.readOnly == old(b.readOnly)
    ensures r.Ok? <==> Rendered(e, b.maxIn, b.nullsLast, b.returning).Some?
    ensures r.Ok? ==> r.value == Rendered(e, b.maxIn, b.nullsLast, b.returning).value
  {
    var ok: Outcome<()> := Ok(());
    match e {
      case Insert(target, columns, tuples) => ok := b.RenderInsert(target, columns, tuples);
      case Update(target, pred, sets) => ok := b.RenderUpdate(target, pred, sets);
      case Delete(target, pred) => ok := b.RenderDelete(target, pred);
      case Call(procedure, args) => b.RenderCall(procedure, args);
    }
    if ok.Err? {
      return Err(ok.error);
    }
    ghost var t := Rendered(e, b.maxIn, b.nullsLast, b.returning).value;
    ContentsOf(b.sql, t.sql);
    ContentsOf(b.args, t.args);
    r := Ok(Uncapped(Contents(b.sql), Contents(b.args)));
  }

  method RenderRead(e: Expr, b: Builder) returns (r: Outcome<Rendering>)
    requires IsRead(e) && b.Valid() && b.Now() == Progress(Empty, Empty, 0, 0) && b.capLimit == 0 && b.capOffset == 0
    requires b.root == "" && b.joins == {} && b.scope == "" && b.calls == []
    modifies b
    ensures b.readOnly
    ensures r.Ok? <==> FlattenInput(e).Ok? && Accepted(FlattenInput(e).value, b.maxIn)
    ensures r.Ok? ==> var c := FlattenInput(e).value;
                      r.value == OfQuery(WrittenQuery(c, b.nullsLast), LimitOf(c), OffsetOf(c))
  {
    b.readOnly := true;
    var ok := b.RenderSelect(e);
    if ok.Err? {
      return Err(ok.error);
    }
    ghost var c := FlattenInput(e).value;
    FlattenedShape(e);
    AcceptedWritten(c, b.maxIn, b.nullsLast);
    ghost var t := OfQuery(WrittenQuery(c, b.nullsLast), LimitOf(c), OffsetOf(c));
    ContentsOf(b.sql, t.sql);
    ContentsOf(b.args, t.args);
    ContentsOf(b.capBase, t.capBase);
    r := Ok(Rendering(Contents(b.sql), Contents(b.args), Contents(b.capBase), b.capLimit, b.capOffset));
  }

  function Keys(pk: seq<string>, keys: Option<seq<seq<string>>>): seq<seq<string>> {
    match keys
    case Some(ks) => ks
    case None => if pk == [] then [] else [pk]
  }

  /** Whether p is a point lookup on one of keys. */
  method IsPoint(p: Predicate, keys: seq<seq<string>>) returns (point: bool)
    ensures point <==> exists i :: 0 <= i < |keys| && KeyPoint(p, keys[i])
  {
    point := false;
    for i := 0 to |keys|
      invariant !point && forall j :: 0 <= j < i ==> !KeyPoint(p, keys[j])
    {
      point := IsKeyPoint(p, keys[i]);
      if point {
        return;
      }
    }
  }

  /** c is e rendered, of its kind, and a key point exactly when its predicate
      is a point lookup on an identity key. */
  ghost predicate CompiledOf(
    c: Compiled, e: Expr, nullsLast: bool, returning: seq<string>, maxIn: int, pk: seq<string>,
    keys: Option<seq<seq<string>>>)
  {
    && Rendered(e, maxIn, nullsLast, returning) == Some(c.text)
    && c.expr == e && c.primaryKey == pk && c.readOnly == IsRead(e)
    && (c.kind == KindWrite <==> IsWrite(e)) && (c.kind == KindCall <==> e.Call?)
    && (c.isKeyPoint <==> var all := Keys(pk, keys);
       exists i :: 0 <= i < |all| && KeyPoint(WhereOf(Predicates(e)), all[i]))
  }

  /** keys are the identity keys, None when only the primary key is one. */
  method Compile(
    e: Expr, nullsLast: bool, returning: seq<string>, maxIn: int, pk: seq<string>, keys: Option<seq<seq<string>>>)
    returns (r: Outcome<Compiled>)
    ensures r.Ok? <==> 0 < maxIn && Rendered(e, maxIn, nullsLast, returning).Some?
    ensures r.Ok? ==> CompiledOf(r.value, e, nullsLast, returning, maxIn, pk, keys)
  {
    if maxIn <= 0 {
      return Err(InvalidPredicate);
    }
    var text, readOnly := RenderExpr(e, maxIn, nullsLast, returning);
    if text.Err? {
      return Err(text.error);
    }
    var kind := KindOf(e);
    RenderedKind(e, maxIn, nullsLast, returning);
    var p := PredicateOf(e);
    var point := IsPoint(p, Keys(pk, keys));
    r := Ok(Compiled(e, kind, text.value, point, pk, readOnly));
  }

  lemma RenderedKind(e: Expr, maxIn: int, nullsLast: bool, returning: seq<string>)
    requires Rendered(e, maxIn, nullsLast, returning).Some?
    ensures Innermost(e).Scan? <==> IsRead(e)
  {
    if IsRead(e) {
      FlattenedScan(e);
    }
  }

  lemma {:induction false} FlattenedScan(e: Expr)
    requires FlattenInput(e).Ok?
    ensures Innermost(e).Scan?
  {
    match e
    case Scan(_, _) =>
    case Select(input, _) => FlattenedScan(input);
    case Project(input, _) => FlattenedScan(input);
    case Aggregate(input, _, _) => FlattenedScan(input);
    case Having(input, _) => FlattenedScan(input);
    case Sort(input, _) => FlattenedScan(input);
    case Limit(input, _, _) => FlattenedScan(input);
    case Distinct(input) => FlattenedScan(input);
    case Join(input, _, _, _, _) => FlattenedScan(input);
  }

  // --- capping rows ---

  /** t reading at most n rows, and whether it could be made to. */
  function CapRows(t: Rendering, n: int): (Rendering, bool) {
    if t.capBase == [] || n < 1 || t.sql != t.capBase + LimitClause(t.capLimit, t.capOffset) then (t, false)
    else if t.capLimit >= 1 && t.capLimit <= n then (t, true)
    else (t.(capLimit := n, sql := t.capBase + LimitClause(n, t.capOffset)), true)
  }

  lemma BaseNotEmpty(q: Query)
    ensures PrintBase(q) != []
  {
  }

  /** The limit a cap of n leaves. */
  function Capped(limit: int, n: int): int {
    if 1 <= limit <= n then limit else n
  }

  lemma CapRowsText(q: Query, limit: int, offset: int, n: int)
    requires n >= 1
    ensures CapRows(OfQuery(q, limit, offset), n) == (OfQuery(q, Capped(limit, n), offset), true)
  {
    BaseNotEmpty(q);
  }

  /** A rendered read is capped to a statement with the same arguments whose
      result is the first n rows of its own, and which is refused when it is. */
  lemma CapRowsPrefix(db: Db, q: Query, limit: int, offset: int, n: int)
    requires n >= 1 && (limit < 1 ==> offset == 0)
    ensures var rows, all := Result(db, q, Capped(limit, n), offset), Result(db, q, limit, offset);
            && (rows.Some? <==> all.Some?)
            && (all.Some? ==> |rows.value| <= n && rows.value <= all.value && (|all.value| <= n ==> rows == all))
  {
    hide Exposed, Sortable, SelectedOutputs, Cut;
    CutPrefix(SelectedOutputs(db, q), limit, offset, n);
  }

  lemma CutPrefix<A>(xs: seq<A>, limit: int, offset: int, n: int)
    requires n >= 1 && (limit < 1 ==> offset == 0)
    ensures var rows, all := Cut(xs, Capped(limit, n), offset), Cut(xs, limit, offset);
            |rows| <= n && rows <= all && (|all| <= n ==> rows == all)
  {
  }
}
