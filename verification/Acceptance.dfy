/** Which plans compile, said of their nodes and predicates and not of how the
    renderer walks them. */
module Acceptance {
  import opened Relalg
  import opened Flatten
  import opened Resolve
  import opened Validate
  import opened Render
  import opened Compile

  // --- the predicates within a predicate ---

  predicate Part(p: Predicate, q: Predicate) {
    match p
    case And(ps) => q in ps
    case Or(ps) => q in ps
    case Not(r) => q == r
    case Exists(_, _, inner) => q == inner
    case _ => false
  }

  /** Each of way is a part of the one before it. */
  predicate Way(way: seq<Predicate>) {
    forall i :: 0 <= i < |way| - 1 ==> Part(way[i], way[i + 1])
  }

  predicate Leads(way: seq<Predicate>, p: Predicate, q: Predicate) {
    way != [] && way[0] == p && way[|way|-1] == q && Way(way)
  }

  /** q is p, or within it at any depth. */
  ghost predicate Within(p: Predicate, q: Predicate) {
    exists way :: Leads(way, p, q)
  }

  predicate Known(op: Op) {
    op in {Eq, Ne, Gt, Gte, Lt, Lte, Like, IsNull, IsNotNull, In, NotIn}
  }

  predicate Lists(op: Op) {
    op in {In, NotIn}
  }

  /** A condition has a field and a known operator: a test for NULL without a
      value, a list of one to maxIn for IN. */
  predicate SoundCondition(field: string, op: Op, operand: Operand, maxIn: int) {
    && field != "" && Known(op)
    && (op in {IsNull, IsNotNull} ==> operand == Scalar(Null))
    && (Lists(op) ==> operand.List? && 1 <= |operand.values| <= maxIn)
  }

  /** What a predicate must be, its parts aside: a list of operands has some, and
      no operand is missing; an EXISTS names a relation and pairs of columns, and
      has none within it. */
  ghost predicate Sound(p: Predicate, maxIn: int) {
    match p
    case Nil => true
    case Condition(field, op, operand) => SoundCondition(field, op, operand, maxIn)
    case And(ps) => |ps| >= 1 && Nil !in ps
    case Or(ps) => |ps| >= 1 && Nil !in ps
    case Not(q) => q != Nil
    case Exists(relation, on, inner) =>
      relation.name != "" && |on| >= 1 && forall q :: Within(inner, q) ==> !q.Exists?
  }

  /** Every predicate within p, itself included, is sound. */
  ghost predicate AllSound(p: Predicate, maxIn: int) {
    forall q :: Within(p, q) ==> Sound(q, maxIn)
  }

  lemma WithinSelf(p: Predicate)
    ensures Within(p, p)
  {
    assert Leads([p], p, p);
  }

  lemma WithinPart(p: Predicate, q: Predicate, r: Predicate)
    requires Part(p, q) && Within(q, r)
    ensures Within(p, r)
  {
    var way :| Leads(way, q, r);
    assert Leads([p] + way, p, r) by {
      assert forall i :: 0 < i < |way| ==> ([p] + way)[i] == way[i - 1];
    }
  }

  /** What is within p is p, or within a part of it. */
  lemma WithinEither(p: Predicate, r: Predicate)
    requires Within(p, r)
    ensures r == p || exists q :: Part(p, q) && Within(q, r)
  {
    var way :| Leads(way, p, r);
    if |way| > 1 {
      assert Leads(way[1..], way[1], r);
      assert Part(p, way[1]) && Within(way[1], r);
    }
  }

  lemma PartsSound(p: Predicate, maxIn: int)
    ensures AllSound(p, maxIn) <==> Sound(p, maxIn) && forall q :: Part(p, q) ==> AllSound(q, maxIn)
  {
    WithinSelf(p);
    if AllSound(p, maxIn) {
      forall q, r | Part(p, q) && Within(q, r) ensures Sound(r, maxIn) {
        WithinPart(p, q, r);
      }
    }
    if Sound(p, maxIn) && forall q :: Part(p, q) ==> AllSound(q, maxIn) {
      forall r | Within(p, r) ensures Sound(r, maxIn) {
        WithinEither(p, r);
      }
    }
  }

  ghost predicate AnyWithin(p: Predicate) {
    exists q :: Within(p, q) && q.Exists?
  }

  lemma PartsExist(p: Predicate)
    ensures AnyWithin(p) <==> p.Exists? || exists q :: Part(p, q) && AnyWithin(q)
  {
    WithinSelf(p);
    if AnyWithin(p) {
      var r :| Within(p, r) && r.Exists?;
      WithinEither(p, r);
    }
    if q :| Part(p, q) && AnyWithin(q) {
      var r :| Within(q, r) && r.Exists?;
      WithinPart(p, q, r);
    }
  }

  /** The code finds an EXISTS exactly where one is within. */
  lemma {:induction false} ExistsIsWithin(p: Predicate)
    ensures HasExists(p) <==> AnyWithin(p)
  {
    PartsExist(p);
    match p
    case And(ps) => AnyIsWithin(ps);
    case Or(ps) => AnyIsWithin(ps);
    case Not(q) => ExistsIsWithin(q);
    case _ =>
  }

  lemma {:induction false} AnyIsWithin(ps: seq<Predicate>)
    ensures forall i :: 0 <= i < |ps| ==> (HasExists(ps[i]) <==> AnyWithin(ps[i]))
  {
    forall i | 0 <= i < |ps| ensures HasExists(ps[i]) <==> AnyWithin(ps[i]) {
      ExistsIsWithin(ps[i]);
    }
  }

  // --- what validation passes ---

  lemma {:induction false} AllAreValid(ps: seq<Predicate>, maxIn: int)
    ensures ValidAll(ps, maxIn) <==> forall q :: q in ps ==> !q.Nil? && Valid(q, maxIn)
  {
    if ps != [] {
      AllAreValid(ps[1..], maxIn);
      assert forall q :: q in ps <==> q == ps[0] || q in ps[1..];
    }
  }

  /** Validation passes a predicate exactly when every predicate within it is
      sound. */
  lemma {:induction false} ValidIsSound(p: Predicate, maxIn: int)
    ensures Valid(p, maxIn) <==> maxIn >= 1 && AllSound(p, maxIn)
    decreases p, 1
  {
    PartsSound(p, maxIn);
    match p
    case And(ps) => AllAreValid(ps, maxIn); AllAreSound(ps, maxIn);
    case Or(ps) => AllAreValid(ps, maxIn); AllAreSound(ps, maxIn);
    case Not(q) => ValidIsSound(q, maxIn);
    case Exists(_, _, inner) => ValidIsSound(inner, maxIn); ExistsIsWithin(inner);
    case _ =>
  }

  lemma {:induction false} AllAreSound(ps: seq<Predicate>, maxIn: int)
    ensures forall q :: q in ps ==> (Valid(q, maxIn) <==> maxIn >= 1 && AllSound(q, maxIn))
    decreases ps, 0
  {
    forall q | q in ps ensures Valid(q, maxIn) <==> maxIn >= 1 && AllSound(q, maxIn) {
      var i :| 0 <= i < |ps| && ps[i] == q;
      ValidIsSound(ps[i], maxIn);
    }
  }

  // --- a read as its nodes ---

  /** A node of a read, what it is over aside. */
  datatype Node =
    | JoinNode(right: RelationRef, alias: string, on: seq<JoinPair>, pred: Predicate)
    | SelectNode(pred: Predicate)
    | AggregateNode(groupBy: seq<string>, calls: seq<AggCall>)
    | HavingNode(pred: Predicate)
    | SortNode(terms: seq<OrderTerm>)
    | ProjectNode(items: seq<ProjectItem>)
    | DistinctNode
    | LimitNode(count: int, offset: int)

  function Over(e: Expr, n: Node): Expr {
    match n
    case JoinNode(right, alias, on, pred) => Join(e, right, alias, on, pred)
    case SelectNode(p) => Select(e, p)
    case AggregateNode(groupBy, calls) => Aggregate(e, groupBy, calls)
    case HavingNode(p) => Having(e, p)
    case SortNode(terms) => Expr.Sort(e, terms)
    case ProjectNode(items) => Project(e, items)
    case DistinctNode => Distinct(e)
    case LimitNode(count, offset) => Limit(e, count, offset)
  }

  /** The read of a relation with nodes over it, the first innermost. */
  function Chain(r: RelationRef, alias: string, nodes: seq<Node>): Expr {
    if nodes == [] then Scan(r, alias) else Over(Chain(r, alias, nodes[..|nodes|-1]), nodes[|nodes|-1])
  }

  /** Where SQL applies a node of one SELECT. */
  function Place(n: Node): nat {
    match n
    case JoinNode(_, _, _, _) => 1
    case SelectNode(_) => 2
    case AggregateNode(_, _) => 3
    case HavingNode(_) => 4
    case SortNode(_) => 5
    case ProjectNode(_) => 6
    case DistinctNode => 7
    case LimitNode(_, _) => 8
  }

  /** m may be over n: SQL applies it after, or the two are joins or selections. */
  predicate MayFollow(n: Node, m: Node) {
    Place(n) < Place(m) || (n.JoinNode? && m.JoinNode?) || (n.SelectNode? && m.SelectNode?)
  }

  /** What a node asks for itself, its predicates aside. */
  predicate Shapely(n: Node) {
    match n
    case JoinNode(_, alias, on, _) => alias != "" && alias != "_" && |on| >= 1
    case SelectNode(p) => p != Nil
    case HavingNode(p) => p != Nil
    case LimitNode(count, offset) => count >= 1 && offset >= 0
    case _ => true
  }

  predicate Groups(n: Node) {
    n.AggregateNode? && (n.groupBy != [] || n.calls != [])
  }

  /** The two may be of one read, n below m. */
  predicate Agree(n: Node, m: Node) {
    MayFollow(n, m) && (n.JoinNode? && m.JoinNode? ==> n.alias != m.alias) && !(Groups(n) && m.ProjectNode?)
  }

  /** The nodes are in order, no two joins have the same alias, HAVING is over an
      aggregate and nothing projects one. */
  predicate InOrder(nodes: seq<Node>) {
    && (forall i :: 0 <= i < |nodes| ==> Shapely(nodes[i]))
    && (forall i, j :: 0 <= i < j < |nodes| ==> Agree(nodes[i], nodes[j]))
    && (forall i :: 0 <= i < |nodes| && nodes[i].HavingNode? ==> i > 0 && nodes[i - 1].AggregateNode?)
  }

  predicate SoundCall(a: AggCall) {
    a.fn in {Count, Sum, Avg, Min, Max} && (a.field == "" ==> a.fn == Count)
  }

  /** The predicates of a node are sound, a join's without an EXISTS, and its calls
      are of known functions, on a field but for COUNT. */
  ghost predicate SoundNode(n: Node, maxIn: int) {
    match n
    case JoinNode(_, _, _, p) => AllSound(p, maxIn) && !AnyWithin(p)
    case SelectNode(p) => AllSound(p, maxIn)
    case HavingNode(p) => AllSound(p, maxIn)
    case AggregateNode(_, calls) => forall i :: 0 <= i < |calls| ==> SoundCall(calls[i])
    case _ => true
  }

  /** What compiles: of a read, the nodes are in order and sound; of a write, rows
      of as many values as columns, or something set in rows a sound predicate
      bounds. */
  ghost predicate Compiles(e: Expr, maxIn: int) {
    match e
    case Insert(_, columns, tuples) =>
      |columns| >= 1 && |tuples| >= 1 && forall i :: 0 <= i < |tuples| ==> |tuples[i]| == |columns|
    case Update(_, p, sets) => |sets| >= 1 && p != Nil && AllSound(p, maxIn)
    case Delete(_, p) => p != Nil && AllSound(p, maxIn)
    case Call(_, _) => true
    case _ =>
      exists r, alias, nodes ::
        e == Chain(r, alias, nodes) && InOrder(nodes) && forall i :: 0 <= i < |nodes| ==> SoundNode(nodes[i], maxIn)
  }

  // --- what flattening accepts ---

  lemma OverRank(e: Expr, n: Node)
    ensures RankOf(Over(e, n)) == (Place(n), n.JoinNode? || n.SelectNode?) && !Over(e, n).Scan?
  {
  }

  lemma InOrderSnoc(nodes: seq<Node>, n: Node)
    ensures InOrder(nodes + [n]) <==>
            && InOrder(nodes) && Shapely(n) && (forall i :: 0 <= i < |nodes| ==> Agree(nodes[i], n))
            && (n.HavingNode? ==> nodes != [] && nodes[|nodes|-1].AggregateNode?)
  {
    var all := nodes + [n];
    assert all[|nodes|] == n && forall i :: 0 <= i < |nodes| ==> all[i] == nodes[i];
    if InOrder(all) {
      assert forall i :: 0 <= i < |nodes| ==> Agree(all[i], all[|nodes|]);
      assert forall i, j :: 0 <= i < j < |nodes| ==> Agree(all[i], all[j]);
      assert forall i :: 0 <= i < |nodes| && all[i].HavingNode? ==> i > 0 && all[i - 1].AggregateNode?;
    }
  }

  function PartOf(n: Node): JoinPart
    requires n.JoinNode?
  {
    JoinPart(n.right, n.alias, n.on, n.pred)
  }

  /** c has the parts of the nodes, and no others. */
  ghost predicate Gathers(c: Clauses, nodes: seq<Node>) {
    && (forall p :: p in c.wheres <==> SelectNode(p) in nodes)
    && (forall j :: j in c.joins <==> JoinNode(j.right, j.alias, j.on, j.pred) in nodes)
    && (forall n :: n in nodes && n.HavingNode? ==> c.having == n.pred)
    && (c.having.Nil? || HavingNode(c.having) in nodes)
    && (forall n :: n in nodes && n.AggregateNode? ==> c.groupBy == n.groupBy && c.aggregates == n.calls)
    && ((c.groupBy == [] && c.aggregates == []) || AggregateNode(c.groupBy, c.aggregates) in nodes)
    && c.rank == (if nodes == [] then 0 else Place(nodes[|nodes|-1]))
  }

  /** What n asks of the nodes below it. */
  predicate Goes(nodes: seq<Node>, n: Node) {
    && Shapely(n) && (forall i :: 0 <= i < |nodes| ==> Agree(nodes[i], n))
    && (n.HavingNode? ==> nodes != [] && nodes[|nodes|-1].AggregateNode?)
  }

  lemma LastMayFollow(nodes: seq<Node>, n: Node)
    requires InOrder(nodes)
    ensures (forall i :: 0 <= i < |nodes| ==> MayFollow(nodes[i], n)) <==>
            nodes == [] || MayFollow(nodes[|nodes|-1], n)
  {
    if nodes != [] && MayFollow(nodes[|nodes|-1], n) {
      forall i | 0 <= i < |nodes| ensures MayFollow(nodes[i], n) {
        assert i < |nodes| - 1 ==> Agree(nodes[i], nodes[|nodes|-1]);
      }
    }
  }

  /** The rank check is the order of the nodes. */
  lemma RankChecks(c: Clauses, nodes: seq<Node>, e: Expr, n: Node)
    requires InOrder(nodes) && c.rank == (if nodes == [] then 0 else Place(nodes[|nodes|-1]))
    ensures var (rank, repeats) := RankOf(Over(e, n));
            (c.rank > rank || (c.rank == rank && !repeats)) <==>
            !(forall i :: 0 <= i < |nodes| ==> MayFollow(nodes[i], n))
  {
    OverRank(e, n);
    LastMayFollow(nodes, n);
  }

  lemma AliasTaken(c: Clauses, nodes: seq<Node>, n: Node)
    requires Gathers(c, nodes) && n.JoinNode?
    ensures n.alias in Aliases(c.joins) <==>
            exists i :: 0 <= i < |nodes| && nodes[i].JoinNode? && nodes[i].alias == n.alias
  {
    if n.alias in Aliases(c.joins) {
      var k :| 0 <= k < |c.joins| && c.joins[k].alias == n.alias;
      var j := c.joins[k];
      assert j in c.joins;
      var i :| 0 <= i < |nodes| && nodes[i] == JoinNode(j.right, j.alias, j.on, j.pred);
    }
    if i :| 0 <= i < |nodes| && nodes[i].JoinNode? && nodes[i].alias == n.alias {
      assert nodes[i] in nodes;
      assert PartOf(nodes[i]) in c.joins;
    }
  }

  lemma GroupsBelow(c: Clauses, nodes: seq<Node>)
    requires Gathers(c, nodes)
    ensures c.groupBy != [] || c.aggregates != [] <==> exists i :: 0 <= i < |nodes| && Groups(nodes[i])
  {
    if c.groupBy != [] || c.aggregates != [] {
      var i :| 0 <= i < |nodes| && nodes[i] == AggregateNode(c.groupBy, c.aggregates);
      assert Groups(nodes[i]);
    }
    if i :| 0 <= i < |nodes| && Groups(nodes[i]) {
      assert nodes[i] in nodes;
    }
  }

  /** What n adds to the clauses, before its rank is looked at. */
  function Added(c: Clauses, n: Node): Clauses {
    match n
    case JoinNode(_, _, _, _) => c.(joins := c.joins + [PartOf(n)])
    case SelectNode(p) => c.(wheres := c.wheres + [p])
    case AggregateNode(groupBy, calls) => c.(groupBy := groupBy, aggregates := calls)
    case HavingNode(p) => c.(having := p)
    case SortNode(terms) => c.(order := terms)
    case ProjectNode(items) => c.(cols := items)
    case DistinctNode => c.(distinct := true)
    case LimitNode(count, offset) => c.(limit := count, offset := offset, hasLimit := true)
  }

  /** What flattening asks of a node besides its rank. */
  predicate Joins(c: Clauses, e: Expr, n: Node) {
    && Shapely(n)
    && (n.JoinNode? ==> n.alias !in Aliases(c.joins))
    && (n.ProjectNode? ==> c.aggregates == [] && c.groupBy == [])
    && (n.HavingNode? ==> e.Aggregate?)
  }

  lemma NodeAccepts(e: Expr, n: Node)
    requires FlattenInput(e).Ok? && Shapely(n)
    ensures FlattenNode(Over(e, n)).Ok? <==> Joins(FlattenInput(e).value, e, n)
  {
    hide FlattenInput, Aliases;
  }

  lemma NodeAdds(e: Expr, n: Node)
    requires FlattenInput(e).Ok? && FlattenNode(Over(e, n)).Ok?
    ensures FlattenNode(Over(e, n)).value == Added(FlattenInput(e).value, n)
  {
    hide FlattenInput, Aliases;
  }

  lemma NodeRefuses(e: Expr, n: Node)
    requires FlattenInput(e).Err?
    ensures FlattenNode(Over(e, n)).Err?
  {
    hide FlattenInput, Aliases;
  }

  lemma FlattenOver(e: Expr, n: Node)
    ensures FlattenInput(e).Err? ==> FlattenInput(Over(e, n)).Err?
    ensures FlattenInput(e).Ok? ==>
              var c, (rank, repeats) := FlattenInput(e).value, RankOf(Over(e, n));
              FlattenInput(Over(e, n)).Ok? <==> Joins(c, e, n) && !(c.rank > rank || (c.rank == rank && !repeats))
    ensures FlattenInput(e).Ok? && FlattenInput(Over(e, n)).Ok? ==>
              FlattenInput(Over(e, n)).value == Added(FlattenInput(e).value, n).(rank := RankOf(Over(e, n)).0)
  {
    hide FlattenNode, Joins, Added, RankOf;
    OverRank(e, n);
    AddedRank(e, n);
    RefusedOver(e, n);
    if FlattenInput(e).Err? {
      NodeRefuses(e, n);
    } else if Shapely(n) {
      NodeAccepts(e, n);
      if FlattenNode(Over(e, n)).Ok? {
        NodeAdds(e, n);
      }
    } else {
      ShapelyFirst(e, n);
    }
  }

  lemma ShapelyFirst(e: Expr, n: Node)
    requires FlattenInput(e).Ok? && !Shapely(n)
    ensures !Joins(FlattenInput(e).value, e, n)
  {
  }

  /** Adding a node leaves the rank to be checked. */
  lemma AddedRank(e: Expr, n: Node)
    ensures FlattenInput(e).Ok? ==> Added(FlattenInput(e).value, n).rank == FlattenInput(e).value.rank
  {
    hide FlattenInput;
  }

  /** A node not as it should be is refused. */
  lemma RefusedOver(e: Expr, n: Node)
    ensures !Shapely(n) ==> FlattenInput(Over(e, n)).Err?
    ensures n.SelectNode? && Shapely(n) ==> !Over(e, n).pred.Nil?
  {
  }

  lemma GathersMore(c: Clauses, nodes: seq<Node>, n: Node)
    requires Gathers(c, nodes) && InOrder(nodes + [n])
    ensures Gathers(Added(c, n).(rank := Place(n)), nodes + [n])
  {
    var all, d := nodes + [n], Added(c, n).(rank := Place(n));
    assert forall m :: m in all <==> m in nodes || m == n;
    assert all[|nodes|] == n;
    forall m | m in nodes ensures MayFollow(m, n) {
      var i :| 0 <= i < |nodes| && nodes[i] == m;
      assert Agree(all[i], all[|nodes|]);
    }
    if n.JoinNode? {
      assert forall j: JoinPart :: JoinNode(j.right, j.alias, j.on, j.pred) == n <==> j == PartOf(n);
    }
  }

  /** Flattening accepts a read exactly when its nodes are in order, and gathers
      their parts. */
  lemma {:induction false} FlattensInOrder(r: RelationRef, alias: string, nodes: seq<Node>)
    ensures FlattenInput(Chain(r, alias, nodes)).Ok? <==> InOrder(nodes)
    ensures FlattenInput(Chain(r, alias, nodes)).Ok? ==> Gathers(FlattenInput(Chain(r, alias, nodes)).value, nodes)
    decreases |nodes|
  {
    if nodes != [] {
      var front, n := nodes[..|nodes|-1], nodes[|nodes|-1];
      var e := Chain(r, alias, front);
      assert nodes == front + [n];
      FlattensInOrder(r, alias, front);
      InOrderSnoc(front, n);
      FlattenOver(e, n);
      if FlattenInput(e).Ok? {
        OneMore(r, alias, front, n);
      }
    }
  }

  lemma OneMore(r: RelationRef, alias: string, front: seq<Node>, n: Node)
    requires var e := Chain(r, alias, front);
             FlattenInput(e).Ok? && InOrder(front) && Gathers(FlattenInput(e).value, front)
    ensures var e := Chain(r, alias, front);
            && (FlattenInput(Over(e, n)).Ok? <==> Goes(front, n))
            && (FlattenInput(Over(e, n)).Ok? ==> Gathers(FlattenInput(Over(e, n)).value, front + [n]))
  {
    hide Gathers, FlattenInput, RankOf, Added, InOrder;
    var e := Chain(r, alias, front);
    var c := FlattenInput(e).value;
    FlattenOver(e, n);
    RankIs(c, front);
    RankChecks(c, front, e, n);
    OverRank(e, n);
    if n.JoinNode? {
      AliasTaken(c, front, n);
    }
    GroupsBelow(c, front);
    assert e.Aggregate? <==> front != [] && front[|front|-1].AggregateNode?;
    if Goes(front, n) {
      InOrderSnoc(front, n);
      GathersMore(c, front, n);
    }
  }

  lemma RankIs(c: Clauses, nodes: seq<Node>)
    requires Gathers(c, nodes)
    ensures c.rank == (if nodes == [] then 0 else Place(nodes[|nodes|-1]))
  {
  }

  // --- what compiles ---

  /** What flattening accepts is a chain over a scan. */
  lemma {:induction false} FlattenedIsChain(e: Expr) returns (r: RelationRef, alias: string, nodes: seq<Node>)
    requires FlattenInput(e).Ok?
    ensures e == Chain(r, alias, nodes)
  {
    if e.Scan? {
      r, alias, nodes := e.relation, e.alias, [];
    } else {
      r, alias, nodes := FlattenedIsChain(e.input);
      var n := Outermost(e);
      assert (nodes + [n])[..|nodes|] == nodes;
      nodes := nodes + [n];
    }
  }

  function Outermost(e: Expr): Node
    requires IsRead(e) && !e.Scan?
  {
    match e
    case Select(_, p) => SelectNode(p)
    case Project(_, items) => ProjectNode(items)
    case Aggregate(_, groupBy, calls) => AggregateNode(groupBy, calls)
    case Having(_, p) => HavingNode(p)
    case Sort(_, terms) => SortNode(terms)
    case Limit(_, count, offset) => LimitNode(count, offset)
    case Distinct(_) => DistinctNode
    case Join(_, right, own, on, p) => JoinNode(right, own, on, p)
  }

  lemma {:induction false} EachIsValid(ps: seq<Predicate>, maxIn: int)
    ensures ValidEach(ps, maxIn) <==> forall p :: p in ps ==> Valid(p, maxIn)
  {
    hide Valid;
    if ps != [] {
      EachIsValid(ps[1..], maxIn);
      forall p ensures p in ps <==> p == ps[0] || p in ps[1..] {
      }
      assert ps[0] in ps;
    }
  }

  lemma {:induction false} JoinsAreValid(joins: seq<JoinPart>, maxIn: int)
    ensures ValidJoins(joins, maxIn) <==> forall j :: j in joins ==> ValidJoin(j, maxIn)
  {
    if joins != [] {
      JoinsAreValid(joins[1..], maxIn);
      assert forall j :: j in joins <==> j == joins[0] || j in joins[1..];
    }
  }

  lemma CallIsSound(a: AggCall)
    ensures ValidCall(a) <==> SoundCall(a)
  {
    match a.fn
    case OtherFunc(_) =>
    case _ =>
  }

  lemma JoinIsSound(n: Node, maxIn: int)
    requires n.JoinNode? && maxIn >= 1
    ensures ValidJoin(PartOf(n), maxIn) <==> SoundNode(n, maxIn)
  {
    ValidIsSound(n.pred, maxIn);
    ExistsIsWithin(n.pred);
  }

  ghost predicate EachSound(nodes: seq<Node>, maxIn: int) {
    forall n :: n in nodes ==> SoundNode(n, maxIn)
  }

  /** The clauses are accepted exactly when the nodes they are of are sound. */
  lemma AcceptedIsSound(c: Clauses, nodes: seq<Node>, maxIn: int)
    requires Gathers(c, nodes) && maxIn >= 1
    ensures Accepted(c, maxIn) <==> EachSound(nodes, maxIn)
  {
    hide AllSound, Valid;
    EachIsValid(c.wheres, maxIn);
    JoinsAreValid(c.joins, maxIn);
    if Accepted(c, maxIn) {
      forall n | n in nodes ensures SoundNode(n, maxIn) {
        AcceptedNode(c, nodes, n, maxIn);
      }
    }
    if EachSound(nodes, maxIn) {
      SoundAccepted(c, nodes, maxIn);
    }
  }

  lemma AcceptedNode(c: Clauses, nodes: seq<Node>, n: Node, maxIn: int)
    requires Gathers(c, nodes) && maxIn >= 1 && Accepted(c, maxIn) && n in nodes
    ensures SoundNode(n, maxIn)
  {
    hide AllSound, Valid, HasExists;
    EachIsValid(c.wheres, maxIn);
    JoinsAreValid(c.joins, maxIn);
    match n
    case JoinNode(_, _, _, _) =>
      assert PartOf(n) in c.joins;
      JoinIsSound(n, maxIn);
    case SelectNode(p) => ValidIsSound(p, maxIn);
    case HavingNode(p) => ValidIsSound(p, maxIn);
    case AggregateNode(_, calls) =>
      forall i | 0 <= i < |calls| ensures SoundCall(calls[i]) {
        CallIsSound(calls[i]);
      }
    case _ =>
  }

  lemma SoundAccepted(c: Clauses, nodes: seq<Node>, maxIn: int)
    requires Gathers(c, nodes) && maxIn >= 1 && EachSound(nodes, maxIn)
    ensures Accepted(c, maxIn)
  {
    hide AllSound, Valid, HasExists;
    EachIsValid(c.wheres, maxIn);
    JoinsAreValid(c.joins, maxIn);
    forall p | p in c.wheres ensures Valid(p, maxIn) {
      assert SoundNode(SelectNode(p), maxIn);
      ValidIsSound(p, maxIn);
    }
    forall j | j in c.joins ensures ValidJoin(j, maxIn) {
      JoinIsSound(JoinNode(j.right, j.alias, j.on, j.pred), maxIn);
    }
    HavingSound(c, nodes, maxIn);
    if c.aggregates != [] {
      assert SoundNode(AggregateNode(c.groupBy, c.aggregates), maxIn);
      forall i | 0 <= i < |c.aggregates| ensures ValidCall(c.aggregates[i]) {
        CallIsSound(c.aggregates[i]);
      }
    }
  }

  lemma HavingSound(c: Clauses, nodes: seq<Node>, maxIn: int)
    requires Gathers(c, nodes) && maxIn >= 1 && EachSound(nodes, maxIn)
    ensures Valid(c.having, maxIn)
  {
    if !c.having.Nil? {
      assert SoundNode(HavingNode(c.having), maxIn);
      ValidIsSound(c.having, maxIn);
    }
  }

  /** A plan compiles exactly when its nodes are in order and its predicates and
      calls are sound. */
  lemma CompiledExactly(e: Expr, maxIn: int, nullsLast: bool, returning: seq<string>)
    requires maxIn >= 1
    ensures Rendered(e, maxIn, nullsLast, returning).Some? <==> Compiles(e, maxIn)
  {
    match e
    case Insert(_, _, _) =>
    case Update(_, p, _) => ValidIsSound(p, maxIn);
    case Delete(_, p) => ValidIsSound(p, maxIn);
    case Call(_, _) =>
    case _ => ReadCompiles(e, maxIn, nullsLast, returning);
  }

  lemma ReadCompiles(e: Expr, maxIn: int, nullsLast: bool, returning: seq<string>)
    requires maxIn >= 1 && IsRead(e)
    ensures Rendered(e, maxIn, nullsLast, returning).Some? <==> Compiles(e, maxIn)
  {
    hide FlattenInput, Accepted, Gathers, InOrder, SoundNode, Chain, OfQuery, WrittenQuery, LimitOf, OffsetOf;
    if Rendered(e, maxIn, nullsLast, returning).Some? {
      var r, alias, nodes := FlattenedIsChain(e);
      FlattensInOrder(r, alias, nodes);
      AcceptedIsSound(FlattenInput(e).value, nodes, maxIn);
      assert forall i :: 0 <= i < |nodes| ==> SoundNode(nodes[i], maxIn);
    }
    if r, alias, nodes :|
      e == Chain(r, alias, nodes) && InOrder(nodes) && forall i :: 0 <= i < |nodes| ==> SoundNode(nodes[i], maxIn)
    {
      FlattensInOrder(r, alias, nodes);
      AcceptedIsSound(FlattenInput(e).value, nodes, maxIn);
    }
  }
}
