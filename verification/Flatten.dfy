/** Flattening a read chain into the clauses of one SELECT: the order of nodes
    it accepts, and that the clauses, applied in that order, mean what the
    chain means node by node. */
module Flatten {
  import opened Lists
  import opened Relalg

  /** The alias of the read's own relation when it joins or nests another. */
  const ROOT_ALIAS := "_"

  datatype Error = Unsupported | InvalidLimit | InvalidAggregate | InvalidPredicate | UnboundedWrite | MalformedInsert

  datatype Outcome<T> = Ok(value: T) | Err(error: Error)

  datatype JoinPart = JoinPart(right: RelationRef, alias: string, on: seq<JoinPair>, pred: Predicate)

  /** The flattened parts of a chain; rank is that of the outermost node. */
  datatype Clauses = Clauses(
    relation: RelationRef, scanAlias: string, joins: seq<JoinPart>, wheres: seq<Predicate>,
    cols: seq<ProjectItem>, order: seq<OrderTerm>, groupBy: seq<string>, aggregates: seq<AggCall>,
    having: Predicate, limit: int, offset: int, hasLimit: bool, distinct: bool, rank: int)

  /** The LIMIT and OFFSET of the clauses; a limit of 0 is none. */
  function LimitOf(c: Clauses): int {
    if c.hasLimit then c.limit else 0
  }

  function OffsetOf(c: Clauses): int {
    if c.hasLimit then c.offset else 0
  }

  const NO_CLAUSES :=
    Clauses(RelationRef("", ""), "", [], [], [], [], [], [], Nil, -1, 0, false, false, 0)

  function RankOf(e: Expr): (int, bool) {
    match e
    case Join(_, _, _, _, _) => (1, true)
    case Select(_, _) => (2, true)
    case Aggregate(_, _, _) => (3, false)
    case Having(_, _) => (4, false)
    case Sort(_, _) => (5, false)
    case Project(_, _) => (6, false)
    case Distinct(_) => (7, false)
    case Limit(_, _, _) => (8, false)
    case _ => (0, false)
  }

  function Aliases(joins: seq<JoinPart>): (s: set<string>)
    ensures forall i :: 0 <= i < |joins| ==> joins[i].alias in s
  {
    set i | 0 <= i < |joins| :: joins[i].alias
  }

  /** What the input of a node must flatten to, before the node's own part. */
  function FlattenInput(e: Expr): Outcome<Clauses>
    decreases e, 1
  {
    if e.Select? && e.pred.Nil? then Err(Unsupported)
    else
      match FlattenNode(e)
      case Err(error) => Err(error)
      case Ok(c) =>
        var (rank, repeats) := RankOf(e);
        if !e.Scan? && (c.rank > rank || (c.rank == rank && !repeats)) then Err(Unsupported)
        else Ok(c.(rank := rank))
  }

  function FlattenNode(e: Expr): Outcome<Clauses>
    decreases e, 0
  {
    match e
    case Scan(relation, alias) => Ok(NO_CLAUSES.(relation := relation, scanAlias := alias))
    case Select(input, p) => (
      match FlattenInput(input)
      case Err(error) => Err(error)
      case Ok(c) => Ok(c.(wheres := c.wheres + [p])))
    case Project(input, items) => (
      match FlattenInput(input)
      case Err(error) => Err(error)
      case Ok(c) => if c.aggregates != [] || c.groupBy != [] then Err(Unsupported) else Ok(c.(cols := items)))
    case Sort(input, terms) => (
      match FlattenInput(input)
      case Err(error) => Err(error)
      case Ok(c) => Ok(c.(order := terms)))
    case Limit(input, count, offset) =>
      if count < 1 || offset < 0 then Err(InvalidLimit)
      else (
        match FlattenInput(input)
        case Err(error) => Err(error)
        case Ok(c) => Ok(c.(limit := count, offset := offset, hasLimit := true)))
    case Distinct(input) => (
      match FlattenInput(input)
      case Err(error) => Err(error)
      case Ok(c) => Ok(c.(distinct := true)))
    case Aggregate(input, groupBy, cs) => (
      match FlattenInput(input)
      case Err(error) => Err(error)
      case Ok(c) => Ok(c.(groupBy := groupBy, aggregates := cs)))
    case Having(input, p) =>
      if !input.Aggregate? || p.Nil? then Err(Unsupported)
      else (
        match FlattenInput(input)
        case Err(error) => Err(error)
        case Ok(c) => Ok(c.(having := p)))
    case Join(input, right, alias, on, pred) =>
      if alias == "" || alias == ROOT_ALIAS || on == [] then Err(Unsupported)
      else (
        match FlattenInput(input)
        case Err(error) => Err(error)
        case Ok(c) =>
          if alias in Aliases(c.joins) then Err(Unsupported)
          else Ok(c.(joins := c.joins + [JoinPart(right, alias, on, pred)])))
    case _ => Err(Unsupported)
  }

  // --- the clauses, applied in rank order ---

  ghost function JoinPartRow(db: Db, j: JoinPart): Record -> seq<Record> {
    JoinRow(db, j.right, j.alias, j.on, j.pred)
  }

  ghost function JoinRows(db: Db, joins: seq<JoinPart>, rs: seq<Record>): seq<Record> {
    if joins == [] then rs
    else FlatMap(JoinPartRow(db, joins[|joins|-1]), JoinRows(db, joins[..|joins|-1], rs))
  }

  ghost function SelectRows(db: Db, wheres: seq<Predicate>, rs: seq<Record>): seq<Record> {
    if wheres == [] then rs
    else Filter(Satisfying(db, wheres[|wheres|-1]), SelectRows(db, wheres[..|wheres|-1], rs))
  }

  predicate Aggregates(c: Clauses) {
    c.groupBy != [] || c.aggregates != []
  }

  ghost function Source(db: Db, c: Clauses): seq<Record> {
    SelectRows(db, c.wheres, JoinRows(db, c.joins, ScanRows(db, c.relation)))
  }

  ghost function GroupedRows(db: Db, c: Clauses): seq<Record> {
    if Aggregates(c) then AggregateRows(db, c.groupBy, c.aggregates, Source(db, c)) else Source(db, c)
  }

  ghost function KeptRows(db: Db, c: Clauses): seq<Record> {
    if c.having.Nil? then GroupedRows(db, c)
    else Filter(Satisfying(db, c.having), GroupedRows(db, c))
  }

  ghost function SortedRows(db: Db, c: Clauses): seq<Record> {
    if c.order == [] then KeptRows(db, c)
    else Lists.Sort(Ordering(db, c.order), KeptRows(db, c))
  }

  ghost function ProjectedRows(db: Db, c: Clauses): seq<Record> {
    if c.cols == [] then SortedRows(db, c)
    else Map(Projected(c.cols), SortedRows(db, c))
  }

  ghost function DistinctRows(db: Db, c: Clauses): seq<Record> {
    if c.distinct then Dedup(Returned(), ProjectedRows(db, c)) else ProjectedRows(db, c)
  }

  ghost function Applied(db: Db, c: Clauses): seq<Record> {
    if c.hasLimit then Slice(DistinctRows(db, c), c.offset, c.limit) else DistinctRows(db, c)
  }

  // --- what the rank check is for ---

  /** The parts of nodes above rank are not there. */
  predicate Within(c: Clauses, rank: int) {
    && c.rank <= rank
    && (rank < 1 ==> c.joins == [])
    && (rank < 2 ==> c.wheres == [])
    && (rank < 3 ==> !Aggregates(c))
    && (rank < 4 ==> c.having.Nil?)
    && (rank < 5 ==> c.order == [])
    && (rank < 6 ==> c.cols == [])
    && (rank < 7 ==> !c.distinct)
    && (rank < 8 ==> !c.hasLimit)
  }

  /** Every projection names a column, and every aggregate computes or groups
      something. */
  predicate Shaped(e: Expr) {
    match e
    case Project(input, items) => items != [] && Shaped(input)
    case Aggregate(input, groupBy, cs) => (groupBy != [] || cs != []) && Shaped(input)
    case Select(input, _) => Shaped(input)
    case Having(input, _) => Shaped(input)
    case Sort(input, _) => Shaped(input)
    case Limit(input, _, _) => Shaped(input)
    case Distinct(input) => Shaped(input)
    case Join(input, _, _, _, _) => Shaped(input)
    case _ => true
  }

  lemma {:induction false} FlattenedWithin(e: Expr)
    requires FlattenInput(e).Ok?
    ensures Within(FlattenInput(e).value, RankOf(e).0)
    ensures FlattenInput(e).value.rank == RankOf(e).0
  {
    match e
    case Scan(_, _) =>
    case Select(input, _) => FlattenedWithin(input);
    case Project(input, _) => FlattenedWithin(input);
    case Aggregate(input, _, _) => FlattenedWithin(input);
    case Having(input, _) => FlattenedWithin(input);
    case Sort(input, _) => FlattenedWithin(input);
    case Limit(input, _, _) => FlattenedWithin(input);
    case Distinct(input) => FlattenedWithin(input);
    case Join(input, _, _, _, _) => FlattenedWithin(input);
  }

  lemma SortByNothing(le: (Record, Record) -> bool, rs: seq<Record>)
    requires forall r, s :: le(r, s)
    ensures Lists.Sort(le, rs) == rs
  {
    if rs != [] {
      SortByNothing(le, rs[..|rs|-1]);
      assert rs == rs[..|rs|-1] + [rs[|rs|-1]];
    }
  }

  /** A chain in rank order means what its clauses mean in that order. */
  lemma {:induction false} FlattenKeepsMeaning(db: Db, e: Expr)
    requires FlattenInput(e).Ok? && Shaped(e)
    ensures Eval(db, e) == Applied(db, FlattenInput(e).value)
  {
    var c := FlattenInput(e).value;
    FlattenedWithin(e);
    match e
    case Scan(_, _) =>
    case Select(input, p) =>
      FlattenedWithin(input);
      FlattenKeepsMeaning(db, input);
      assert c.wheres[..|c.wheres|-1] == FlattenInput(input).value.wheres;
    case Project(input, _) =>
      FlattenedWithin(input);
      FlattenKeepsMeaning(db, input);
    case Aggregate(input, _, _) =>
      FlattenedWithin(input);
      FlattenKeepsMeaning(db, input);
    case Having(input, _) =>
      FlattenedWithin(input);
      FlattenKeepsMeaning(db, input);
    case Sort(input, terms) =>
      FlattenedWithin(input);
      FlattenKeepsMeaning(db, input);
      if terms == [] {
        SortByNothing(Ordering(db, terms), Eval(db, input));
      }
    case Limit(input, _, _) =>
      FlattenedWithin(input);
      FlattenKeepsMeaning(db, input);
    case Distinct(input) =>
      FlattenedWithin(input);
      FlattenKeepsMeaning(db, input);
    case Join(input, _, _, _, _) =>
      FlattenedWithin(input);
      FlattenKeepsMeaning(db, input);
      assert c.joins[..|c.joins|-1] == FlattenInput(input).value.joins;
  }
}
