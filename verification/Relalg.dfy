/** The logical plan: relational-algebra expressions and predicates, with a
    meaning given node by node over an arbitrary database. Predicates are
    three-valued (section 6.34 of ISO/IEC 9075-2:2003). */
module Relalg {
  import opened Lists

  datatype Op = Eq | Ne | Gt | Gte | Lt | Lte | In | NotIn | Like | IsNull | IsNotNull | OtherOp(name: string)

  datatype Value = Null | Bool(b: bool) | Num(n: real) | Text(s: string)

  /** The value a condition holds: one value (Null for a Go nil) or an IN list. */
  datatype Operand = Scalar(value: Value) | List(values: seq<Value>)

  datatype RelationRef = RelationRef(schema: string, name: string)

  datatype JoinPair = JoinPair(left: string, right: string)

  /** Nil is the absent predicate. */
  datatype Predicate =
    | Nil
    | Condition(field: string, op: Op, operand: Operand)
    | And(preds: seq<Predicate>)
    | Or(preds: seq<Predicate>)
    | Not(p: Predicate)
    | Exists(relation: RelationRef, on: seq<JoinPair>, inner: Predicate)

  datatype AggFunc = Count | Sum | Avg | Min | Max | OtherFunc(text: string)

  datatype AggCall = AggCall(fn: AggFunc, field: string, distinct: bool, name: string)

  datatype OrderTerm = OrderTerm(field: string, desc: bool, nullable: bool)

  datatype ProjectItem = ProjectItem(field: string, alias: string)

  datatype SetItem = SetItem(field: string, value: Value)

  datatype Expr =
    | Scan(relation: RelationRef, alias: string)
    | Select(input: Expr, pred: Predicate)
    | Project(input: Expr, items: seq<ProjectItem>)
    | Aggregate(input: Expr, groupBy: seq<string>, aggregates: seq<AggCall>)
    | Having(input: Expr, pred: Predicate)
    | Sort(input: Expr, orderBy: seq<OrderTerm>)
    | Limit(input: Expr, count: int, offset: int)
    | Distinct(input: Expr)
    | Join(input: Expr, right: RelationRef, joinAlias: string, on: seq<JoinPair>, rightPred: Predicate)
    | Insert(target: RelationRef, columns: seq<string>, tuples: seq<seq<Value>>)
    | Update(target: RelationRef, pred: Predicate, sets: seq<SetItem>)
    | Delete(target: RelationRef, pred: Predicate)
    | Call(procedure: RelationRef, args: seq<Value>)

  // --- three-valued logic ---

  datatype Truth = True | False | Unknown

  function Of(b: bool): Truth {
    if b then True else False
  }

  function Not3(t: Truth): Truth {
    match t
    case True => False
    case False => True
    case Unknown => Unknown
  }

  function And3(s: Truth, t: Truth): Truth {
    if s == False || t == False then False
    else if s == Unknown || t == Unknown then Unknown
    else True
  }

  function Or3(s: Truth, t: Truth): Truth {
    if s == True || t == True then True
    else if s == Unknown || t == Unknown then Unknown
    else False
  }

  function AndAll(ts: seq<Truth>): Truth {
    if ts == [] then True else And3(ts[0], AndAll(ts[1..]))
  }

  function OrAll(ts: seq<Truth>): Truth {
    if ts == [] then False else Or3(ts[0], OrAll(ts[1..]))
  }

  lemma AndAllTrue(ts: seq<Truth>)
    ensures AndAll(ts) == True <==> forall i :: 0 <= i < |ts| ==> ts[i] == True
  {
    if ts != [] {
      AndAllTrue(ts[1..]);
    }
  }

  lemma OrAllTrue(ts: seq<Truth>)
    ensures OrAll(ts) == True <==> exists i :: 0 <= i < |ts| && ts[i] == True
  {
    if ts != [] {
      OrAllTrue(ts[1..]);
      if i :| 0 <= i < |ts[1..]| && ts[1..][i] == True {
        assert ts[i + 1] == True;
      }
    }
  }

  // --- databases ---

  type Row = map<string, Value>

  function Get(row: Row, name: string): Value {
    if name in row then row[name] else Null
  }

  /** A database, with what SQL leaves to it: the order of its values (a
      collation), LIKE, the aggregate functions over the values of a group
      (COUNT(*) sees one TRUE per row), and where an order that does not say
      puts NULLs, by direction. */
  datatype Db = Db(
    table: RelationRef -> seq<Row>,
    le: (Value, Value) -> bool,
    like: (Value, Value) -> bool,
    aggregate: (AggFunc, bool, seq<Value>) -> Value,
    nullsFirst: bool -> bool)

  ghost predicate TotalOrder(le: (Value, Value) -> bool) {
    && (forall x, y :: le(x, y) || le(y, x))
    && (forall x, y, z :: le(x, y) && le(y, z) ==> le(x, z))
    && (forall x, y :: le(x, y) && le(y, x) ==> x == y)
  }

  // --- predicates ---

  function Compare(db: Db, op: Op, v: Value, w: Value): Truth {
    if v.Null? || w.Null? then Unknown
    else
      Of(match op
         case Eq => v == w
         case Ne => v != w
         case Gt => !db.le(v, w)
         case Gte => db.le(w, v)
         case Lt => !db.le(w, v)
         case Lte => db.le(v, w)
         case Like => db.like(v, w)
         case _ => false)
  }

  function InList(db: Db, v: Value, ws: seq<Value>): Truth {
    OrAll(Map(w => Compare(db, Eq, v, w), ws))
  }

  function ConditionTruth(db: Db, v: Value, op: Op, operand: Operand): Truth {
    match op
    case IsNull => Of(v.Null?)
    case IsNotNull => Of(!v.Null?)
    case In => if operand.List? then InList(db, v, operand.values) else Unknown
    case NotIn => if operand.List? then Not3(InList(db, v, operand.values)) else Unknown
    case _ => if operand.Scalar? then Compare(db, op, v, operand.value) else Unknown
  }

  /** What a predicate sees of a row: its own columns, and under its alias
      the row each join found (no column, when it found none). */
  datatype Env = Env(own: Row, joined: map<string, Row>)

  /** The column name refers to: alias.column of a join, else the row's own. */
  ghost function Lookup(env: Env, name: string): Value {
    if exists a :: a in env.joined && a + "." <= name then
      var a :| a in env.joined && a + "." <= name;
      Get(env.joined[a], name[|a| + 1..])
    else Get(env.own, name)
  }

  ghost function Meaning(db: Db, env: Env, p: Predicate): Truth
    decreases p, 1
  {
    match p
    case Nil => True
    case Condition(f, op, operand) => ConditionTruth(db, Lookup(env, f), op, operand)
    case And(ps) => AndAll(Meanings(db, env, ps))
    case Or(ps) => OrAll(Meanings(db, env, ps))
    case Not(q) => Not3(Meaning(db, env, q))
    case Exists(relation, on, inner) =>
      var rows := db.table(relation);
      Of(exists i :: 0 <= i < |rows| && OnTrue(db, env, on, rows[i]) && Meaning(db, Env(rows[i], map[]), inner) == True)
  }

  ghost function Meanings(db: Db, env: Env, ps: seq<Predicate>): (ts: seq<Truth>)
    ensures |ts| == |ps|
    ensures forall i :: 0 <= i < |ps| ==> ts[i] == Meaning(db, env, ps[i])
    decreases ps, 0
  {
    if ps == [] then [] else [Meaning(db, env, ps[0])] + Meanings(db, env, ps[1..])
  }

  /** Each pair's right column of row equals its left column of env. */
  ghost predicate OnTrue(db: Db, env: Env, on: seq<JoinPair>, row: Row) {
    forall i :: 0 <= i < |on| ==> Compare(db, Eq, Get(row, on[i].right), Lookup(env, on[i].left)) == True
  }

  // --- orders ---

  /** Compares two values of one order term: negative when x comes first. */
  function CompareKeys(db: Db, desc: bool, nullsFirst: bool, x: Value, y: Value): int {
    if x == y then 0
    else if x.Null? then (if nullsFirst then -1 else 1)
    else if y.Null? then (if nullsFirst then 1 else -1)
    else if db.le(x, y) != desc then -1
    else 1
  }

  /** A nullable term orders its NULLs last; another leaves them to the database. */
  function CompareTerm(db: Db, t: OrderTerm, x: Value, y: Value): int {
    CompareKeys(db, t.desc, !t.nullable && db.nullsFirst(t.desc), x, y)
  }

  predicate KeysLe(db: Db, terms: seq<OrderTerm>, ks: seq<Value>, ls: seq<Value>)
    requires |ks| == |ls| == |terms|
  {
    terms == [] ||
    (var c := CompareTerm(db, terms[0], ks[0], ls[0]);
     c < 0 || (c == 0 && KeysLe(db, terms[1..], ks[1..], ls[1..])))
  }

  lemma CompareTermOrder(db: Db, t: OrderTerm, x: Value, y: Value, z: Value)
    requires TotalOrder(db.le)
    ensures CompareTerm(db, t, x, y) == -CompareTerm(db, t, y, x)
    ensures CompareTerm(db, t, x, y) == 0 <==> x == y
    ensures CompareTerm(db, t, x, y) < 0 && CompareTerm(db, t, y, z) < 0 ==> CompareTerm(db, t, x, z) < 0
  {
  }

  lemma {:induction false} KeysLeTotal(db: Db, terms: seq<OrderTerm>, ks: seq<Value>, ls: seq<Value>)
    requires TotalOrder(db.le) && |ks| == |ls| == |terms|
    ensures KeysLe(db, terms, ks, ls) || KeysLe(db, terms, ls, ks)
  {
    if terms != [] {
      CompareTermOrder(db, terms[0], ks[0], ls[0], ks[0]);
      KeysLeTotal(db, terms[1..], ks[1..], ls[1..]);
    }
  }

  lemma {:induction false} KeysLeTransitive(
    db: Db, terms: seq<OrderTerm>, ks: seq<Value>, ls: seq<Value>, ms: seq<Value>)
    requires TotalOrder(db.le) && |ks| == |ls| == |ms| == |terms|
    requires KeysLe(db, terms, ks, ls) && KeysLe(db, terms, ls, ms)
    ensures KeysLe(db, terms, ks, ms)
  {
    if terms != [] {
      CompareTermOrder(db, terms[0], ks[0], ls[0], ms[0]);
      CompareTermOrder(db, terms[0], ls[0], ms[0], ks[0]);
      if ks[0] == ls[0] == ms[0] {
        KeysLeTransitive(db, terms[1..], ks[1..], ls[1..], ms[1..]);
      }
    }
  }

  // --- the meaning of a read, node by node ---

  /** What a read returns of a row: the columns it lists, or the whole row. */
  datatype Output = Whole(row: Row) | Columns(values: seq<Value>)

  datatype Record = Record(env: Env, out: Output)

  ghost function Lookups(env: Env, names: seq<string>): (vs: seq<Value>)
    ensures |vs| == |names|
    ensures forall i :: 0 <= i < |names| ==> vs[i] == Lookup(env, names[i])
  {
    if names == [] then [] else [Lookup(env, names[0])] + Lookups(env, names[1..])
  }

  function TermFields(terms: seq<OrderTerm>): (fs: seq<string>)
    ensures |fs| == |terms|
    ensures forall i :: 0 <= i < |terms| ==> fs[i] == terms[i].field
  {
    if terms == [] then [] else [terms[0].field] + TermFields(terms[1..])
  }

  function ItemFields(items: seq<ProjectItem>): (fs: seq<string>)
    ensures |fs| == |items|
    ensures forall i :: 0 <= i < |items| ==> fs[i] == items[i].field
  {
    if items == [] then [] else [items[0].field] + ItemFields(items[1..])
  }

  ghost predicate TermsLe(db: Db, terms: seq<OrderTerm>, r: Record, s: Record) {
    KeysLe(db, terms, Lookups(r.env, TermFields(terms)), Lookups(s.env, TermFields(terms)))
  }

  ghost function Ordering(db: Db, terms: seq<OrderTerm>): (Record, Record) -> bool {
    (r, s) => TermsLe(db, terms, r, s)
  }

  ghost function Satisfying(db: Db, p: Predicate): Record -> bool {
    (r: Record) => Meaning(db, r.env, p) == True
  }

  ghost function Returned(): Record -> Output {
    (r: Record) => r.out
  }

  ghost function Scanned(): Row -> Record {
    (row: Row) => Record(Env(row, map[]), Whole(row))
  }

  ghost function ScanRows(db: Db, relation: RelationRef): seq<Record> {
    Map(Scanned(), db.table(relation))
  }

  /** The rows of the other relation one row joins. */
  ghost function Matching(db: Db, env: Env, on: seq<JoinPair>, pred: Predicate): Row -> bool {
    (row: Row) => OnTrue(db, env, on, row) && Meaning(db, Env(row, map[]), pred) == True
  }

  ghost function Joining(r: Record, alias: string): Row -> Record {
    (row: Row) => r.(env := r.env.(joined := r.env.joined[alias := row]))
  }

  function OrNone(found: seq<Row>): seq<Row> {
    if found == [] then [map[]] else found
  }

  /** The left outer join of one row. */
  ghost function JoinRow(
    db: Db, right: RelationRef, alias: string, on: seq<JoinPair>, pred: Predicate): Record -> seq<Record>
  {
    (r: Record) => Map(Joining(r, alias), OrNone(Filter(Matching(db, r.env, on, pred), db.table(right))))
  }

  ghost function FieldOf(field: string): Record -> Value {
    (r: Record) => if field == "" then Bool(true) else Lookup(r.env, field)
  }

  ghost function CallValue(db: Db, c: AggCall, members: seq<Record>): Value {
    db.aggregate(c.fn, c.distinct, Map(FieldOf(c.field), members))
  }

  ghost function CallValues(db: Db, cs: seq<AggCall>, members: seq<Record>): (vs: seq<Value>)
    ensures |vs| == |cs|
    ensures forall i :: 0 <= i < |cs| ==> vs[i] == CallValue(db, cs[i], members)
  {
    if cs == [] then [] else [CallValue(db, cs[0], members)] + CallValues(db, cs[1..], members)
  }

  /** The row of a group: its group-by fields, and its calls by their names. */
  function GroupRow(groupBy: seq<string>, key: seq<Value>, cs: seq<AggCall>, vs: seq<Value>): Row
    requires |key| == |groupBy| && |vs| == |cs|
  {
    if cs != [] then
      var row := GroupRow(groupBy, key, cs[..|cs|-1], vs[..|vs|-1]);
      if cs[|cs|-1].name == "" then row else row[cs[|cs|-1].name := vs[|vs|-1]]
    else if groupBy != [] then
      GroupRow(groupBy[..|groupBy|-1], key[..|key|-1], [], [])[groupBy[|groupBy|-1] := key[|key|-1]]
    else map[]
  }

  ghost function KeyOf(groupBy: seq<string>): Record -> seq<Value> {
    (r: Record) => Lookups(r.env, groupBy)
  }

  ghost function InGroup(groupBy: seq<string>, key: seq<Value>): Record -> bool {
    (r: Record) => Lookups(r.env, groupBy) == key
  }

  ghost function GroupOf(groupBy: seq<string>, rs: seq<Record>): Record -> seq<Record> {
    (first: Record) => Filter(InGroup(groupBy, Lookups(first.env, groupBy)), rs)
  }

  /** The groups of rs by their group-by values, in order of first appearance;
      without a group-by all of rs is one group. */
  ghost function Groups(groupBy: seq<string>, rs: seq<Record>): seq<seq<Record>> {
    if groupBy == [] then [rs] else Map(GroupOf(groupBy, rs), Dedup(KeyOf(groupBy), rs))
  }

  ghost function GroupKey(groupBy: seq<string>, members: seq<Record>): (key: seq<Value>)
    ensures |key| == |groupBy|
  {
    if members == [] then seq(|groupBy|, _ => Null) else Lookups(members[0].env, groupBy)
  }

  ghost function RecordOfGroup(db: Db, groupBy: seq<string>, cs: seq<AggCall>, members: seq<Record>): Record {
    var key, vs := GroupKey(groupBy, members), CallValues(db, cs, members);
    Record(Env(GroupRow(groupBy, key, cs, vs), map[]), Columns(key + vs))
  }

  ghost function GroupRecord(db: Db, groupBy: seq<string>, cs: seq<AggCall>): seq<Record> -> Record {
    (members: seq<Record>) => RecordOfGroup(db, groupBy, cs, members)
  }

  ghost function AggregateRows(db: Db, groupBy: seq<string>, cs: seq<AggCall>, rs: seq<Record>): seq<Record> {
    Map(GroupRecord(db, groupBy, cs), Groups(groupBy, rs))
  }

  ghost function Projected(items: seq<ProjectItem>): Record -> Record {
    (r: Record) => r.(out := Columns(Lookups(r.env, ItemFields(items))))
  }

  function Slice<A>(xs: seq<A>, offset: int, count: int): (ys: seq<A>)
    ensures |ys| <= if count < 0 then 0 else count
  {
    var from := if offset < 0 then 0 else if offset > |xs| then |xs| else offset;
    var n := if count < 0 then 0 else if count > |xs| - from then |xs| - from else count;
    xs[from..from + n]
  }

  /** The rows of a read; a write has none. */
  ghost function Eval(db: Db, e: Expr): seq<Record> {
    match e
    case Scan(relation, _) => ScanRows(db, relation)
    case Select(input, p) => Filter(Satisfying(db, p), Eval(db, input))
    case Project(input, items) => Map(Projected(items), Eval(db, input))
    case Aggregate(input, groupBy, cs) => AggregateRows(db, groupBy, cs, Eval(db, input))
    case Having(input, p) => Filter(Satisfying(db, p), Eval(db, input))
    case Sort(input, terms) => Lists.Sort(Ordering(db, terms), Eval(db, input))
    case Limit(input, count, offset) => Slice(Eval(db, input), offset, count)
    case Distinct(input) => Dedup(Returned(), Eval(db, input))
    case Join(input, right, alias, on, pred) => FlatMap(JoinRow(db, right, alias, on, pred), Eval(db, input))
    case _ => []
  }

  ghost function Outputs(rs: seq<Record>): seq<Output> {
    Map(Returned(), rs)
  }
}
