/** What a database does to rows when rows they refer to are deleted or updated,
    against the check made before the write. */
module CascadeRows {
  import opened Cascades

  // --- the database's referential actions ---

  datatype Value = Null | Val(v: int)

  type Row = string -> Value

  datatype Record = Record(relation: string, row: Row)

  /** Rows by identity. */
  type Tables = map<nat, Record>

  /** The foreign keys that refer to each relation, and the columns' defaults. */
  datatype Database = Database(keys: map<string, seq<ForeignKey>>, defaults: (string, string) -> Value)

  function KeysTo(keys: map<string, seq<ForeignKey>>, relation: string): seq<ForeignKey> {
    if relation in keys then keys[relation] else []
  }

  /** One row deleted, or columns of it assigned. */
  datatype Write =
    | Deletes(id: nat, relation: string, was: Row)
    | Updates(id: nat, relation: string, was: Row, columns: seq<string>, now: Row)

  ghost predicate Changes(w: Write, c: string) {
    w.Updates? && w.was(c) != w.now(c)
  }

  /** The row with each column assigned its value. */
  ghost function Assigned(row: Row, columns: seq<string>, values: seq<Value>): Row
    requires |columns| == |values|
  {
    if columns == [] then row
    else
      var n := |columns| - 1;
      (c: string) => if c == columns[n] then values[n] else Assigned(row, columns[..n], values[..n])(c)
  }

  /** child refers to parent by k, none of its columns being NULL. */
  ghost predicate Refers(k: ForeignKey, child: Row, parent: Row) {
    && |k.foreignColumns| == |k.columns|
    && forall i :: 0 <= i < |k.columns| ==>
         child(k.foreignColumns[i]) == parent(k.columns[i]) && parent(k.columns[i]) != Null
  }

  /** x assigns the foreign columns of k. */
  ghost predicate Sets(k: ForeignKey, x: Write, values: seq<Value>) {
    && |values| == |k.foreignColumns| && x.Updates? && x.columns == k.foreignColumns
    && x.now == Assigned(x.was, k.foreignColumns, values)
  }

  ghost function Nulls(k: ForeignKey): seq<Value> {
    seq(|k.foreignColumns|, _ => Null)
  }

  ghost function Defaults(db: Database, k: ForeignKey): seq<Value> {
    seq(|k.foreignColumns|, i requires 0 <= i < |k.foreignColumns| => db.defaults(k.relation, k.foreignColumns[i]))
  }

  ghost function Gets(row: Row, columns: seq<string>): seq<Value> {
    seq(|columns|, i requires 0 <= i < |columns| => row(columns[i]))
  }

  /** What ON DELETE does to a row that refers to one deleted. */
  ghost predicate OnDelete(db: Database, k: ForeignKey, x: Write) {
    match k.onDelete
    case Cascade => x.Deletes?
    case SetNull => Sets(k, x, Nulls(k))
    case SetDefault => Sets(k, x, Defaults(db, k))
    case NoWrite => false
  }

  /** What ON UPDATE does to a row that refers to one that became row. */
  ghost predicate OnUpdate(db: Database, k: ForeignKey, row: Row, x: Write) {
    match k.onUpdate
    case Cascade => Sets(k, x, Gets(row, k.columns))
    case SetNull => Sets(k, x, Nulls(k))
    case SetDefault => Sets(k, x, Defaults(db, k))
    case NoWrite => false
  }

  /** The write w makes the database do x, by key k. */
  ghost predicate Triggers(db: Database, k: ForeignKey, w: Write, x: Write) {
    && k in KeysTo(db.keys, w.relation) && x.relation == k.relation && Refers(k, x.was, w.was)
    && match w
       case Deletes(_, _, _) => OnDelete(db, k, x)
       case Updates(_, _, _, _, now) =>
         (exists i :: 0 <= i < |k.columns| && Changes(w, k.columns[i])) && OnUpdate(db, k, now, x)
  }

  // --- a statement's run ---

  /** A row the statement writes itself, or one an earlier write makes the
      database write. */
  datatype Event = Own(write: Write) | Caused(write: Write, cause: nat, key: ForeignKey)

  ghost function After(t: Tables, w: Write): Tables {
    match w
    case Deletes(id, _, _) => t - {id}
    case Updates(id, relation, _, _, now) => t[id := Record(relation, now)]
  }

  ghost function TablesAt(t: Tables, es: seq<Event>, n: nat): Tables
    requires n <= |es|
  {
    if n == 0 then t else After(TablesAt(t, es, n - 1), es[n - 1].write)
  }

  /** A delete of e's rows, or an update of its columns updated. */
  ghost predicate IsOwn(e: Entity, action: Action, updated: seq<string>, w: Write) {
    && w.relation == e.relation
    && match action
       case Delete => w.Deletes?
       case Update => w.Updates? && w.columns == updated && forall c :: Changes(w, c) ==> c in updated
  }

  /** The writes of a statement and, any number deep and in any order, those that
      foreign keys cascade from them. */
  ghost predicate IsRun(
    db: Database, e: Entity, action: Action, updated: seq<string>, t: Tables, es: seq<Event>)
  {
    forall n :: 0 <= n < |es| ==>
      var w := es[n].write;
      && w.id in TablesAt(t, es, n) && TablesAt(t, es, n)[w.id] == Record(w.relation, w.was)
      && match es[n]
         case Own(_) => IsOwn(e, action, updated, w)
         case Caused(_, cause, key) => cause < n && Triggers(db, key, es[cause].write, w)
  }

  // --- what the check answers for ---

  /** The registry knows the keys of the relations it exposes, and which entity
      exposes a relation that refers to one. */
  ghost predicate Describes(keys: map<string, seq<ForeignKey>>, reg: Registry, e: Entity) {
    && e.keys == KeysTo(keys, e.relation)
    && (forall name :: name in reg ==> reg[name].keys == KeysTo(keys, reg[name].relation))
    && forall relation, k :: k in KeysTo(keys, relation) && k.entity in reg ==> reg[k.entity].relation == k.relation
  }

  /** No write between the n-th and the statement's own is of an entity that
      allows cascades, or of none. */
  ghost predicate Within(reg: Registry, e: Entity, es: seq<Event>, n: nat)
    decreases n
  {
    n < |es| &&
    match es[n]
    case Own(_) => true
    case Caused(_, cause, _) =>
      && cause < n && Within(reg, e, es, cause)
      && match es[cause]
         case Own(_) => !e.allowCascade
         case Caused(_, _, key) => key.entity in reg && !reg[key.entity].allowCascade
  }

  /** The caller may write as v does, on every row: delete, or update all the
      columns assigned. */
  ghost predicate Covered(reg: Registry, policy: Policy, v: Event) {
    v.Own? ||
    (v.key.entity != "" && v.key.entity in reg &&
       match v.write
       case Deletes(_, _, _) => policy(v.key.entity, Delete, []) == Allowed(false)
       case Updates(_, _, _, columns, _) => policy(v.key.entity, Update, columns) == Allowed(false))
  }
}
