/** The writes a database cascades follow paths of foreign keys: exactly those
    whose referenced columns change. */
module CascadePaths {
  import opened Cascades
  import opened CascadeRows

  // --- paths of foreign keys ---

  /** Rows deleted, or columns assigned, of which those that can change. */
  datatype Doing = Doing(action: Action, columns: seq<string>, changed: set<string>)

  function Names(cs: seq<string>): set<string> {
    set c | c in cs
  }

  function Start(action: Action, updated: seq<string>): Doing {
    Doing(action, updated, Names(updated))
  }

  /** The foreign columns whose referenced column is among changed. */
  function Copied(k: ForeignKey, changed: set<string>): set<string> {
    set i | 0 <= i < |k.columns| && i < |k.foreignColumns| && k.columns[i] in changed :: k.foreignColumns[i]
  }

  /** What a key that deletes, or sets, the rows that refer to others does. */
  function Ruled(k: ForeignKey, rule: Rule, cascaded: Doing): Option<Doing> {
    match rule
    case NoWrite => None
    case Cascade => Some(cascaded)
    case SetNull => Some(Doing(Update, k.foreignColumns, Names(k.foreignColumns)))
    case SetDefault => Some(Doing(Update, k.foreignColumns, Names(k.foreignColumns)))
  }

  function Carried(k: ForeignKey, d: Doing): Option<Doing> {
    match d.action
    case Delete => Ruled(k, k.onDelete, Doing(Delete, [], {}))
    case Update =>
      if Names(k.columns) !! d.changed then None
      else Ruled(k, k.onUpdate, Doing(Update, k.foreignColumns, Copied(k, d.changed)))
  }

  function DoingAt(d: Doing, ks: seq<ForeignKey>): Option<Doing> {
    if ks == [] then Some(d)
    else
      var front := DoingAt(d, ks[..|ks| - 1]);
      if front.None? then None else Carried(ks[|ks| - 1], front.value)
  }

  /** The entity whose rows the last key writes. */
  function HolderOf(reg: Registry, e: Entity, ks: seq<ForeignKey>): Option<Entity> {
    if ks == [] then Some(e)
    else if ks[|ks| - 1].entity in reg then Some(reg[ks[|ks| - 1].entity])
    else None
  }

  /** Each key refers to the entity before, which does not allow cascades, and
      something is done to it. */
  predicate IsPath(reg: Registry, e: Entity, d: Doing, ks: seq<ForeignKey>) {
    ks != [] ==>
      var n := |ks| - 1;
      var holder := HolderOf(reg, e, ks[..n]);
      && IsPath(reg, e, d, ks[..n]) && holder.Some? && !holder.value.allowCascade
      && ks[n] in holder.value.keys && DoingAt(d, ks).Some?
  }

  function EffectAt(d: Doing, ks: seq<ForeignKey>): Effect
    requires ks != [] && DoingAt(d, ks).Some?
  {
    Effect(ks[|ks| - 1].entity, DoingAt(d, ks).value.action, DoingAt(d, ks).value.columns)
  }

  /** Some path ends in an effect the caller is not permitted. */
  ghost predicate RefusedPath(reg: Registry, policy: Policy, e: Entity, d: Doing) {
    exists ks :: ks != [] && IsPath(reg, e, d, ks) && !Permitted(reg, policy, EffectAt(d, ks))
  }

  // --- every run follows paths ---

  lemma {:induction false} AssignedGet(row: Row, columns: seq<string>, values: seq<Value>, c: string)
    requires |columns| == |values|
    ensures c !in columns ==> Assigned(row, columns, values)(c) == row(c)
    ensures c in columns ==>
              exists i :: 0 <= i < |columns| && columns[i] == c && Assigned(row, columns, values)(c) == values[i]
  {
    if columns != [] {
      var n := |columns| - 1;
      AssignedGet(row, columns[..n], values[..n], c);
      if c != columns[n] && c in columns {
        var i :| 0 <= i < n && columns[..n][i] == c && Assigned(row, columns, values)(c) == values[..n][i];
        assert columns[i] == c && values[i] == values[..n][i];
      }
    }
  }

  /** d is what w does. */
  ghost predicate Does(d: Doing, w: Write) {
    match w
    case Deletes(_, _, _) => d.action.Delete?
    case Updates(_, _, _, columns, _) =>
      d.action.Update? && d.columns == columns && forall c :: Changes(w, c) ==> c in d.changed
  }

  lemma SetsAll(k: ForeignKey, x: Write, values: seq<Value>)
    requires Sets(k, x, values)
    ensures Does(Doing(Update, k.foreignColumns, Names(k.foreignColumns)), x)
  {
    forall c | Changes(x, c) ensures c in k.foreignColumns {
      AssignedGet(x.was, k.foreignColumns, values, c);
    }
  }

  lemma CascadesCopied(k: ForeignKey, w: Write, x: Write, changed: set<string>)
    requires Refers(k, x.was, w.was) && w.Updates? && Sets(k, x, Gets(w.now, k.columns))
    requires forall c :: Changes(w, c) ==> c in changed
    ensures Does(Doing(Update, k.foreignColumns, Copied(k, changed)), x)
  {
    var values := Gets(w.now, k.columns);
    forall c | Changes(x, c) ensures c in Copied(k, changed) {
      AssignedGet(x.was, k.foreignColumns, values, c);
      var i :| 0 <= i < |k.foreignColumns| && k.foreignColumns[i] == c && x.now(c) == values[i];
      assert Changes(w, k.columns[i]);
    }
  }

  lemma TriggersCarried(db: Database, k: ForeignKey, w: Write, x: Write, d: Doing)
    requires Triggers(db, k, w, x) && Does(d, w)
    ensures Carried(k, d).Some? && Does(Carried(k, d).value, x)
  {
    if w.Updates? {
      var i :| 0 <= i < |k.columns| && Changes(w, k.columns[i]);
      assert k.columns[i] in Names(k.columns) && k.columns[i] in d.changed;
      match k.onUpdate {
        case Cascade => CascadesCopied(k, w, x, d.changed);
        case SetNull => SetsAll(k, x, Nulls(k));
        case SetDefault => SetsAll(k, x, Defaults(db, k));
        case NoWrite =>
      }
    } else {
      match k.onDelete {
        case SetNull => SetsAll(k, x, Nulls(k));
        case SetDefault => SetsAll(k, x, Defaults(db, k));
        case _ =>
      }
    }
  }

  /** The keys that led to the n-th write form a path, and it does what the path
      does. */
  ghost predicate LedBy(reg: Registry, e: Entity, d: Doing, v: Event, ks: seq<ForeignKey>) {
    && IsPath(reg, e, d, ks) && DoingAt(d, ks).Some? && Does(DoingAt(d, ks).value, v.write)
    && (match v case Own(_) => ks == [] case Caused(_, _, key) => ks != [] && ks[|ks| - 1] == key)
    && (HolderOf(reg, e, ks).Some? ==> HolderOf(reg, e, ks).value.relation == v.write.relation)
  }

  lemma OwnLed(reg: Registry, e: Entity, action: Action, updated: seq<string>, v: Event)
    requires v.Own? && IsOwn(e, action, updated, v.write)
    ensures LedBy(reg, e, Start(action, updated), v, [])
  {
  }

  lemma CausedLed(
    db: Database, reg: Registry, e: Entity, d: Doing, v: Event, x: Event, ks: seq<ForeignKey>)
    requires Describes(db.keys, reg, e) && LedBy(reg, e, d, v, ks) && x.Caused? && Triggers(db, x.key, v.write, x.write)
    requires HolderOf(reg, e, ks).Some? && !HolderOf(reg, e, ks).value.allowCascade
    ensures LedBy(reg, e, d, x, ks + [x.key])
  {
    var all := ks + [x.key];
    assert all[..|all| - 1] == ks;
    TriggersCarried(db, x.key, v.write, x.write, DoingAt(d, ks).value);
  }

  lemma {:induction false} EventLed(
    db: Database, reg: Registry, e: Entity, action: Action, updated: seq<string>, t: Tables, es: seq<Event>, n: nat)
    returns (ks: seq<ForeignKey>)
    requires Describes(db.keys, reg, e) && IsRun(db, e, action, updated, t, es) && Within(reg, e, es, n)
    ensures n < |es| && LedBy(reg, e, Start(action, updated), es[n], ks)
    decreases n
  {
    hide LedBy, IsOwn, Triggers, Describes, TablesAt;
    match es[n]
    case Own(_) =>
      OwnLed(reg, e, action, updated, es[n]);
      ks := [];
    case Caused(_, cause, key) =>
      ks := EventLed(db, reg, e, action, updated, t, es, cause);
      HolderIs(reg, e, Start(action, updated), es[cause], ks);
      CausedLed(db, reg, e, Start(action, updated), es[cause], es[n], ks);
      ks := ks + [key];
  }

  lemma HolderIs(reg: Registry, e: Entity, d: Doing, v: Event, ks: seq<ForeignKey>)
    requires LedBy(reg, e, d, v, ks)
    ensures HolderOf(reg, e, ks) ==
            match v
            case Own(_) => Some(e)
            case Caused(_, _, key) => if key.entity in reg then Some(reg[key.entity]) else None
  {
  }

  // --- the check follows every path ---

  lemma {:induction false} HasEffect(keys: seq<ForeignKey>, action: Action, updated: seq<string>, k: ForeignKey)
    requires k in keys && EffectOf(k, action, updated).Some?
    ensures EffectOf(k, action, updated).value in Effects(keys, action, updated)
  {
    var n := |keys| - 1;
    if k != keys[n] {
      assert k in keys[..n];
      HasEffect(keys[..n], action, updated, k);
    }
  }

  /** Whatever can change is assigned. */
  predicate Bounded(d: Doing) {
    d.action.Update? ==> d.changed <= Names(d.columns)
  }

  lemma CarriedEffect(k: ForeignKey, d: Doing)
    requires Bounded(d) && Carried(k, d).Some?
    ensures Bounded(Carried(k, d).value)
    ensures var x := Carried(k, d).value;
            EffectOf(k, d.action, d.columns) == Some(Effect(k.entity, x.action, x.columns))
  {
    if d.action.Update? {
      var c :| c in Names(k.columns) && c in d.changed;
      var i :| 0 <= i < |k.columns| && k.columns[i] == c;
      assert k.columns[i] in d.columns;
    }
  }

  lemma {:induction false} PathReached(
    reg: Registry, e: Entity, action: Action, updated: seq<string>, ks: seq<ForeignKey>)
    requires IsPath(reg, e, Start(action, updated), ks)
    ensures var d := DoingAt(Start(action, updated), ks);
            && d.Some? && Bounded(d.value)
            && (HolderOf(reg, e, ks).Some? ==>
                  Reaches(reg, Node(e, action, updated),
                          Node(HolderOf(reg, e, ks).value, d.value.action, d.value.columns)))
  {
    hide Reaches, Carried, EffectOf;
    var start := Start(action, updated);
    if ks == [] {
      ReachesSelf(reg, Node(e, action, updated));
    } else {
      var n := |ks| - 1;
      PathReached(reg, e, action, updated, ks[..n]);
      var before, d := DoingAt(start, ks[..n]).value, DoingAt(start, ks).value;
      var holder := HolderOf(reg, e, ks[..n]).value;
      CarriedEffect(ks[n], before);
      if HolderOf(reg, e, ks).Some? {
        EffectLeads(reg, holder, before.action, before.columns, ks[n]);
        ReachesThen(reg, Node(e, action, updated), Node(holder, before.action, before.columns),
                    Node(HolderOf(reg, e, ks).value, d.action, d.columns));
      }
    }
  }

  lemma EffectLeads(reg: Registry, holder: Entity, action: Action, columns: seq<string>, k: ForeignKey)
    requires !holder.allowCascade && k in holder.keys && k.entity in reg
    requires EffectOf(k, action, columns).Some?
    ensures var f := EffectOf(k, action, columns).value;
            Leads(reg, Node(holder, action, columns), Node(reg[k.entity], f.action, f.columns))
  {
    var f := EffectOf(k, action, columns).value;
    HasEffect(holder.keys, action, columns, k);
    var fs := NodeEffects(Node(holder, action, columns));
    var i :| 0 <= i < |fs| && fs[i] == f;
    assert NodeOf(reg, fs[i]) == Node(reg[k.entity], f.action, f.columns);
  }

  lemma ReachesThen(reg: Registry, n: Node, m: Node, next: Node)
    requires Reaches(reg, n, m) && Leads(reg, m, next)
    ensures Reaches(reg, n, next)
  {
    var ns :| Chain(reg, ns) && ns[0] == n && ns[|ns| - 1] == m;
    var all := ns + [next];
    assert Chain(reg, all) by {
      forall i | 0 < i < |all| ensures Leads(reg, all[i - 1], all[i]) {
        if i < |ns| {
          assert Leads(reg, ns[i - 1], ns[i]);
        }
      }
    }
    assert all[0] == n && all[|all| - 1] == next;
  }

  /** What is on a path is checked. */
  lemma PathPermitted(
    reg: Registry, policy: Policy, e: Entity, action: Action, updated: seq<string>, ks: seq<ForeignKey>)
    requires Passes(reg, policy, e, action, updated) && ks != [] && IsPath(reg, e, Start(action, updated), ks)
    ensures Permitted(reg, policy, EffectAt(Start(action, updated), ks))
  {
    hide Reaches, Carried, EffectOf, Permitted;
    var start, n := Start(action, updated), |ks| - 1;
    PathReached(reg, e, action, updated, ks[..n]);
    var before, holder := DoingAt(start, ks[..n]).value, HolderOf(reg, e, ks[..n]).value;
    CarriedEffect(ks[n], before);
    HasEffect(holder.keys, before.action, before.columns, ks[n]);
    var node := Node(holder, before.action, before.columns);
    assert AllPermitted(reg, policy, node);
    var i :| 0 <= i < |NodeEffects(node)| && NodeEffects(node)[i] == EffectAt(start, ks);
  }
}
