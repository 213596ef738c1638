/** The check of cascades against the database's own referential actions: what it
    lets pass is covered, and when what it refuses can happen. */
module CascadeExactness {
  import opened Cascades
  import opened CascadeRows
  import opened CascadePaths

  // --- what passes is covered ---

  /** The effects listed for a write cover whatever a key makes the database do
      next. */
  lemma EffectsCover(
    db: Database, e: Entity, action: Action, updated: seq<string>, k: ForeignKey, w: Write, x: Write)
    requires e.keys == KeysTo(db.keys, e.relation) && IsOwn(e, action, updated, w) && Triggers(db, k, w, x)
    ensures (match x
             case Deletes(_, _, _) => Effect(k.entity, Delete, [])
             case Updates(_, _, _, columns, _) => Effect(k.entity, Update, columns))
            in Effects(e.keys, action, updated)
  {
    hide Carried, EffectOf;
    var d := Start(action, updated);
    TriggersCarried(db, k, w, x, d);
    CarriedEffect(k, d);
    HasEffect(e.keys, action, updated, k);
    assert [k][..0] == [];
    assert DoingAt(d, [k]) == Carried(k, d);
    if x.Deletes? {
      DeletesNoColumns(d, [k]);
    }
  }

  lemma DeletesNoColumns(d: Doing, ks: seq<ForeignKey>)
    requires ks != [] && DoingAt(d, ks).Some? && DoingAt(d, ks).value.action.Delete?
    ensures DoingAt(d, ks).value.columns == []
  {
    var before := DoingAt(d, ks[..|ks| - 1]).value;
    assert Carried(ks[|ks| - 1], before) == DoingAt(d, ks);
  }

  lemma CoveredAsPermitted(
    reg: Registry, policy: Policy, e: Entity, d: Doing, v: Event, ks: seq<ForeignKey>)
    requires v.Caused? && LedBy(reg, e, d, v, ks)
    ensures Covered(reg, policy, v) <==> Permitted(reg, policy, EffectAt(d, ks))
  {
    if DoingAt(d, ks).value.action.Delete? {
      DeletesNoColumns(d, ks);
    }
  }

  /** Once the check passes, whatever the rows and however far the foreign keys
      cascade, every row deleted and every column assigned, not past an entity
      that allows cascades, is of an entity the caller may do that to on every
      row, and no column but those assigned changes. */
  lemma PassedIsCovered(
    db: Database, reg: Registry, policy: Policy, e: Entity, action: Action, updated: seq<string>,
    t: Tables, es: seq<Event>, n: nat)
    requires Describes(db.keys, reg, e) && Passes(reg, policy, e, action, updated)
    requires IsRun(db, e, action, updated, t, es) && Within(reg, e, es, n)
    ensures Covered(reg, policy, es[n])
    ensures forall c :: Changes(es[n].write, c) ==> c in es[n].write.columns
  {
    hide IsRun, Within, Describes, Passes, Permitted, Covered;
    var ks := EventLed(db, reg, e, action, updated, t, es, n);
    PathReached(reg, e, action, updated, ks);
    if es[n].Caused? {
      PathPermitted(reg, policy, e, action, updated, ks);
      CoveredAsPermitted(reg, policy, e, Start(action, updated), es[n], ks);
    } else {
      OwnCovered(reg, policy, es[n]);
    }
  }

  lemma OwnCovered(reg: Registry, policy: Policy, v: Event)
    requires v.Own?
    ensures Covered(reg, policy, v)
  {
  }

  // --- what is refused can happen ---

  /** On some rows the statement makes the database do what the caller may not. */
  ghost predicate CanRefuse(
    keys: map<string, seq<ForeignKey>>, reg: Registry, policy: Policy, e: Entity, action: Action, updated: seq<string>)
  {
    exists db: Database, t, es, n ::
      db.keys == keys && IsRun(db, e, action, updated, t, es) && Within(reg, e, es, n) && !Covered(reg, policy, es[n])
  }

  /** As databases have them: a foreign key pairs columns, its own distinct. */
  ghost predicate KeyFormed(k: ForeignKey) {
    && |k.columns| == |k.foreignColumns|
    && forall i, j :: 0 <= i < j < |k.foreignColumns| ==> k.foreignColumns[i] != k.foreignColumns[j]
  }

  ghost predicate WellFormed(keys: map<string, seq<ForeignKey>>) {
    forall relation, k :: k in KeysTo(keys, relation) ==> KeyFormed(k)
  }

  ghost function Zero(): Row {
    _ => Val(0)
  }

  ghost function Ones(columns: seq<string>): seq<Value> {
    seq(|columns|, _ => Val(1))
  }

  ghost function Some1(): (string, string) -> Value {
    (_, _) => Val(1)
  }

  /** A row of zeros with columns assigned. */
  ghost function Sole(id: nat, relation: string, columns: seq<string>, values: seq<Value>): Write
    requires |columns| == |values|
  {
    Updates(id, relation, Zero(), columns, Assigned(Zero(), columns, values))
  }

  /** What key k does after w to a row of zeros. */
  ghost function Following(db: Database, k: ForeignKey, w: Write, id: nat): Write {
    match if w.Deletes? then k.onDelete else k.onUpdate
    case SetNull => Sole(id, k.relation, k.foreignColumns, Nulls(k))
    case SetDefault => Sole(id, k.relation, k.foreignColumns, Defaults(db, k))
    case _ =>
      if w.Deletes? || |k.columns| != |k.foreignColumns| then Deletes(id, k.relation, Zero())
      else Sole(id, k.relation, k.foreignColumns, Gets(w.now, k.columns))
  }

  /** What the last key does to a row of zeros, each key before having done its
      own to one. */
  ghost function WriteOf(db: Database, e: Entity, action: Action, updated: seq<string>, ks: seq<ForeignKey>): Write {
    if ks == [] then
      if action.Delete? then Deletes(0, e.relation, Zero()) else Sole(0, e.relation, updated, Ones(updated))
    else
      var n := |ks| - 1;
      Following(db, ks[n], WriteOf(db, e, action, updated, ks[..n]), n + 1)
  }

  /** w is to a row of zeros, and changes exactly what can change. */
  ghost predicate Realizes(d: Doing, w: Write) {
    && w.was == Zero() && (w.Deletes? <==> d.action.Delete?)
    && (w.Updates? ==> w.columns == d.columns && forall c :: Changes(w, c) <==> c in d.changed)
  }

  lemma SoleRealizes(id: nat, relation: string, columns: seq<string>, values: seq<Value>)
    requires |columns| == |values| && forall i :: 0 <= i < |values| ==> values[i] != Val(0)
    ensures Realizes(Doing(Update, columns, Names(columns)), Sole(id, relation, columns, values))
  {
    var w := Sole(id, relation, columns, values);
    forall c ensures Changes(w, c) <==> c in columns {
      AssignedGet(Zero(), columns, values, c);
    }
  }

  lemma CopyRealizes(id: nat, k: ForeignKey, w: Write, d: Doing)
    requires KeyFormed(k) && w.Updates? && Realizes(d, w)
    ensures Realizes(Doing(Update, k.foreignColumns, Copied(k, d.changed)),
                     Sole(id, k.relation, k.foreignColumns, Gets(w.now, k.columns)))
  {
    var values := Gets(w.now, k.columns);
    var x := Sole(id, k.relation, k.foreignColumns, values);
    forall c ensures Changes(x, c) <==> c in Copied(k, d.changed) {
      AssignedGet(Zero(), k.foreignColumns, values, c);
      if c in k.foreignColumns {
        var i :| 0 <= i < |k.foreignColumns| && k.foreignColumns[i] == c && x.now(c) == values[i];
        assert Changes(w, k.columns[i]) <==> Changes(x, c);
        if c in Copied(k, d.changed) {
          var j :| 0 <= j < |k.columns| && k.columns[j] in d.changed && k.foreignColumns[j] == c;
          assert j == i;
        }
      }
    }
  }

  /** The path's keys are the database's. */
  lemma PathKey(keys: map<string, seq<ForeignKey>>, reg: Registry, e: Entity, d: Doing, ks: seq<ForeignKey>)
    requires Describes(keys, reg, e) && ks != [] && IsPath(reg, e, d, ks)
    ensures ks[|ks| - 1] in KeysTo(keys, RelationOf(e, ks[..|ks| - 1]))
  {
    var n := |ks| - 1;
    if n > 0 {
      var front := ks[..n];
      PathKey(keys, reg, e, d, front);
      assert front[n - 1] == ks[n - 1];
      assert reg[ks[n - 1].entity].relation == ks[n - 1].relation;
    }
  }

  function RelationOf(e: Entity, ks: seq<ForeignKey>): string {
    if ks == [] then e.relation else ks[|ks| - 1].relation
  }

  lemma {:induction false} PathRealized(
    db: Database, reg: Registry, e: Entity, action: Action, updated: seq<string>, ks: seq<ForeignKey>)
    requires Describes(db.keys, reg, e) && WellFormed(db.keys) && db.defaults == Some1()
    requires IsPath(reg, e, Start(action, updated), ks)
    ensures DoingAt(Start(action, updated), ks).Some?
    ensures var w := WriteOf(db, e, action, updated, ks);
            Realizes(DoingAt(Start(action, updated), ks).value, w) && w.id == |ks| && w.relation == RelationOf(e, ks)
  {
    hide Describes, Assigned, Realizes;
    var start := Start(action, updated);
    if ks == [] {
      BaseRealized(e, action, updated);
    } else {
      var n := |ks| - 1;
      PathRealized(db, reg, e, action, updated, ks[..n]);
      PathKey(db.keys, reg, e, start, ks);
      StepRealized(db, ks[n], WriteOf(db, e, action, updated, ks[..n]), DoingAt(start, ks[..n]).value, n + 1);
    }
  }

  lemma BaseRealized(e: Entity, action: Action, updated: seq<string>)
    ensures Realizes(Start(action, updated),
                     if action.Delete? then Deletes(0, e.relation, Zero())
                     else Sole(0, e.relation, updated, Ones(updated)))
  {
    SoleRealizes(0, e.relation, updated, Ones(updated));
  }

  lemma StepRealized(db: Database, k: ForeignKey, w: Write, d: Doing, id: nat)
    requires KeyFormed(k) && Realizes(d, w) && Carried(k, d).Some? && db.defaults == Some1()
    ensures Realizes(Carried(k, d).value, Following(db, k, w, id))
  {
    hide Assigned;
    SoleRealizes(id, k.relation, k.foreignColumns, Nulls(k));
    SoleRealizes(id, k.relation, k.foreignColumns, Defaults(db, k));
    if w.Updates? {
      CopyRealizes(id, k, w, d);
    }
  }

  lemma StepTriggers(db: Database, k: ForeignKey, w: Write, d: Doing, id: nat)
    requires KeyFormed(k) && Realizes(d, w) && Carried(k, d).Some? && k in KeysTo(db.keys, w.relation)
    ensures Triggers(db, k, w, Following(db, k, w, id))
  {
    hide Assigned;
    var x := Following(db, k, w, id);
    assert Refers(k, x.was, w.was);
    if w.Updates? {
      var c :| c in Names(k.columns) && c in d.changed;
      var i :| 0 <= i < |k.columns| && k.columns[i] == c;
      assert Changes(w, k.columns[i]);
    }
  }

  /** The write of each step makes the database do the next. */
  lemma PathTriggers(
    db: Database, reg: Registry, e: Entity, action: Action, updated: seq<string>, ks: seq<ForeignKey>)
    requires Describes(db.keys, reg, e) && WellFormed(db.keys) && db.defaults == Some1()
    requires ks != [] && IsPath(reg, e, Start(action, updated), ks)
    ensures Triggers(db, ks[|ks| - 1], WriteOf(db, e, action, updated, ks[..|ks| - 1]),
                     WriteOf(db, e, action, updated, ks))
  {
    hide Describes, Triggers, Realizes, Following, Carried;
    var n, start := |ks| - 1, Start(action, updated);
    PathRealized(db, reg, e, action, updated, ks[..n]);
    PathKey(db.keys, reg, e, start, ks);
    StepTriggers(db, ks[n], WriteOf(db, e, action, updated, ks[..n]), DoingAt(start, ks[..n]).value, n + 1);
  }

  /** The run of a path: one row of each relation on it, in turn. */
  ghost function RunOf(
    db: Database, e: Entity, action: Action, updated: seq<string>, ks: seq<ForeignKey>): (es: seq<Event>)
    ensures |es| == |ks| + 1
  {
    if ks == [] then [Own(WriteOf(db, e, action, updated, []))]
    else
      var n := |ks| - 1;
      RunOf(db, e, action, updated, ks[..n]) + [Caused(WriteOf(db, e, action, updated, ks), n, ks[n])]
  }

  ghost function RowsOf(e: Entity, ks: seq<ForeignKey>): Tables {
    map j: nat | 0 <= j <= |ks| :: Record(RelationOf(e, ks[..j]), Zero())
  }

  lemma {:induction false} RunAt(
    db: Database, e: Entity, action: Action, updated: seq<string>, ks: seq<ForeignKey>, j: nat)
    requires j <= |ks|
    ensures RunOf(db, e, action, updated, ks)[j] ==
            var w := WriteOf(db, e, action, updated, ks[..j]); if j == 0 then Own(w) else Caused(w, j - 1, ks[j - 1])
    decreases |ks|
  {
    if j < |ks| {
      var n := |ks| - 1;
      RunAt(db, e, action, updated, ks[..n], j);
      assert ks[..n][..j] == ks[..j];
      assert j > 0 ==> ks[..n][j - 1] == ks[j - 1];
    } else {
      assert ks[..j] == ks;
    }
  }

  lemma {:induction false} PathFront(reg: Registry, e: Entity, d: Doing, ks: seq<ForeignKey>, j: nat)
    requires IsPath(reg, e, d, ks) && j <= |ks|
    ensures IsPath(reg, e, d, ks[..j])
    decreases |ks|
  {
    if j < |ks| {
      var n := |ks| - 1;
      PathFront(reg, e, d, ks[..n], j);
      assert ks[..n][..j] == ks[..j];
    } else {
      assert ks[..j] == ks;
    }
  }

  lemma {:induction false} RowsLeft(t: Tables, es: seq<Event>, n: nat, id: nat)
    requires n <= |es| && forall j :: 0 <= j < n ==> es[j].write.id != id
    ensures id in TablesAt(t, es, n) <==> id in t
    ensures id in t ==> TablesAt(t, es, n)[id] == t[id]
  {
    if n > 0 {
      RowsLeft(t, es, n - 1, id);
    }
  }

  /** The j-th write of a path's run finds its row as it was. */
  lemma RunWrites(
    db: Database, reg: Registry, e: Entity, action: Action, updated: seq<string>, ks: seq<ForeignKey>, j: nat)
    requires Describes(db.keys, reg, e) && WellFormed(db.keys) && db.defaults == Some1()
    requires IsPath(reg, e, Start(action, updated), ks) && j <= |ks|
    ensures var w := RunOf(db, e, action, updated, ks)[j].write;
            w.id == j && w.relation == RelationOf(e, ks[..j]) && w.was == Zero()
  {
    hide Describes, WellFormed, IsPath, WriteOf;
    RunAt(db, e, action, updated, ks, j);
    PathFront(reg, e, Start(action, updated), ks, j);
    PathRealized(db, reg, e, action, updated, ks[..j]);
  }

  lemma BaseOwn(db: Database, e: Entity, action: Action, updated: seq<string>)
    ensures IsOwn(e, action, updated, WriteOf(db, e, action, updated, []))
  {
    BaseRealized(e, action, updated);
  }

  lemma PathRuns(
    db: Database, reg: Registry, e: Entity, action: Action, updated: seq<string>, ks: seq<ForeignKey>)
    requires Describes(db.keys, reg, e) && WellFormed(db.keys) && db.defaults == Some1()
    requires IsPath(reg, e, Start(action, updated), ks)
    ensures IsRun(db, e, action, updated, RowsOf(e, ks), RunOf(db, e, action, updated, ks))
  {
    hide Describes, WellFormed, IsPath, WriteOf, IsOwn, Triggers, TablesAt, RunOf, RelationOf;
    var es, t := RunOf(db, e, action, updated, ks), RowsOf(e, ks);
    forall j | 0 <= j <= |ks|
      ensures es[j].write.id == j && es[j].write.relation == RelationOf(e, ks[..j]) && es[j].write.was == Zero()
    {
      RunWrites(db, reg, e, action, updated, ks, j);
    }
    forall n | 0 <= n < |es|
      ensures var w := es[n].write;
              && w.id in TablesAt(t, es, n) && TablesAt(t, es, n)[w.id] == Record(w.relation, w.was)
              && match es[n]
                 case Own(_) => IsOwn(e, action, updated, w)
                 case Caused(_, cause, key) => cause < n && Triggers(db, key, es[cause].write, w)
    {
      RowsLeft(t, es, n, n);
      RunAt(db, e, action, updated, ks, n);
      if n == 0 {
        assert ks[..0] == [];
        BaseOwn(db, e, action, updated);
      } else {
        RunAt(db, e, action, updated, ks, n - 1);
        PathFront(reg, e, Start(action, updated), ks, n);
        assert ks[..n][..n - 1] == ks[..n - 1] && ks[..n][n - 1] == ks[n - 1];
        PathTriggers(db, reg, e, action, updated, ks[..n]);
      }
    }
  }

  lemma {:induction false} PathWithin(
    db: Database, reg: Registry, e: Entity, action: Action, updated: seq<string>, ks: seq<ForeignKey>, j: nat)
    requires IsPath(reg, e, Start(action, updated), ks) && j <= |ks|
    ensures Within(reg, e, RunOf(db, e, action, updated, ks), j)
  {
    hide WriteOf, RunOf;
    RunAt(db, e, action, updated, ks, j);
    if j > 0 {
      PathWithin(db, reg, e, action, updated, ks, j - 1);
      RunAt(db, e, action, updated, ks, j - 1);
      PathFront(reg, e, Start(action, updated), ks, j);
      assert ks[..j][..j - 1] == ks[..j - 1];
    }
  }

  lemma PathLeads(
    db: Database, reg: Registry, policy: Policy, e: Entity, action: Action, updated: seq<string>, ks: seq<ForeignKey>)
    requires Describes(db.keys, reg, e) && WellFormed(db.keys) && db.defaults == Some1()
    requires ks != [] && IsPath(reg, e, Start(action, updated), ks)
    ensures Covered(reg, policy, RunOf(db, e, action, updated, ks)[|ks|]) <==>
            Permitted(reg, policy, EffectAt(Start(action, updated), ks))
  {
    hide Describes, WellFormed, WriteOf, RunOf;
    RunAt(db, e, action, updated, ks, |ks|);
    assert ks[..|ks|] == ks;
    PathRealized(db, reg, e, action, updated, ks);
    if DoingAt(Start(action, updated), ks).value.action.Delete? {
      DeletesNoColumns(Start(action, updated), ks);
    }
  }

  /** What the caller may not do can happen exactly when a path of keys whose
      referenced columns change ends in it. */
  lemma RefusedExactly(
    keys: map<string, seq<ForeignKey>>, reg: Registry, policy: Policy, e: Entity, action: Action, updated: seq<string>)
    requires Describes(keys, reg, e) && WellFormed(keys)
    ensures CanRefuse(keys, reg, policy, e, action, updated) <==>
            RefusedPath(reg, policy, e, Start(action, updated))
  {
    hide Describes, WellFormed, IsRun, Covered, Permitted, LedBy;
    var start := Start(action, updated);
    if RefusedPath(reg, policy, e, start) {
      var ks :| ks != [] && IsPath(reg, e, start, ks) && !Permitted(reg, policy, EffectAt(start, ks));
      var db := Database(keys, Some1());
      PathRuns(db, reg, e, action, updated, ks);
      PathWithin(db, reg, e, action, updated, ks, |ks|);
      PathLeads(db, reg, policy, e, action, updated, ks);
    }
    if CanRefuse(keys, reg, policy, e, action, updated) {
      var db: Database, t, es, n :| db.keys == keys && IsRun(db, e, action, updated, t, es) && Within(reg, e, es, n) &&
                                    !Covered(reg, policy, es[n]);
      RefusedLed(db, reg, policy, e, action, updated, t, es, n);
    }
  }

  lemma RefusedLed(
    db: Database, reg: Registry, policy: Policy, e: Entity, action: Action, updated: seq<string>,
    t: Tables, es: seq<Event>, n: nat)
    requires Describes(db.keys, reg, e) && IsRun(db, e, action, updated, t, es) && Within(reg, e, es, n)
    requires !Covered(reg, policy, es[n])
    ensures RefusedPath(reg, policy, e, Start(action, updated))
  {
    hide Describes, IsRun, Within, Covered, Permitted;
    var ks := EventLed(db, reg, e, action, updated, t, es, n);
    if es[n].Own? {
      OwnCovered(reg, policy, es[n]);
    } else {
      CoveredAsPermitted(reg, policy, e, Start(action, updated), es[n], ks);
      assert ks != [] && IsPath(reg, e, Start(action, updated), ks) &&
             !Permitted(reg, policy, EffectAt(Start(action, updated), ks));
    }
  }

  // --- when the check is exact ---

  /** m updates columns that k copies to the rows that refer to it. */
  predicate Copies(m: Node, k: ForeignKey) {
    m.action.Update? && k.onUpdate.Cascade? && Overlaps(k.columns, m.columns)
  }

  /** No update reached assigns some columns a cascading key refers to and not the
      others. */
  ghost predicate Whole(reg: Registry, e: Entity, action: Action, updated: seq<string>) {
    forall m, k :: Reaches(reg, Node(e, action, updated), m) && k in m.entity.keys && Copies(m, k) ==>
      Names(k.columns) <= Names(m.columns)
  }

  lemma EffectCarried(n: Node, k: ForeignKey)
    requires KeyFormed(k) && EffectOf(k, n.action, n.columns).Some?
    requires n.action.Update? && k.onUpdate.Cascade? ==> Names(k.columns) <= Names(n.columns)
    ensures var f := EffectOf(k, n.action, n.columns).value;
            forall d: Doing :: d.action == n.action && (n.action.Update? ==> d.changed == Names(n.columns)) ==>
              Carried(k, d) == Some(Doing(f.action, f.columns, if f.action.Update? then Names(f.columns) else {}))
  {
    if n.action.Update? {
      var i :| 0 <= i < |k.columns| && k.columns[i] in n.columns;
      assert k.columns[i] in Names(k.columns) && k.columns[i] in Names(n.columns);
      if k.onUpdate.Cascade? {
        assert Copied(k, Names(n.columns)) == Names(k.foreignColumns) by {
          assert forall j :: 0 <= j < |k.columns| ==> k.columns[j] in Names(k.columns);
        }
      }
    }
  }

  /** The path to a write the check reaches, all of whose columns can change. */
  ghost predicate PathTo(reg: Registry, e: Entity, d: Doing, m: Node, ks: seq<ForeignKey>) {
    && IsPath(reg, e, d, ks) && HolderOf(reg, e, ks) == Some(m.entity)
    && DoingAt(d, ks).Some? && DoingAt(d, ks).value.action == m.action && DoingAt(d, ks).value.columns == m.columns
    && (m.action.Update? ==> DoingAt(d, ks).value.changed == Names(m.columns))
  }

  lemma PathOn(reg: Registry, e: Entity, d: Doing, m: Node, ks: seq<ForeignKey>, k: ForeignKey)
    requires PathTo(reg, e, d, m, ks) && !m.entity.allowCascade && k in m.entity.keys && KeyFormed(k)
    requires EffectOf(k, m.action, m.columns).Some?
    requires m.action.Update? && k.onUpdate.Cascade? ==> Names(k.columns) <= Names(m.columns)
    ensures var all, f := ks + [k], EffectOf(k, m.action, m.columns).value;
            && IsPath(reg, e, d, all) && EffectAt(d, all) == f
            && (f.entity in reg ==> PathTo(reg, e, d, NodeOf(reg, f), all))
  {
    hide Carried, KeyFormed;
    var all := ks + [k];
    assert all[..|all| - 1] == ks;
    EffectCarried(m, k);
    EffectEntity(k, m.action, m.columns);
  }

  lemma EffectEntity(k: ForeignKey, action: Action, columns: seq<string>)
    requires EffectOf(k, action, columns).Some?
    ensures EffectOf(k, action, columns).value.entity == k.entity
  {
  }

  lemma HolderKeys(keys: map<string, seq<ForeignKey>>, reg: Registry, e: Entity, ks: seq<ForeignKey>, k: ForeignKey)
    requires Describes(keys, reg, e) && WellFormed(keys)
    requires HolderOf(reg, e, ks).Some? && k in HolderOf(reg, e, ks).value.keys
    ensures KeyFormed(k)
  {
  }

  lemma WholeKey(reg: Registry, e: Entity, action: Action, updated: seq<string>, m: Node, k: ForeignKey)
    requires Whole(reg, e, action, updated) && Reaches(reg, Node(e, action, updated), m) && k in m.entity.keys
    requires EffectOf(k, m.action, m.columns).Some?
    ensures m.action.Update? && k.onUpdate.Cascade? ==> Names(k.columns) <= Names(m.columns)
  {
    hide Reaches;
  }

  lemma {:induction false} ReachedPath(
    keys: map<string, seq<ForeignKey>>, reg: Registry, e: Entity, action: Action, updated: seq<string>, ns: seq<Node>)
    returns (ks: seq<ForeignKey>)
    requires Describes(keys, reg, e) && WellFormed(keys) && Whole(reg, e, action, updated)
    requires Chain(reg, ns) && ns[0] == Node(e, action, updated)
    ensures PathTo(reg, e, Start(action, updated), ns[|ns| - 1], ks)
    decreases |ns|
  {
    hide Describes, WellFormed, Whole, EffectOf, Carried;
    var n := |ns| - 1;
    if n == 0 {
      ks := [];
    } else {
      ks := ReachedPath(keys, reg, e, action, updated, ns[..n]);
      var m := ns[n - 1];
      assert Leads(reg, m, ns[n]);
      var i :| 0 <= i < |NodeEffects(m)| && NodeEffects(m)[i].entity in reg && ns[n] == NodeOf(reg, NodeEffects(m)[i]);
      EffectOfKey(m.entity.keys, m.action, m.columns, i);
      var j :| 0 <= j < |m.entity.keys| && EffectOf(m.entity.keys[j], m.action, m.columns) == Some(NodeEffects(m)[i]);
      var k := m.entity.keys[j];
      HolderKeys(keys, reg, e, ks, k);
      assert Reaches(reg, Node(e, action, updated), m) by {
        assert Chain(reg, ns[..n]) && ns[..n][0] == ns[0] && ns[..n][n - 1] == m;
      }
      WholeKey(reg, e, action, updated, m, k);
      PathOn(reg, e, Start(action, updated), m, ks, k);
      ks := ks + [k];
    }
  }

  /** What the check refuses is at the end of a path. */
  lemma RefusalIsPath(
    keys: map<string, seq<ForeignKey>>, reg: Registry, policy: Policy, e: Entity, action: Action, updated: seq<string>)
    requires Describes(keys, reg, e) && WellFormed(keys) && Whole(reg, e, action, updated)
    requires !Passes(reg, policy, e, action, updated)
    ensures RefusedPath(reg, policy, e, Start(action, updated))
  {
    hide Describes, WellFormed, Whole, EffectOf, Carried, Permitted, PathTo;
    var m :| Reaches(reg, Node(e, action, updated), m) && !AllPermitted(reg, policy, m);
    var ns :| Chain(reg, ns) && ns[0] == Node(e, action, updated) && ns[|ns| - 1] == m;
    var ks := ReachedPath(keys, reg, e, action, updated, ns);
    var i :| 0 <= i < |NodeEffects(m)| && !Permitted(reg, policy, NodeEffects(m)[i]);
    EffectOfKey(m.entity.keys, m.action, m.columns, i);
    var j :| 0 <= j < |m.entity.keys| && EffectOf(m.entity.keys[j], m.action, m.columns) == Some(NodeEffects(m)[i]);
    var k := m.entity.keys[j];
    PathHolds(reg, e, Start(action, updated), m, ks);
    HolderKeys(keys, reg, e, ks, k);
    WholeKey(reg, e, action, updated, m, k);
    PathOn(reg, e, Start(action, updated), m, ks, k);
    assert ks + [k] != [];
  }

  lemma PathHolds(reg: Registry, e: Entity, d: Doing, m: Node, ks: seq<ForeignKey>)
    requires PathTo(reg, e, d, m, ks)
    ensures HolderOf(reg, e, ks) == Some(m.entity)
  {
  }

  /** The check refuses exactly when the database can do what the caller may not,
      where no update reached assigns only some of the columns of a key it
      cascades through. */
  lemma CheckExact(
    keys: map<string, seq<ForeignKey>>, reg: Registry, policy: Policy, e: Entity, action: Action, updated: seq<string>)
    requires Describes(keys, reg, e) && WellFormed(keys)
    ensures CanRefuse(keys, reg, policy, e, action, updated) ==> !Passes(reg, policy, e, action, updated)
    ensures Whole(reg, e, action, updated) && !Passes(reg, policy, e, action, updated) ==>
              CanRefuse(keys, reg, policy, e, action, updated)
  {
    hide Describes, WellFormed, Whole, CanRefuse, Permitted, IsPath, Passes;
    RefusedExactly(keys, reg, policy, e, action, updated);
    if CanRefuse(keys, reg, policy, e, action, updated) && Passes(reg, policy, e, action, updated) {
      NoRefusedPath(reg, policy, e, action, updated);
    }
    if Whole(reg, e, action, updated) && !Passes(reg, policy, e, action, updated) {
      RefusalIsPath(keys, reg, policy, e, action, updated);
    }
  }

  lemma NoRefusedPath(reg: Registry, policy: Policy, e: Entity, action: Action, updated: seq<string>)
    requires Passes(reg, policy, e, action, updated)
    ensures !RefusedPath(reg, policy, e, Start(action, updated))
  {
    hide Permitted, Passes;
    forall ks | ks != [] && IsPath(reg, e, Start(action, updated), ks)
      ensures Permitted(reg, policy, EffectAt(Start(action, updated), ks))
    {
      PathPermitted(reg, policy, e, action, updated, ks);
    }
  }

  // --- where it is not ---

  /** f ends a path. */
  ghost predicate OnPath(reg: Registry, e: Entity, d: Doing, f: Effect) {
    exists ks :: ks != [] && IsPath(reg, e, d, ks) && EffectAt(d, ks) == f
  }

  /** f is checked: a write reached has it. */
  ghost predicate IsChecked(reg: Registry, e: Entity, action: Action, updated: seq<string>, f: Effect) {
    exists m :: Reaches(reg, Node(e, action, updated), m) && !m.entity.allowCascade && f in NodeEffects(m)
  }

  predicate Exposed(reg: Registry, f: Effect) {
    f.entity != "" && f.entity in reg
  }

  /** Allows everything but f. */
  function AllBut(f: Effect): Policy {
    (entity, action, columns) => if Effect(entity, action, columns) == f then Denied else Allowed(false)
  }

  lemma CheckedRefused(reg: Registry, policy: Policy, e: Entity, action: Action, updated: seq<string>, f: Effect)
    requires IsChecked(reg, e, action, updated, f) && !Permitted(reg, policy, f)
    ensures !Passes(reg, policy, e, action, updated)
  {
    hide Reaches, Permitted;
    var m :| Reaches(reg, Node(e, action, updated), m) && !m.entity.allowCascade && f in NodeEffects(m);
    var i :| 0 <= i < |NodeEffects(m)| && NodeEffects(m)[i] == f;
    assert !AllPermitted(reg, policy, m);
  }

  lemma RefusedChecked(reg: Registry, policy: Policy, e: Entity, action: Action, updated: seq<string>)
    requires !Passes(reg, policy, e, action, updated)
    ensures exists f :: IsChecked(reg, e, action, updated, f) && !Permitted(reg, policy, f)
  {
    hide Reaches, Permitted;
    var m :| Reaches(reg, Node(e, action, updated), m) && !AllPermitted(reg, policy, m);
    var i :| 0 <= i < |NodeEffects(m)| && !Permitted(reg, policy, NodeEffects(m)[i]);
    assert NodeEffects(m)[i] in NodeEffects(m);
    assert IsChecked(reg, e, action, updated, NodeEffects(m)[i]);
  }

  /** Whatever the policy, a refusal means a write the caller may not make can
      happen, exactly when every effect checked ends a path of keys whose
      referenced columns change, or one such path ends where no entity is. */
  lemma RefusalsExact(
    keys: map<string, seq<ForeignKey>>, reg: Registry, e: Entity, action: Action, updated: seq<string>)
    requires Describes(keys, reg, e) && WellFormed(keys)
    ensures (forall policy :: !Passes(reg, policy, e, action, updated) ==>
                                CanRefuse(keys, reg, policy, e, action, updated)) <==>
            || (exists f :: OnPath(reg, e, Start(action, updated), f) && !Exposed(reg, f))
            || (forall f :: IsChecked(reg, e, action, updated, f) ==> OnPath(reg, e, Start(action, updated), f))
  {
    hide Describes, WellFormed, CanRefuse, IsPath, Passes, IsChecked, RefusedPath;
    var d := Start(action, updated);
    forall policy ensures CanRefuse(keys, reg, policy, e, action, updated) <==>
                          exists f :: OnPath(reg, e, d, f) && !Permitted(reg, policy, f)
    {
      RefusedExactly(keys, reg, policy, e, action, updated);
      RefusedOn(reg, policy, e, d);
    }
    if f :| IsChecked(reg, e, action, updated, f) && !OnPath(reg, e, d, f) {
      CheckedRefused(reg, AllBut(f), e, action, updated, f);
      assert forall x :: Exposed(reg, x) && x != f ==> Permitted(reg, AllBut(f), x);
    }
    forall policy | !Passes(reg, policy, e, action, updated)
      ensures exists f :: IsChecked(reg, e, action, updated, f) && !Permitted(reg, policy, f)
    {
      RefusedChecked(reg, policy, e, action, updated);
    }
    assert forall policy, f :: !Exposed(reg, f) ==> !Permitted(reg, policy, f);
  }

  lemma RefusedOn(reg: Registry, policy: Policy, e: Entity, d: Doing)
    ensures RefusedPath(reg, policy, e, d) <==> exists f :: OnPath(reg, e, d, f) && !Permitted(reg, policy, f)
  {
    hide Permitted;
    if RefusedPath(reg, policy, e, d) {
      var ks :| ks != [] && IsPath(reg, e, d, ks) && !Permitted(reg, policy, EffectAt(d, ks));
      assert OnPath(reg, e, d, EffectAt(d, ks));
    }
  }

  // Orders refer to both columns of an account and notes to one column of an
  // order; an update of the account's other column is refused for the notes.
  const TO_NOTE := ForeignKey("note", "note", ["branch"], ["branch"], NoWrite, Cascade)
  const TO_ORDER := ForeignKey("order", "order", ["code", "branch"], ["code", "branch"], NoWrite, Cascade)
  const ACCOUNT := Entity("account", "account", false, [TO_ORDER])
  const ORDER := Entity("order", "order", false, [TO_NOTE])
  const NOTE := Entity("note", "note", false, [])
  const REGISTRY: Registry := map["account" := ACCOUNT, "order" := ORDER, "note" := NOTE]
  const KEYS: map<string, seq<ForeignKey>> := map["account" := [TO_ORDER], "order" := [TO_NOTE]]

  function NotNotes(): Policy {
    (entity, _, _) => if entity == "note" then Denied else Allowed(false)
  }

  lemma PartOrderRefused()
    ensures !Passes(REGISTRY, NotNotes(), ACCOUNT, Update, ["code"])
  {
    var n, m := Node(ACCOUNT, Update, ["code"]), Node(ORDER, Update, ["code", "branch"]);
    assert TO_ORDER.columns[0] in ["code"];
    assert EffectOf(TO_ORDER, Update, ["code"]).Some?;
    EffectLeads(REGISTRY, ACCOUNT, Update, ["code"], TO_ORDER);
    ReachesSelf(REGISTRY, n);
    ReachesThen(REGISTRY, n, n, m);
    assert TO_NOTE.columns[0] in ["code", "branch"];
    HasEffect(ORDER.keys, Update, ["code", "branch"], TO_NOTE);
    assert IsChecked(REGISTRY, ACCOUNT, Update, ["code"], Effect("note", Update, ["branch"]));
    CheckedRefused(REGISTRY, NotNotes(), ACCOUNT, Update, ["code"], Effect("note", Update, ["branch"]));
  }

  lemma {:induction false} PartPaths(ks: seq<ForeignKey>)
    requires IsPath(REGISTRY, ACCOUNT, Start(Update, ["code"]), ks)
    ensures ks == [] || ks == [TO_ORDER]
  {
    if ks != [] {
      var n := |ks| - 1;
      PartPaths(ks[..n]);
      if ks[..n] == [] {
        assert ks == [ks[0]];
      } else {
        PartStops(ks);
      }
    }
  }

  lemma PartCopied()
    ensures Copied(TO_ORDER, Names(["code"])) == {"code"}
  {
    var names := Names(["code"]);
    assert "code" in ["code"] && names == {"code"};
    assert "code" != "branch" by {
      assert |"code"| == 4;
    }
    assert TO_ORDER.columns[0] in names && TO_ORDER.foreignColumns[0] == "code" && TO_ORDER.columns[1] !in names;
    assert "code" in Copied(TO_ORDER, names);
  }

  lemma PartStops(ks: seq<ForeignKey>)
    requires |ks| == 2 && ks[..1] == [TO_ORDER]
    ensures !IsPath(REGISTRY, ACCOUNT, Start(Update, ["code"]), ks)
  {
    var d := Start(Update, ["code"]);
    assert [TO_ORDER][..0] == [];
    PartCopied();
    assert DoingAt(d, [TO_ORDER]) == Carried(TO_ORDER, d);
    assert Names(["branch"]) == {"branch"};
  }

  lemma PartPermitted(ks: seq<ForeignKey>)
    requires ks != [] && IsPath(REGISTRY, ACCOUNT, Start(Update, ["code"]), ks)
    ensures Permitted(REGISTRY, NotNotes(), EffectAt(Start(Update, ["code"]), ks))
  {
    PartPaths(ks);
    assert ks[0].entity == "order" && |"order"| == 5 && |"note"| == 4;
  }

  lemma PartDescribed()
    ensures Describes(KEYS, REGISTRY, ACCOUNT) && WellFormed(KEYS)
  {
    assert |"code"| == 4 && |"branch"| == 6 && |"account"| == 7 && |"order"| == 5 && |"note"| == 4;
    assert KeyFormed(TO_NOTE) && KeyFormed(TO_ORDER);
    assert KeysTo(KEYS, "note") == [];
  }

  /** Of a key of two columns, one updated: the check follows the other on, though
      it does not change, and refuses what cannot happen. */
  lemma PartRefusedForNothing()
    ensures Describes(KEYS, REGISTRY, ACCOUNT) && WellFormed(KEYS)
    ensures !Passes(REGISTRY, NotNotes(), ACCOUNT, Update, ["code"])
    ensures !CanRefuse(KEYS, REGISTRY, NotNotes(), ACCOUNT, Update, ["code"])
  {
    hide CanRefuse, Passes, Describes, WellFormed, Permitted;
    PartDescribed();
    PartOrderRefused();
    RefusedExactly(KEYS, REGISTRY, NotNotes(), ACCOUNT, Update, ["code"]);
    var d := Start(Update, ["code"]);
    forall ks | ks != [] && IsPath(REGISTRY, ACCOUNT, d, ks)
      ensures Permitted(REGISTRY, NotNotes(), EffectAt(d, ks))
    {
      PartPermitted(ks);
    }
  }
}
