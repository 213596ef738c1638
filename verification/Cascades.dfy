/** The authorization of the writes foreign keys cascade from a delete or an
    update: every effect reached must be allowed without a row scope. */
module Cascades {

  datatype Option<T> = None | Some(value: T)

  datatype Action = Update | Delete

  datatype Rule = Cascade | SetNull | SetDefault | NoWrite

  /** A key of relation, which refers to columns by its foreignColumns; entity is
      "" when no entity exposes relation. */
  datatype ForeignKey = ForeignKey(
    relation: string, entity: string, columns: seq<string>, foreignColumns: seq<string>, onDelete: Rule, onUpdate: Rule)

  /** keys are those that refer to the entity's relation. */
  datatype Entity = Entity(name: string, relation: string, allowCascade: bool, keys: seq<ForeignKey>)

  type Registry = map<string, Entity>

  /** A denial, an error, or a grant and whether it filters rows. */
  datatype Decision = Error | Denied | Allowed(filtered: bool)

  /** What a caller may do: the decision on an action of an entity's columns. */
  type Policy = (string, Action, seq<string>) -> Decision

  /** What one foreign key does: to which entity, and the columns it writes. */
  datatype Effect = Effect(entity: string, action: Action, columns: seq<string>)

  predicate Overlaps(columns: seq<string>, updated: seq<string>) {
    exists i :: 0 <= i < |columns| && columns[i] in updated
  }

  /** The effect of one key, if it has one. */
  function EffectOf(k: ForeignKey, action: Action, updated: seq<string>): Option<Effect> {
    var rule := if action.Update? then k.onUpdate else k.onDelete;
    if action.Update? && !Overlaps(k.columns, updated) then None
    else if rule.NoWrite? then None
    else if action.Delete? && rule.Cascade? then Some(Effect(k.entity, Delete, []))
    else Some(Effect(k.entity, Update, k.foreignColumns))
  }

  function Effects(keys: seq<ForeignKey>, action: Action, updated: seq<string>): seq<Effect> {
    if keys == [] then []
    else
      var last := EffectOf(keys[|keys|-1], action, updated);
      Effects(keys[..|keys|-1], action, updated) + (if last.Some? then [last.value] else [])
  }

  method CascadeEffects(keys: seq<ForeignKey>, action: Action, updated: seq<string>) returns (out: seq<Effect>)
    ensures out == Effects(keys, action, updated)
  {
    out := [];
    for i := 0 to |keys|
      invariant out == Effects(keys[..i], action, updated)
    {
      assert keys[..i + 1][..i] == keys[..i];
      var rule := keys[i].onDelete;
      if action.Update? {
        rule := keys[i].onUpdate;
        if !Overlaps(keys[i].columns, updated) {
          continue;
        }
      }
      if rule.NoWrite? {
        continue;
      }
      if action.Delete? && rule.Cascade? {
        out := out + [Effect(keys[i].entity, Delete, [])];
      } else {
        out := out + [Effect(keys[i].entity, Update, keys[i].foreignColumns)];
      }
    }
    assert keys[..|keys|] == keys;
  }

  // --- what a write reaches ---

  /** A write of an entity: a delete, or an update of columns. */
  datatype Node = Node(entity: Entity, action: Action, columns: seq<string>)

  function NodeEffects(n: Node): seq<Effect> {
    Effects(n.entity.keys, n.action, n.columns)
  }

  /** Allowed, without a row scope, on an entity that is registered. */
  predicate Permitted(reg: Registry, policy: Policy, f: Effect) {
    f.entity != "" && f.entity in reg && policy(f.entity, f.action, f.columns) == Allowed(false)
  }

  function NodeOf(reg: Registry, f: Effect): Node
    requires f.entity in reg
  {
    Node(reg[f.entity], f.action, f.columns)
  }

  /** m is what an effect of n does, n not being left out of the check. */
  predicate Leads(reg: Registry, n: Node, m: Node) {
    !n.entity.allowCascade &&
    exists i :: 0 <= i < |NodeEffects(n)| && NodeEffects(n)[i].entity in reg && m == NodeOf(reg, NodeEffects(n)[i])
  }

  ghost predicate Chain(reg: Registry, ns: seq<Node>) {
    ns != [] && forall i :: 0 < i < |ns| ==> Leads(reg, ns[i-1], ns[i])
  }

  ghost predicate Reaches(reg: Registry, n: Node, m: Node) {
    exists ns :: Chain(reg, ns) && ns[0] == n && ns[|ns|-1] == m
  }

  /** Every effect of n is permitted, or n is left out of the check. */
  predicate AllPermitted(reg: Registry, policy: Policy, n: Node) {
    n.entity.allowCascade || forall i :: 0 <= i < |NodeEffects(n)| ==> Permitted(reg, policy, NodeEffects(n)[i])
  }

  lemma ReachesSelf(reg: Registry, n: Node)
    ensures Reaches(reg, n, n)
  {
    assert Chain(reg, [n]);
  }

  lemma ReachesOn(reg: Registry, n: Node, m: Node, next: Node)
    requires Leads(reg, n, m) && Reaches(reg, m, next)
    ensures Reaches(reg, n, next)
  {
    var ns :| Chain(reg, ns) && ns[0] == m && ns[|ns|-1] == next;
    var all := [n] + ns;
    forall i | 0 < i < |all| ensures Leads(reg, all[i-1], all[i]) {
      if i > 1 {
        assert Leads(reg, ns[i-2], ns[i-1]);
      }
    }
    assert Chain(reg, all) && all[0] == n && all[|all|-1] == next;
  }

  /** Every effect a write reaches, not looking past an entity that allows
      cascades, is permitted. */
  ghost predicate Passes(reg: Registry, policy: Policy, e: Entity, action: Action, updated: seq<string>) {
    forall m :: Reaches(reg, Node(e, action, updated), m) ==> AllPermitted(reg, policy, m)
  }

  // --- the walk ---

  /** The effects of n are permitted, and lead into seen, or where the check
      does not look. */
  predicate Settled(reg: Registry, policy: Policy, n: Node, seen: set<Node>) {
    && AllPermitted(reg, policy, n)
    && (!n.entity.allowCascade ==>
          forall i :: 0 <= i < |NodeEffects(n)| ==>
            var f := NodeEffects(n)[i];
            f.entity in reg && (reg[f.entity].allowCascade || NodeOf(reg, f) in seen))
  }

  lemma SettledGrows(reg: Registry, policy: Policy, n: Node, seen: set<Node>, more: set<Node>)
    requires Settled(reg, policy, n, seen) && seen <= more
    ensures Settled(reg, policy, n, more)
  {
  }

  /** A finite set of writes that effects do not leave. */
  predicate Bounds(reg: Registry, all: set<Node>) {
    forall n, i :: n in all && 0 <= i < |NodeEffects(n)| && NodeEffects(n)[i].entity in reg ==>
      NodeOf(reg, NodeEffects(n)[i]) in all
  }

  /** Walks the effects of n once, seen being shared by the whole walk. */
  method Visit(
    reg: Registry, policy: Policy, n: Node, seen: set<Node>, ghost all: set<Node>) returns (ok: bool, now: set<Node>)
    requires Bounds(reg, all) && n in all && seen <= all
    ensures seen <= now <= all
    ensures ok ==> n.entity.allowCascade || n in now
    ensures ok ==> forall m :: m in now - seen ==> Settled(reg, policy, m, now)
    ensures !ok ==> exists m :: Reaches(reg, n, m) && !AllPermitted(reg, policy, m)
    decreases all - seen
  {
    now := seen;
    if n.entity.allowCascade || n in seen {
      return true, now;
    }
    now := now + {n};
    var effects := CascadeEffects(n.entity.keys, n.action, n.columns);
    ReachesSelf(reg, n);
    for i := 0 to |effects|
      invariant seen + {n} <= now <= all
      invariant forall j :: 0 <= j < i ==>
        Permitted(reg, policy, effects[j]) && (reg[effects[j].entity].allowCascade || NodeOf(reg, effects[j]) in now)
      invariant forall m :: m in now - seen && m != n ==> Settled(reg, policy, m, now)
    {
      var f := effects[i];
      assert f == NodeEffects(n)[i];
      if f.entity == "" || f.entity !in reg {
        return false, now;
      }
      var decision := policy(f.entity, f.action, f.columns);
      if decision != Allowed(false) {
        return false, now;
      }
      var child := NodeOf(reg, f);
      assert child in all;
      var more: set<Node>;
      ok, more := Visit(reg, policy, child, now, all);
      if !ok {
        ghost var m :| Reaches(reg, child, m) && !AllPermitted(reg, policy, m);
        assert Leads(reg, n, child);
        ReachesOn(reg, n, child, m);
        return false, more;
      }
      forall m | m in now - seen && m != n ensures Settled(reg, policy, m, more) {
        SettledGrows(reg, policy, m, now, more);
      }
      now := more;
    }
    return true, now;
  }

  lemma {:induction false} SettledChain(reg: Registry, policy: Policy, seen: set<Node>, ns: seq<Node>, i: nat)
    requires Chain(reg, ns) && i < |ns| && (forall m :: m in seen ==> Settled(reg, policy, m, seen))
    requires ns[0].entity.allowCascade || ns[0] in seen
    ensures ns[i].entity.allowCascade || ns[i] in seen
  {
    if i > 0 {
      SettledChain(reg, policy, seen, ns, i - 1);
      assert Leads(reg, ns[i-1], ns[i]);
    }
  }

  /** Everything an action may reach, whatever order it is walked in. */
  function Columns(es: set<Entity>): set<seq<string>> {
    set e, i | e in es && 0 <= i < |e.keys| :: e.keys[i].foreignColumns
  }

  function Universe(reg: Registry, n: Node): set<Node> {
    var entities := {n.entity} + reg.Values;
    set e, a, c | e in entities && a in {Update, Delete} && c in {n.columns, []} + Columns(entities) :: Node(e, a, c)
  }

  lemma {:induction false} EffectOfKey(keys: seq<ForeignKey>, action: Action, updated: seq<string>, i: nat)
    requires i < |Effects(keys, action, updated)|
    ensures exists j :: 0 <= j < |keys| && EffectOf(keys[j], action, updated) == Some(Effects(keys, action, updated)[i])
  {
    if i < |Effects(keys[..|keys|-1], action, updated)| {
      EffectOfKey(keys[..|keys|-1], action, updated, i);
      var j :| 0 <= j < |keys| - 1 &&
               EffectOf(keys[..|keys|-1][j], action, updated) == Some(Effects(keys[..|keys|-1], action, updated)[i]);
      assert keys[j] == keys[..|keys|-1][j];
    } else {
      assert EffectOf(keys[|keys|-1], action, updated).Some?;
    }
  }

  lemma UniverseBounds(reg: Registry, n: Node)
    ensures Bounds(reg, Universe(reg, n)) && n in Universe(reg, n)
  {
    var all, entities := Universe(reg, n), {n.entity} + reg.Values;
    assert n.action.Update? || n.action.Delete?;
    assert n == Node(n.entity, n.action, n.columns);
    forall m, i | m in all && 0 <= i < |NodeEffects(m)| && NodeEffects(m)[i].entity in reg
      ensures NodeOf(reg, NodeEffects(m)[i]) in all
    {
      var f := NodeEffects(m)[i];
      EffectOfKey(m.entity.keys, m.action, m.columns, i);
      var j :| 0 <= j < |m.entity.keys| && EffectOf(m.entity.keys[j], m.action, m.columns) == Some(f);
      assert m.entity in entities;
      assert m.entity.keys[j].foreignColumns in Columns(entities);
      assert reg[f.entity] in reg.Values;
    }
  }

  /** It ends on cyclic keys. */
  method CheckCascades(
    reg: Registry, policy: Policy, e: Entity, action: Action, updated: seq<string>) returns (ok: bool)
    ensures ok <==> Passes(reg, policy, e, action, updated)
  {
    var n := Node(e, action, updated);
    UniverseBounds(reg, n);
    var seen: set<Node>;
    ok, seen := Visit(reg, policy, n, {}, Universe(reg, n));
    if ok {
      forall m | Reaches(reg, n, m) ensures AllPermitted(reg, policy, m) {
        var ns :| Chain(reg, ns) && ns[0] == n && ns[|ns|-1] == m;
        SettledChain(reg, policy, seen, ns, |ns| - 1);
      }
    }
  }
}
