/** The authorizer's loops, against what they decide. */
module Authorizer {
  import opened Lists
  import opened Relalg
  import opened Rbac

  method CoveringGrants(
    grants: seq<Grant>, read: seq<string>, write: seq<string>, visible: seq<Attribute>) returns (out: seq<Grant>)
    ensures out == Covering(grants, read, write, visible)
  {
    out := [];
    var p := (g: Grant) => Passes(g, read, write, visible);
    for i := 0 to |grants|
      invariant out == Picked(p, grants, i)
    {
      var g := grants[i];
      if g.fields.None? {
        out := out + [g];
        continue;
      }
      if FirstDenied(read, g.fields.value.read, visible) == "" &&
          FirstDenied(write, g.fields.value.write, visible) == "" {
        out := out + [g];
      }
    }
    PickedAll(p, grants);
  }

  /** The principal's own grants, then each role's, that allow the action. */
  method FindCandidates(p: Policy, entity: string, principal: string, action: Action) returns (out: seq<Grant>)
    requires principal != ""
    ensures out == Candidates(p, entity, principal, action)
  {
    var roles, own := [principal], [];
    if principal in p.principals {
      roles := p.principals[principal].roles;
      own := Under(p.principals[principal].grants, entity);
    }
    out := AddAllowing([], [], own, action);
    assert [] + own == own;
    out := AddRoles(own, out, p, entity, roles, action);
    if principal !in p.principals {
      assert own + RolesGrants(p, entity, roles) == RolesGrants(p, entity, roles);
    }
  }

  /** own, then the grants of the first n roles. */
  ghost function UpTo(own: seq<Grant>, p: Policy, entity: string, roles: seq<string>, n: nat): seq<Grant>
    requires n <= |roles|
  {
    if n == 0 then own else UpTo(own, p, entity, roles, n - 1) + RoleGrants(p, entity, roles[n-1])
  }

  lemma {:induction false} UpToAll(own: seq<Grant>, p: Policy, entity: string, roles: seq<string>, n: nat)
    requires n <= |roles|
    ensures UpTo(own, p, entity, roles, n) == own + RolesGrants(p, entity, roles[..n])
  {
    if n > 0 {
      UpToAll(own, p, entity, roles, n - 1);
      assert roles[..n][..n-1] == roles[..n-1];
    }
  }

  method AddRoles(
    ghost own: seq<Grant>, found: seq<Grant>, p: Policy, entity: string, roles: seq<string>, action: Action)
    returns (out: seq<Grant>)
    requires found == Allowing(own, action)
    ensures out == Allowing(own + RolesGrants(p, entity, roles), action)
  {
    out := found;
    for i := 0 to |roles|
      invariant out == Allowing(UpTo(own, p, entity, roles, i), action)
    {
      out := AddRole(UpTo(own, p, entity, roles, i), out, p, entity, roles[i], action);
    }
    UpToAll(own, p, entity, roles, |roles|);
    assert roles[..|roles|] == roles;
  }

  method AddRole(ghost before: seq<Grant>, found: seq<Grant>, p: Policy, entity: string, role: string, action: Action)
    returns (out: seq<Grant>)
    requires found == Allowing(before, action)
    ensures out == Allowing(before + RoleGrants(p, entity, role), action)
  {
    var top := if role in p.roles then Under(p.roles[role], entity) else [];
    out := AddAllowing(before, found, top, action);
    if entity in p.entityGrants && role in p.entityGrants[entity] {
      var g := p.entityGrants[entity][role];
      out := AddAllowing(before + top, out, [g], action);
      assert before + top + [g] == before + RoleGrants(p, entity, role);
    } else {
      assert top == RoleGrants(p, entity, role);
    }
  }

  /** Appends the grants that allow the action. */
  method AddAllowing(
    ghost before: seq<Grant>, found: seq<Grant>, grants: seq<Grant>, action: Action) returns (out: seq<Grant>)
    requires found == Allowing(before, action)
    ensures out == Allowing(before + grants, action)
  {
    var p := (g: Grant) => action in g.actions;
    var more: seq<Grant> := [];
    for i := 0 to |grants|
      invariant more == Picked(p, grants, i)
    {
      if action in grants[i].actions {
        more := more + [grants[i]];
      }
    }
    PickedAll(p, grants);
    FilterConcat(p, before, grants);
    out := found + more;
  }

  method UnionOf(visible: seq<Attribute>, requested: seq<string>, grants: seq<Grant>) returns (out: seq<string>)
    ensures out == UnionProjection(visible, requested, grants)
  {
    var seen := AllProjected(visible, requested, grants);
    out := [];
    var all := ProjectFields(visible, requested);
    var p := (f: string) => AnyProjects(visible, requested, grants, f);
    for i := 0 to |all|
      invariant out == Picked(p, all, i)
    {
      if all[i] in seen {
        out := out + [all[i]];
      }
    }
    PickedAll(p, all);
  }

  function Elements(fields: seq<string>): set<string> {
    set f | f in fields
  }

  /** The union of the first n sets. */
  function Union(sets: seq<set<string>>, n: nat): set<string>
    requires n <= |sets|
  {
    if n == 0 then {} else Union(sets, n - 1) + sets[n-1]
  }

  lemma {:induction false} UnionAny(sets: seq<set<string>>, n: nat, f: string)
    requires n <= |sets|
    ensures f in Union(sets, n) <==> exists j :: 0 <= j < n && f in sets[j]
  {
    if n > 0 {
      UnionAny(sets, n - 1, f);
    }
  }

  function Projections(visible: seq<Attribute>, requested: seq<string>, grants: seq<Grant>): (sets: seq<set<string>>)
    ensures |sets| == |grants| && forall i :: 0 <= i < |grants| ==>
            sets[i] == Elements(GrantProjection(visible, requested, grants[i]))
  {
    seq(|grants|, i requires 0 <= i < |grants| => Elements(GrantProjection(visible, requested, grants[i])))
  }

  lemma AnyProjection(
    visible: seq<Attribute>, requested: seq<string>, grants: seq<Grant>, sets: seq<set<string>>, f: string)
    requires sets == Projections(visible, requested, grants)
    ensures AnyProjects(visible, requested, grants, f) <==> exists j :: 0 <= j < |sets| && f in sets[j]
  {
    if AnyProjects(visible, requested, grants, f) {
      var i :| 0 <= i < |grants| && f in GrantProjection(visible, requested, grants[i]);
      assert f in sets[i];
    }
    if j :| 0 <= j < |sets| && f in sets[j] {
      assert f in GrantProjection(visible, requested, grants[j]);
    }
  }

  lemma UnionProjected(
    visible: seq<Attribute>, requested: seq<string>, grants: seq<Grant>, sets: seq<set<string>>, seen: set<string>)
    requires sets == Projections(visible, requested, grants) && seen == Union(sets, |sets|)
    ensures forall f :: f in seen <==> AnyProjects(visible, requested, grants, f)
  {
    forall f ensures f in seen <==> AnyProjects(visible, requested, grants, f) {
      UnionAny(sets, |sets|, f);
      AnyProjection(visible, requested, grants, sets, f);
    }
  }

  method AllProjected(visible: seq<Attribute>, requested: seq<string>, grants: seq<Grant>) returns (seen: set<string>)
    ensures forall f :: f in seen <==> AnyProjects(visible, requested, grants, f)
  {
    var sets := Projections(visible, requested, grants);
    seen := {};
    for i := 0 to |sets|
      invariant seen == Union(sets, i)
    {
      seen := seen + sets[i];
    }
    UnionProjected(visible, requested, grants, sets, seen);
  }

  method EffectiveRowFilter(covering: seq<Grant>, tenant: Predicate) returns (filter: Predicate, ids: seq<string>)
    ensures filter == RowFilter(covering, tenant) && ids == Ids(covering)
  {
    var rows, unrestricted := [], false;
    ids := [];
    for i := 0 to |covering|
      invariant rows == RowsOf(covering[..i]) && ids == Ids(covering[..i]) &&
                (unrestricted <==> Unrestricted(covering[..i]))
    {
      assert covering[..i + 1][..i] == covering[..i];
      assert covering[..i + 1][i] == covering[i];
      ids := ids + [covering[i].id];
      if covering[i].rows.Nil? {
        unrestricted := true;
        continue;
      }
      rows := rows + [covering[i].rows];
    }
    assert covering[..|covering|] == covering;
    filter := Nil;
    if !unrestricted {
      filter := AnyOf(rows);
    }
    if !tenant.Nil? {
      filter := Both(tenant, filter);
    }
  }
}
