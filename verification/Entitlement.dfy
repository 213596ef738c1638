/** What a policy entitles a caller to, said of its grants and not of how they are
    searched; and that authorization gives exactly that. */
module Entitlement {
  import opened Lists
  import opened Relalg
  import opened Rbac

  // --- the policy ---

  predicate NameOf(a: Attribute, n: string) {
    n == a.name || (n != "" && n == a.alias)
  }

  /** A list of names lets f: by itself, or by another name of its attribute. */
  predicate Lets(names: set<string>, visible: seq<Attribute>, f: string) {
    f in names || exists i, n :: 0 <= i < |visible| && n in names && NameOf(visible[i], f) && NameOf(visible[i], n)
  }

  predicate MayRead(g: Grant, visible: seq<Attribute>, f: string) {
    g.fields.Some? ==> Lets(g.fields.value.read, visible, f)
  }

  predicate MayWrite(g: Grant, visible: seq<Attribute>, f: string) {
    g.fields.Some? ==> Lets(g.fields.value.write, visible, f)
  }

  predicate RoleGives(p: Policy, entity: string, role: string, g: Grant) {
    || (role in p.roles && entity in p.roles[role] && g in p.roles[role][entity])
    || (entity in p.entityGrants && role in p.entityGrants[entity] && g == p.entityGrants[entity][role])
  }

  /** g is the principal's: its own, or of a role of its; a name not configured is
      a role, and no name holds nothing. */
  predicate Gives(p: Policy, entity: string, principal: string, g: Grant) {
    && principal != ""
    && if principal !in p.principals then RoleGives(p, entity, principal, g)
       else
         || (entity in p.principals[principal].grants && g in p.principals[principal].grants[entity])
         || exists i :: 0 <= i < |p.principals[principal].roles| &&
                        RoleGives(p, entity, p.principals[principal].roles[i], g)
  }

  // --- the request ---

  predicate NoneNamed(req: Request) {
    req.readFields == [] && req.writeFields == []
  }

  /** Fields named as neither are what a create or an update writes, and what any
      other action reads. */
  predicate ReadsField(req: Request, f: string) {
    f in req.readFields || (NoneNamed(req) && req.action !in {ActionCreate, ActionUpdate} && f in req.fields)
  }

  predicate WritesField(req: Request, f: string) {
    f in req.writeFields || (NoneNamed(req) && req.action in {ActionCreate, ActionUpdate} && f in req.fields)
  }

  /** f is asked for, or is an attribute when nothing is, and there is such a
      field. */
  predicate Asked(res: Resolved, req: Request, f: string) {
    if req.fields == [] then exists i :: 0 <= i < |res.visible| && f == res.visible[i].name
    else f in req.fields && exists i :: 0 <= i < |res.visible| && NameOf(res.visible[i], f)
  }

  /** The fields asked for or, when none is, all there are, as listed. */
  function Listed(res: Resolved, req: Request): seq<string> {
    if req.fields == [] then seq(|res.visible|, i requires 0 <= i < |res.visible| => res.visible[i].name)
    else req.fields
  }

  // --- what the caller is entitled to ---

  /** g is the caller's, allows the action, and covers every field it uses. */
  ghost predicate CoversUse(p: Policy, res: Resolved, req: Request, g: Grant) {
    && Gives(p, res.name, req.role, g) && req.action in g.actions
    && (forall f :: ReadsField(req, f) ==> MayRead(g, res.visible, f))
    && (forall f :: WritesField(req, f) ==> MayWrite(g, res.visible, f))
  }

  /** f is asked for, and a grant that covers the request's fields reads it. */
  ghost predicate Shown(p: Policy, res: Resolved, req: Request, f: string) {
    Asked(res, req, f) && exists g :: CoversUse(p, res, req, g) && MayRead(g, res.visible, f)
  }

  /** And, of a read, g alone reads every field shown. */
  ghost predicate Entitles(p: Policy, res: Resolved, req: Request, g: Grant) {
    && CoversUse(p, res, req, g)
    && (req.action == ActionRead ==> forall f :: Shown(p, res, req, f) ==> MayRead(g, res.visible, f))
  }

  /** Every field the request uses, and every attribute, has a name. */
  ghost predicate WellNamed(res: Resolved, req: Request) {
    && (forall f :: ReadsField(req, f) || WritesField(req, f) ==> f != "")
    && (forall i :: 0 <= i < |res.visible| ==> res.visible[i].name != "")
  }

  // --- the code's words for it ---

  lemma LetsField(names: set<string>, visible: seq<Attribute>, f: string)
    ensures FieldAllowed(f, names, visible) <==> Lets(names, visible, f)
  {
    if i :| 0 <= i < |visible| && Named(visible[i], f) && Includes(names, visible[i]) {
      var n := if visible[i].name in names then visible[i].name else visible[i].alias;
      assert n in names && NameOf(visible[i], f) && NameOf(visible[i], n);
    }
    if i, n :| 0 <= i < |visible| && n in names && NameOf(visible[i], f) && NameOf(visible[i], n) {
      assert Named(visible[i], f) && Includes(names, visible[i]);
    }
  }

  lemma GrantReads(g: Grant, visible: seq<Attribute>, f: string)
    ensures Reads(g, f, visible) <==> MayRead(g, visible, f)
    ensures Writes(g, f, visible) <==> MayWrite(g, visible, f)
  {
    if g.fields.Some? {
      LetsField(g.fields.value.read, visible, f);
      LetsField(g.fields.value.write, visible, f);
    }
  }

  lemma RoleHas(p: Policy, entity: string, role: string, g: Grant)
    ensures g in RoleGrants(p, entity, role) <==> RoleGives(p, entity, role, g)
  {
  }

  lemma {:induction false} RolesHave(p: Policy, entity: string, roles: seq<string>, g: Grant)
    ensures g in RolesGrants(p, entity, roles) <==> exists i :: 0 <= i < |roles| && RoleGives(p, entity, roles[i], g)
  {
    hide RoleGives, RoleGrants;
    if roles != [] {
      var n := |roles| - 1;
      RolesHave(p, entity, roles[..n], g);
      RoleHas(p, entity, roles[n], g);
      assert forall i :: 0 <= i < n ==> roles[i] == roles[..n][i];
    }
  }

  lemma CandidatesHave(p: Policy, entity: string, principal: string, action: Action, g: Grant)
    ensures g in Candidates(p, entity, principal, action) <==> Gives(p, entity, principal, g) && action in g.actions
  {
    hide RoleGives, RolesGrants;
    if principal in p.principals {
      RolesHave(p, entity, p.principals[principal].roles, g);
    } else {
      RolesHave(p, entity, [principal], g);
      assert (exists i :: 0 <= i < |[principal]| && RoleGives(p, entity, [principal][i], g)) <==>
             RoleGives(p, entity, principal, g) by {
        assert [principal][0] == principal;
      }
    }
  }

  lemma UsesFields(req: Request, f: string)
    ensures f in ReadOf(req) <==> ReadsField(req, f)
    ensures f in WriteOf(req) <==> WritesField(req, f)
  {
  }

  lemma PassesUse(p: Policy, res: Resolved, req: Request, g: Grant)
    requires WellNamed(res, req)
    ensures g in Covering(Candidates(p, res.name, req.role, req.action), ReadOf(req), WriteOf(req), res.visible) <==>
            CoversUse(p, res, req, g)
  {
    hide Gives, Candidates, ReadOf, WriteOf, MayRead, MayWrite, ReadsField, WritesField, Reads, Writes, Passes;
    CandidatesHave(p, res.name, req.role, req.action, g);
    PassesCovers(g, ReadOf(req), WriteOf(req), res.visible);
    forall f
      ensures f in ReadOf(req) <==> ReadsField(req, f)
      ensures f in WriteOf(req) <==> WritesField(req, f)
      ensures Reads(g, f, res.visible) <==> MayRead(g, res.visible, f)
      ensures Writes(g, f, res.visible) <==> MayWrite(g, res.visible, f)
    {
      UsesFields(req, f);
      GrantReads(g, res.visible, f);
    }
  }

  lemma ProjectsAsked(res: Resolved, req: Request, f: string)
    ensures f in ProjectFields(res.visible, req.fields) <==> Asked(res, req, f)
  {
    if req.fields == [] {
      if i :| 0 <= i < |res.visible| && f == res.visible[i].name {
        assert Names(res.visible)[i] == f;
      }
    } else {
      assert Visible(res.visible, f) <==> exists i :: 0 <= i < |res.visible| && NameOf(res.visible[i], f) by {
        assert forall a: Attribute :: Named(a, f) <==> NameOf(a, f);
      }
    }
  }

  lemma ProjectedShown(p: Policy, res: Resolved, req: Request, f: string)
    requires WellNamed(res, req)
    ensures var covering :=
              Covering(Candidates(p, res.name, req.role, req.action), ReadOf(req), WriteOf(req), res.visible);
            f in UnionProjection(res.visible, req.fields, covering) <==> Shown(p, res, req, f)
  {
    hide Covering, Candidates, ReadOf, WriteOf, ProjectFields, Reads, MayRead, Asked, CoversUse, WellNamed;
    var covering := Covering(Candidates(p, res.name, req.role, req.action), ReadOf(req), WriteOf(req), res.visible);
    ProjectsAsked(res, req, f);
    forall g
      ensures g in covering <==> CoversUse(p, res, req, g)
      ensures Reads(g, f, res.visible) <==> MayRead(g, res.visible, f)
    {
      PassesUse(p, res, req, g);
      GrantReads(g, res.visible, f);
    }
    if g :| CoversUse(p, res, req, g) && MayRead(g, res.visible, f) {
      var i :| 0 <= i < |covering| && covering[i] == g;
      assert Asked(res, req, f) ==> f in GrantProjection(res.visible, req.fields, covering[i]);
    }
    if i :| 0 <= i < |covering| && f in GrantProjection(res.visible, req.fields, covering[i]) {
      assert covering[i] in covering;
    }
  }

  /** Of a read, the grants that cover all it shows are those that entitle. */
  lemma ServingEntitle(p: Policy, res: Resolved, req: Request, g: Grant)
    requires WellNamed(res, req) && req.action == ActionRead
    ensures var covering :=
              Covering(Candidates(p, res.name, req.role, req.action), ReadOf(req), WriteOf(req), res.visible);
            g in Covering(covering, UnionProjection(res.visible, req.fields, covering), [], res.visible) <==>
            Entitles(p, res, req, g)
  {
    hide Candidates, UnionProjection, ReadOf, WriteOf, Reads, MayRead, CoversUse, Shown, Passes;
    var covering := Covering(Candidates(p, res.name, req.role, req.action), ReadOf(req), WriteOf(req), res.visible);
    var projected := UnionProjection(res.visible, req.fields, covering);
    PassesUse(p, res, req, g);
    ProjectedNamed(res.visible, req.fields, covering);
    PassesCovers(g, projected, [], res.visible);
    forall f
      ensures f in projected <==> Shown(p, res, req, f)
      ensures Reads(g, f, res.visible) <==> MayRead(g, res.visible, f)
    {
      ProjectedShown(p, res, req, f);
      GrantReads(g, res.visible, f);
    }
  }

  /** Of a request not denied, the grants that serve are those that entitle. */
  lemma PartsEntitle(p: Policy, res: Resolved, req: Request, g: Grant)
    requires WellNamed(res, req) && Parts(p, res, req).2.None?
    ensures g in Parts(p, res, req).1 <==> Entitles(p, res, req, g)
  {
    hide Candidates, UnionProjection, ReadOf, WriteOf, CoversUse, Shown, Covering;
    PassesUse(p, res, req, g);
    if req.action == ActionRead {
      ServingEntitle(p, res, req, g);
    }
  }

  lemma ProjectionShown(p: Policy, res: Resolved, req: Request, covering: seq<Grant>)
    requires WellNamed(res, req)
    requires covering ==
             Covering(Candidates(p, res.name, req.role, req.action), ReadOf(req), WriteOf(req), res.visible)
    ensures UnionProjection(res.visible, req.fields, covering) ==
            Filter((f: string) => Shown(p, res, req, f), Listed(res, req))
  {
    hide Candidates, ReadOf, WriteOf, Covering, WellNamed, AnyProjects, Visible, Asked, CoversUse;
    var any, shown := (f: string) => AnyProjects(res.visible, req.fields, covering, f),
                      (f: string) => Shown(p, res, req, f);
    var projected := ProjectFields(res.visible, req.fields);
    forall f
      ensures f in projected <==> Asked(res, req, f)
      ensures f in UnionProjection(res.visible, req.fields, covering) <==> Shown(p, res, req, f)
    {
      ProjectsAsked(res, req, f);
      ProjectedShown(p, res, req, f);
    }
    assert req.fields == [] ==> Listed(res, req) == Names(res.visible);
    FilterCong(any, shown, projected);
    if req.fields != [] {
      FilterTwice((f: string) => Visible(res.visible, f), shown, shown, req.fields);
    }
  }

  // --- what authorization gives ---

  /** Past the grants that cover it, a request is refused only as a read that
      shows nothing or that no one grant covers. */
  lemma PartsRefused(p: Policy, res: Resolved, req: Request)
    requires WellNamed(res, req) && exists g :: CoversUse(p, res, req, g)
    ensures Parts(p, res, req).2.None? <==>
            (req.action == ActionRead ==>
               (exists f :: Shown(p, res, req, f)) && exists g :: Entitles(p, res, req, g))
  {
    hide Candidates, UnionProjection, ReadOf, WriteOf, Reads, MayRead, CoversUse, Shown, Passes;
    var covering := Covering(Candidates(p, res.name, req.role, req.action), ReadOf(req), WriteOf(req), res.visible);
    var projected := UnionProjection(res.visible, req.fields, covering);
    forall f ensures f in projected <==> Shown(p, res, req, f) {
      ProjectedShown(p, res, req, f);
    }
    if projected != [] {
      assert projected[0] in projected;
    }
    var serving := Covering(covering, projected, [], res.visible);
    if req.action == ActionRead {
      forall g ensures g in serving <==> Entitles(p, res, req, g) {
        ServingEntitle(p, res, req, g);
      }
      if serving != [] {
        assert serving[0] in serving;
      }
    }
  }

  lemma MoreProject(visible: seq<Attribute>, requested: seq<string>, some: seq<Grant>, all: seq<Grant>, f: string)
    requires forall g :: g in some ==> g in all
    ensures f in UnionProjection(visible, requested, some) ==> f in UnionProjection(visible, requested, all)
  {
    hide GrantProjection, ProjectFields;
    if i :| 0 <= i < |some| && f in GrantProjection(visible, requested, some[i]) {
      assert some[i] in all;
    }
  }

  lemma NothingShown(p: Policy, res: Resolved, req: Request)
    requires WellNamed(res, req) && req.fields == []
    requires UnionProjection(res.visible, [], Candidates(p, res.name, req.role, req.action)) == []
    ensures forall f :: !Shown(p, res, req, f)
  {
    hide Candidates, ReadOf, WriteOf, Reads, ProjectFields, Passes, Shown, CoversUse, WellNamed;
    var candidates := Candidates(p, res.name, req.role, req.action);
    var covering := Covering(candidates, ReadOf(req), WriteOf(req), res.visible);
    forall f ensures !Shown(p, res, req, f) {
      ProjectedShown(p, res, req, f);
      MoreProject(res.visible, [], covering, candidates, f);
    }
  }

  /** A request is allowed exactly when one grant of the caller's entitles it to
      the whole of it and, if a read, it is shown some field. */
  lemma AllowedExactly(p: Policy, registry: map<string, Resolved>, req: Request)
    requires req.entity in registry ==> WellNamed(registry[req.entity], req)
    ensures Authorize(p, registry, req).Allowed? <==>
            && req.entity in registry
            && (exists g :: Entitles(p, registry[req.entity], req, g))
            && (req.action == ActionRead ==> exists f :: Shown(p, registry[req.entity], req, f))
  {
    hide Candidates, UnionProjection, ReadOf, WriteOf, Reads, MayRead, CoversUse, Shown, Rbac.Project;
    if req.entity in registry {
      var res := registry[req.entity];
      var candidates := Candidates(p, res.name, req.role, req.action);
      var covering := Covering(candidates, ReadOf(req), WriteOf(req), res.visible);
      forall g ensures g in covering <==> CoversUse(p, res, req, g) {
        PassesUse(p, res, req, g);
      }
      assert covering != [] ==> covering[0] in covering;
      if g :| CoversUse(p, res, req, g) {
        assert g in covering && g in candidates;
        PartsRefused(p, res, req);
        assert req.action != ActionRead ==> Entitles(p, res, req, g);
        if req.fields == [] && UnionProjection(res.visible, [], candidates) == [] {
          NothingShown(p, res, req);
        }
      }
    }
  }

  lemma GrantedBy(p: Policy, res: Resolved, req: Request, db: Db, env: Env, grants: seq<Grant>)
    requires forall g :: g in grants <==> Entitles(p, res, req, g)
    ensures Granted(db, env, req.subject, grants) <==>
            exists g :: Entitles(p, res, req, g) && MeaningFor(db, env, req.subject, g.rows) == True
  {
    hide Entitles, MeaningFor;
    if i :| 0 <= i < |grants| && Holds(db, env, req.subject, grants[i].rows) {
      assert grants[i] in grants;
    }
  }

  /** The rows an allowed request sees are exactly those the tenant policy and
      the rows of one grant that entitles it hold of, for this caller. */
  lemma SeesExactly(p: Policy, registry: map<string, Resolved>, req: Request, db: Db, env: Env)
    requires Authorize(p, registry, req).Allowed? && WellNamed(registry[req.entity], req)
    ensures var res := registry[req.entity];
            Meaning(db, env, Authorize(p, registry, req).rowFilter) == True <==>
            && MeaningFor(db, env, req.subject, res.tenant) == True
            && exists g :: Entitles(p, res, req, g) && MeaningFor(db, env, req.subject, g.rows) == True
  {
    hide Parts, RowFilter, Resolve, Meaning, MeaningFor, WellNamed, Entitles;
    var res, subject := registry[req.entity], req.subject;
    AllowedParts(p, registry, req);
    var grants := Parts(p, res, req).1;
    ResolveMeans(db, env, subject, RowFilter(grants, res.tenant));
    RowFilterHolds(db, env, subject, grants, res.tenant);
    forall g ensures g in grants <==> Entitles(p, res, req, g) {
      PartsEntitle(p, res, req, g);
    }
    GrantedBy(p, res, req, db, env, grants);
  }

  /** The fields returned are those shown, in the order asked or listed; a write
      returns none. */
  lemma FieldsExactly(p: Policy, registry: map<string, Resolved>, req: Request)
    requires Authorize(p, registry, req).Allowed? && WellNamed(registry[req.entity], req)
    ensures var res := registry[req.entity];
            Authorize(p, registry, req).fields ==
            if req.action in {ActionCreate, ActionUpdate, ActionDelete} then []
            else Filter((f: string) => Shown(p, res, req, f), Listed(res, req))
  {
    hide Resolve, RowFilter, Candidates, ReadOf, WriteOf, Covering, Shown, WellNamed;
    var res := registry[req.entity];
    AllowedParts(p, registry, req);
    if req.action !in {ActionCreate, ActionUpdate, ActionDelete} {
      var covering := Covering(Candidates(p, res.name, req.role, req.action), ReadOf(req), WriteOf(req), res.visible);
      ProjectionShown(p, res, req, covering);
    }
  }
}
