/** Authorization by grants: only grants that cover every field a request uses
    serve it, so each row and column returned is covered by one single grant. */
module Rbac {
  import opened Lists
  import opened Relalg

  datatype Action = ActionRead | ActionCreate | ActionUpdate | ActionDelete | ActionExecute | ActionAggregate

  datatype Option<T> = None | Some(value: T)

  datatype Attribute = Attribute(name: string, alias: string)

  datatype FieldPermissions = FieldPermissions(read: set<string>, write: set<string>)

  /** No fields: every visible one; no rows: every row. */
  datatype Grant = Grant(id: string, actions: seq<Action>, fields: Option<FieldPermissions>, rows: Predicate)

  datatype Principal = Principal(roles: seq<string>, grants: map<string, seq<Grant>>)

  /** entityGrants are the grants of entity-level roles, by entity and role. */
  datatype Policy = Policy(
    roles: map<string, map<string, seq<Grant>>>,
    principals: map<string, Principal>,
    entityGrants: map<string, map<string, Grant>>)

  datatype Resolved = Resolved(name: string, visible: seq<Attribute>, tenant: Predicate)

  /** A caller's attributes: a value or a list of them. */
  type Subject = map<string, Operand>

  datatype Request = Request(
    role: string, entity: string, action: Action, fields: seq<string>, readFields: seq<string>,
        writeFields: seq<string>,
    subject: Subject)

  /** A denial offers the field sets a retry may read. */
  datatype Decision = Denied(scopes: seq<seq<string>>) | Allowed(fields: seq<string>, rowFilter: Predicate,
      grants: seq<string>)

  // --- fields ---

  predicate Named(a: Attribute, field: string) {
    a.name == field || (a.alias != "" && a.alias == field)
  }

  predicate Visible(visible: seq<Attribute>, field: string) {
    exists i :: 0 <= i < |visible| && Named(visible[i], field)
  }

  predicate Includes(allowed: set<string>, a: Attribute) {
    a.name in allowed || (a.alias != "" && a.alias in allowed)
  }

  /** A field is allowed by its name or its alias. */
  predicate FieldAllowed(field: string, allowed: set<string>, visible: seq<Attribute>) {
    field in allowed || exists i :: 0 <= i < |visible| && Named(visible[i], field) && Includes(allowed, visible[i])
  }

  predicate AllAllowed(fields: seq<string>, allowed: set<string>, visible: seq<Attribute>) {
    forall i :: 0 <= i < |fields| ==> FieldAllowed(fields[i], allowed, visible)
  }

  /** The first field not allowed, "" for none. */
  function FirstDenied(fields: seq<string>, allowed: set<string>, visible: seq<Attribute>): string {
    if fields == [] then ""
    else if !FieldAllowed(fields[0], allowed, visible) then fields[0]
    else FirstDenied(fields[1..], allowed, visible)
  }

  lemma {:induction false} FirstDeniedOf(fields: seq<string>, allowed: set<string>, visible: seq<Attribute>)
    ensures AllAllowed(fields, allowed, visible) ==> FirstDenied(fields, allowed, visible) == ""
    ensures "" !in fields && FirstDenied(fields, allowed, visible) == "" ==> AllAllowed(fields, allowed, visible)
  {
    if fields != [] {
      FirstDeniedOf(fields[1..], allowed, visible);
      assert AllAllowed(fields, allowed, visible) <==>
             FieldAllowed(fields[0], allowed, visible) && AllAllowed(fields[1..], allowed, visible) by {
        assert forall i :: 0 < i < |fields| ==> fields[i] == fields[1..][i - 1];
      }
    }
  }

  lemma {:induction false} DeniedEmpty(fields: seq<string>, k: nat)
    requires k < |fields| && fields[k] == "" && "" !in fields[..k]
    ensures FirstDenied(fields, set f | f in fields[..k], []) == ""
  {
    var allowed := set f | f in fields[..k];
    DeniedEmptyFrom(fields, k, 0, allowed);
    assert fields[0..] == fields;
  }

  lemma {:induction false} DeniedEmptyFrom(fields: seq<string>, k: nat, i: nat, allowed: set<string>)
    requires i <= k < |fields| && fields[k] == "" && "" !in allowed && forall j :: 0 <= j < k ==> fields[j] in allowed
    ensures FirstDenied(fields[i..], allowed, []) == ""
    decreases k - i
  {
    if i < k {
      assert fields[i..][1..] == fields[i + 1..];
      DeniedEmptyFrom(fields, k, i + 1, allowed);
    }
  }

  /** Whatever the lists, none denied means all allowed. */
  ghost predicate Exact(fields: seq<string>) {
    forall allowed, visible :: FirstDenied(fields, allowed, visible) == "" ==> AllAllowed(fields, allowed, visible)
  }

  /** The empty answer stands for none denied, so a field without a name is
      never reported, nor any after it. */
  lemma ExactWhenNamed(fields: seq<string>)
    ensures Exact(fields) <==> "" !in fields
  {
    if "" !in fields {
      forall allowed, visible | FirstDenied(fields, allowed, visible) == ""
        ensures AllAllowed(fields, allowed, visible)
      {
        FirstDeniedOf(fields, allowed, visible);
      }
    } else {
      var k := FirstAt(fields, "");
      DeniedEmpty(fields, k);
      var allowed, none: seq<Attribute> := set f | f in fields[..k], [];
      assert !FieldAllowed(fields[k], allowed, none);
      assert FirstDenied(fields, allowed, none) == "" && !AllAllowed(fields, allowed, none);
    }
  }

  lemma {:induction false} FirstAt(fields: seq<string>, f: string) returns (k: nat)
    requires f in fields
    ensures k < |fields| && fields[k] == f && f !in fields[..k]
  {
    if fields[0] == f {
      k := 0;
    } else {
      k := FirstAt(fields[1..], f);
      k := k + 1;
      assert fields[..k] == [fields[0]] + fields[1..][..k-1];
    }
  }

  // --- grants ---

  predicate Reads(g: Grant, field: string, visible: seq<Attribute>) {
    g.fields.None? || FieldAllowed(field, g.fields.value.read, visible)
  }

  predicate Writes(g: Grant, field: string, visible: seq<Attribute>) {
    g.fields.None? || FieldAllowed(field, g.fields.value.write, visible)
  }

  predicate Passes(g: Grant, read: seq<string>, write: seq<string>, visible: seq<Attribute>) {
    g.fields.None? ||
    (FirstDenied(read, g.fields.value.read, visible) == "" && FirstDenied(write, g.fields.value.write, visible) == "")
  }

  /** g covers every field read and written. */
  ghost predicate Covers(g: Grant, read: seq<string>, write: seq<string>, visible: seq<Attribute>) {
    (forall f :: f in read ==> Reads(g, f, visible)) && forall f :: f in write ==> Writes(g, f, visible)
  }

  lemma PassesCovers(g: Grant, read: seq<string>, write: seq<string>, visible: seq<Attribute>)
    ensures Covers(g, read, write, visible) ==> Passes(g, read, write, visible)
    ensures "" !in read && "" !in write && Passes(g, read, write, visible) ==> Covers(g, read, write, visible)
  {
    if g.fields.Some? {
      FirstDeniedOf(read, g.fields.value.read, visible);
      FirstDeniedOf(write, g.fields.value.write, visible);
      assert forall i :: 0 <= i < |read| ==> read[i] in read;
      assert forall i :: 0 <= i < |write| ==> write[i] in write;
    }
  }

  function Covering(grants: seq<Grant>, read: seq<string>, write: seq<string>, visible: seq<Attribute>): seq<Grant> {
    Filter((g: Grant) => Passes(g, read, write, visible), grants)
  }

  function Names(visible: seq<Attribute>): seq<string> {
    seq(|visible|, i requires 0 <= i < |visible| => visible[i].name)
  }

  function ProjectFields(visible: seq<Attribute>, requested: seq<string>): seq<string> {
    if requested == [] then Names(visible) else Filter((f: string) => Visible(visible, f), requested)
  }

  function GrantProjection(visible: seq<Attribute>, requested: seq<string>, g: Grant): seq<string> {
    Filter((f: string) => Reads(g, f, visible), ProjectFields(visible, requested))
  }

  predicate AnyProjects(visible: seq<Attribute>, requested: seq<string>, grants: seq<Grant>, f: string) {
    exists i :: 0 <= i < |grants| && f in GrantProjection(visible, requested, grants[i])
  }

  function UnionProjection(visible: seq<Attribute>, requested: seq<string>, grants: seq<Grant>): seq<string> {
    Filter((f: string) => AnyProjects(visible, requested, grants, f), ProjectFields(visible, requested))
  }

  // --- candidates ---

  function Allowing(grants: seq<Grant>, action: Action): seq<Grant> {
    Filter((g: Grant) => action in g.actions, grants)
  }

  function Under<V>(m: map<string, seq<V>>, name: string): seq<V> {
    if name in m then m[name] else []
  }

  /** A role's top-level grants on an entity, then its entity-level one. */
  function RoleGrants(p: Policy, entity: string, role: string): seq<Grant> {
    (if role in p.roles then Under(p.roles[role], entity) else []) +
    (if entity in p.entityGrants && role in p.entityGrants[entity] then [p.entityGrants[entity][role]] else [])
  }

  function RolesGrants(p: Policy, entity: string, roles: seq<string>): seq<Grant> {
    if roles == [] then [] else RolesGrants(p, entity, roles[..|roles|-1]) + RoleGrants(p, entity, roles[|roles|-1])
  }

  /** A principal not configured is a role. */
  function Held(p: Policy, entity: string, principal: string): seq<Grant> {
    if principal in p.principals then
      Under(p.principals[principal].grants, entity) + RolesGrants(p, entity, p.principals[principal].roles)
    else RolesGrants(p, entity, [principal])
  }

  function Candidates(p: Policy, entity: string, principal: string, action: Action): seq<Grant> {
    if principal == "" then [] else Allowing(Held(p, entity, principal), action)
  }

  // --- subjects ---

  const PREFIX := "${subject."
  const SUFFIX := "}"

  /** The attribute a placeholder names. */
  function SubjectPlaceholder(s: string): Option<string> {
    if |PREFIX| <= |s| && s[..|PREFIX|] == PREFIX && |s| > 0 && s[|s|-1..] == SUFFIX && |PREFIX| + |SUFFIX| <= |s| then
      Some(s[|PREFIX|..|s| - |SUFFIX|])
    else None
  }

  /** A subject's attribute, NULL when it has none. */
  function AttributeOf(subject: Subject, attribute: string): Operand {
    if attribute in subject then subject[attribute] else Scalar(Null)
  }

  function Placeholder(v: Value): Option<string> {
    if v.Text? then SubjectPlaceholder(v.s) else None
  }

  /** A list attribute contributes its items. */
  function Items(subject: Subject, v: Value): seq<Value> {
    match Placeholder(v)
    case None => [v]
    case Some(a) => (match AttributeOf(subject, a) case Scalar(w) => [w] case List(ws) => ws)
  }

  function ResolveList(subject: Subject, vs: seq<Value>): seq<Value> {
    if vs == [] then [] else Items(subject, vs[0]) + ResolveList(subject, vs[1..])
  }

  function ResolveOperand(subject: Subject, operand: Operand): Operand {
    match operand
    case Scalar(v) => (match Placeholder(v) case None => operand case Some(a) => AttributeOf(subject, a))
    case List(vs) => List(ResolveList(subject, vs))
  }

  function Resolve(p: Predicate, subject: Subject): Predicate {
    match p
    case Condition(f, op, operand) => Condition(f, op, ResolveOperand(subject, operand))
    case And(ps) => And(ResolveAll(ps, subject))
    case Or(ps) => Or(ResolveAll(ps, subject))
    case Not(q) => Not(Resolve(q, subject))
    case _ => p
  }

  function ResolveAll(ps: seq<Predicate>, subject: Subject): (qs: seq<Predicate>)
    ensures |qs| == |ps| && forall i :: 0 <= i < |ps| ==> qs[i] == Resolve(ps[i], subject)
  {
    if ps == [] then [] else [Resolve(ps[0], subject)] + ResolveAll(ps[1..], subject)
  }

  // --- what a policy says of a caller ---

  /** v is the placeholder of an attribute. */
  predicate PlaceholderOf(v: Value, attribute: string) {
    v == Text("${subject." + attribute + "}")
  }

  predicate HeldUnder(subject: Subject, attribute: string, w: Value) {
    if attribute !in subject then w == Null
    else match subject[attribute] case Scalar(x) => w == x case List(xs) => w in xs
  }

  /** In a list v stands for w: itself, or what the attribute it names holds, each
      item of a list, NULL when the caller has none. */
  ghost predicate StandsFor(subject: Subject, v: Value, w: Value) {
    if exists a :: PlaceholderOf(v, a) then exists a :: PlaceholderOf(v, a) && HeldUnder(subject, a, w) else w == v
  }

  /** w is one of the values a list stands for. */
  ghost predicate StandsIn(subject: Subject, vs: seq<Value>, w: Value) {
    exists i :: 0 <= i < |vs| && StandsFor(subject, vs[i], w)
  }

  /** Whether x is one of the values of a list, unknown where it may be. */
  ghost function OneOf(db: Db, x: Value, subject: Subject, vs: seq<Value>): Truth {
    if exists w :: StandsIn(subject, vs, w) && Compare(db, Eq, x, w) == True then True
    else if exists w :: StandsIn(subject, vs, w) && Compare(db, Eq, x, w) == Unknown then Unknown
    else False
  }

  /** What a single operand stands for: itself, or the attribute it names. */
  ghost function OperandFor(subject: Subject, v: Value): Operand {
    if exists a :: PlaceholderOf(v, a) then
      var a :| PlaceholderOf(v, a);
      if a in subject then subject[a] else Scalar(Null)
    else Scalar(v)
  }

  ghost function ConditionFor(db: Db, x: Value, op: Op, subject: Subject, operand: Operand): Truth {
    match operand
    case Scalar(v) => ConditionTruth(db, x, op, OperandFor(subject, v))
    case List(vs) =>
      if op.In? then OneOf(db, x, subject, vs)
      else if op.NotIn? then Not3(OneOf(db, x, subject, vs))
      else ConditionTruth(db, x, op, operand)
  }

  /** What a policy says of a row to the caller: its placeholders stand for the
      caller's attributes, and an EXISTS has none. */
  ghost function MeaningFor(db: Db, env: Env, subject: Subject, p: Predicate): Truth
    decreases p, 1
  {
    match p
    case Nil => True
    case Condition(f, op, operand) => ConditionFor(db, Lookup(env, f), op, subject, operand)
    case And(ps) => AndAll(MeaningsFor(db, env, subject, ps))
    case Or(ps) => OrAll(MeaningsFor(db, env, subject, ps))
    case Not(q) => Not3(MeaningFor(db, env, subject, q))
    case Exists(_, _, _) => Meaning(db, env, p)
  }

  ghost function MeaningsFor(db: Db, env: Env, subject: Subject, ps: seq<Predicate>): (ts: seq<Truth>)
    ensures |ts| == |ps| && forall i :: 0 <= i < |ps| ==> ts[i] == MeaningFor(db, env, subject, ps[i])
    decreases ps, 0
  {
    if ps == [] then [] else [MeaningFor(db, env, subject, ps[0])] + MeaningsFor(db, env, subject, ps[1..])
  }

  lemma PlaceholderNames(v: Value, attribute: string)
    ensures Placeholder(v) == Some(attribute) <==> PlaceholderOf(v, attribute)
  {
    if PlaceholderOf(v, attribute) {
      var s := v.s;
      assert s[..|PREFIX|] == PREFIX && s[|s|-1..] == SUFFIX && s[|PREFIX|..|s| - 1] == attribute;
    }
    if Placeholder(v) == Some(attribute) {
      var s := v.s;
      assert s == s[..|PREFIX|] + s[|PREFIX|..|s| - 1] + s[|s| - 1..];
    }
  }

  lemma NoPlaceholder(v: Value)
    ensures Placeholder(v).None? <==> forall a :: !PlaceholderOf(v, a)
  {
    forall a ensures Placeholder(v) == Some(a) <==> PlaceholderOf(v, a) {
      PlaceholderNames(v, a);
    }
    if Placeholder(v).Some? {
      assert PlaceholderOf(v, Placeholder(v).value);
    }
  }

  lemma ItemsStand(subject: Subject, v: Value, w: Value)
    ensures w in Items(subject, v) <==> StandsFor(subject, v, w)
  {
    NoPlaceholder(v);
    forall a ensures Placeholder(v) == Some(a) <==> PlaceholderOf(v, a) {
      PlaceholderNames(v, a);
    }
  }

  lemma {:induction false} ResolvedStand(subject: Subject, vs: seq<Value>, w: Value)
    ensures w in ResolveList(subject, vs) <==> StandsIn(subject, vs, w)
  {
    hide StandsFor, Items;
    if vs != [] {
      ItemsStand(subject, vs[0], w);
      ResolvedStand(subject, vs[1..], w);
      assert forall i :: 0 < i < |vs| ==> vs[i] == vs[1..][i - 1];
    }
  }

  lemma {:induction false} OrAllUnknown(ts: seq<Truth>)
    ensures OrAll(ts) == False <==> forall i :: 0 <= i < |ts| ==> ts[i] == False
  {
    if ts != [] {
      OrAllUnknown(ts[1..]);
      assert forall i :: 0 < i < |ts| ==> ts[i] == ts[1..][i - 1];
    }
  }

  lemma ListMeans(db: Db, x: Value, subject: Subject, vs: seq<Value>)
    ensures InList(db, x, ResolveList(subject, vs)) == OneOf(db, x, subject, vs)
  {
    hide StandsIn, ResolveList, Compare;
    var ws := ResolveList(subject, vs);
    var ts := Map(w => Compare(db, Eq, x, w), ws);
    OrAllTrue(ts);
    OrAllUnknown(ts);
    forall w ensures w in ws <==> StandsIn(subject, vs, w) {
      ResolvedStand(subject, vs, w);
    }
    forall i | 0 <= i < |ws| ensures StandsIn(subject, vs, ws[i]) && ts[i] == Compare(db, Eq, x, ws[i]) {
      assert ws[i] in ws;
    }
    forall w | StandsIn(subject, vs, w) ensures Compare(db, Eq, x, w) in ts {
      var i :| 0 <= i < |ws| && ws[i] == w;
      assert ts[i] == Compare(db, Eq, x, w);
    }
  }

  lemma OperandStands(subject: Subject, v: Value)
    ensures ResolveOperand(subject, Scalar(v)) == OperandFor(subject, v)
  {
    NoPlaceholder(v);
    if a :| PlaceholderOf(v, a) {
      var b :| PlaceholderOf(v, b) && OperandFor(subject, v) == if b in subject then subject[b] else Scalar(Null);
      PlaceholderNames(v, b);
    }
  }

  /** Filled in with the caller's attributes, a policy means what it says of the
      caller. */
  lemma {:induction false} ResolveMeans(db: Db, env: Env, subject: Subject, p: Predicate)
    ensures Meaning(db, env, Resolve(p, subject)) == MeaningFor(db, env, subject, p)
    decreases p, 1
  {
    hide OneOf, OperandFor, Lookup, Compare, ResolveList;
    match p
    case Condition(f, op, operand) =>
      match operand {
        case Scalar(v) => OperandStands(subject, v);
        case List(vs) => ListMeans(db, Lookup(env, f), subject, vs);
      }
    case And(ps) => AllResolveMean(db, env, subject, ps);
    case Or(ps) => AllResolveMean(db, env, subject, ps);
    case Not(q) => ResolveMeans(db, env, subject, q);
    case _ =>
  }

  lemma {:induction false} AllResolveMean(db: Db, env: Env, subject: Subject, ps: seq<Predicate>)
    ensures Meanings(db, env, ResolveAll(ps, subject)) == MeaningsFor(db, env, subject, ps)
    decreases ps, 0
  {
    forall i | 0 <= i < |ps| ensures Meaning(db, env, Resolve(ps[i], subject)) == MeaningFor(db, env, subject, ps[i]) {
      ResolveMeans(db, env, subject, ps[i]);
    }
  }

  /** p holds of the row for the caller. */
  ghost predicate Holds(db: Db, env: Env, subject: Subject, p: Predicate) {
    MeaningFor(db, env, subject, p) == True
  }

  lemma OrHolds(db: Db, env: Env, subject: Subject, ps: seq<Predicate>)
    ensures Holds(db, env, subject, Or(ps)) <==> exists i :: 0 <= i < |ps| && Holds(db, env, subject, ps[i])
  {
    OrAllTrue(MeaningsFor(db, env, subject, ps));
  }

  lemma AndHolds(db: Db, env: Env, subject: Subject, p: Predicate, q: Predicate)
    ensures Holds(db, env, subject, And([p, q])) <==> Holds(db, env, subject, p) && Holds(db, env, subject, q)
  {
    var ts := MeaningsFor(db, env, subject, [p, q]);
    AndAllTrue(ts);
    assert ts[0] == MeaningFor(db, env, subject, p) && ts[1] == MeaningFor(db, env, subject, q);
  }

  /** A condition on an attribute the subject lacks is never true, unless it
      only asks whether the field is NULL. */
  lemma MissingMatchesNothing(db: Db, env: Env, subject: Subject, field: string, op: Op, attribute: string)
    requires attribute !in subject && !op.IsNull? && !op.IsNotNull?
    ensures !Holds(db, env, subject, Condition(field, op, Scalar(Text("${subject." + attribute + "}"))))
  {
    var v := Text("${subject." + attribute + "}");
    PlaceholderNames(v, attribute);
    OperandStands(subject, v);
  }

  // --- the row filter ---

  function RowsOf(grants: seq<Grant>): seq<Predicate> {
    if grants == [] then []
    else RowsOf(grants[..|grants|-1]) + (if grants[|grants|-1].rows.Nil? then [] else [grants[|grants|-1].rows])
  }

  predicate Unrestricted(grants: seq<Grant>) {
    exists i :: 0 <= i < |grants| && grants[i].rows.Nil?
  }

  function Ids(grants: seq<Grant>): seq<string> {
    seq(|grants|, i requires 0 <= i < |grants| => grants[i].id)
  }

  function AnyOf(ps: seq<Predicate>): Predicate {
    if |ps| == 1 then ps[0] else Or(ps)
  }

  function Both(tenant: Predicate, filter: Predicate): Predicate {
    if filter.Nil? then tenant else And([tenant, filter])
  }

  function RowFilter(grants: seq<Grant>, tenant: Predicate): Predicate {
    var filter := if Unrestricted(grants) then Nil else AnyOf(RowsOf(grants));
    if tenant.Nil? then filter else Both(tenant, filter)
  }

  ghost predicate SomeHolds(db: Db, env: Env, subject: Subject, ps: seq<Predicate>) {
    exists i :: 0 <= i < |ps| && Holds(db, env, subject, ps[i])
  }

  ghost predicate Granted(db: Db, env: Env, subject: Subject, grants: seq<Grant>) {
    exists i :: 0 <= i < |grants| && Holds(db, env, subject, grants[i].rows)
  }

  lemma {:induction false} RowsOfHold(db: Db, env: Env, subject: Subject, grants: seq<Grant>)
    requires !Unrestricted(grants)
    ensures SomeHolds(db, env, subject, RowsOf(grants)) <==> Granted(db, env, subject, grants)
    ensures |RowsOf(grants)| == |grants|
  {
    if grants != [] {
      var n := |grants| - 1;
      assert forall i :: 0 <= i < n ==> grants[..n][i] == grants[i];
      RowsOfHold(db, env, subject, grants[..n]);
      var front, all := RowsOf(grants[..n]), RowsOf(grants);
      assert all == front + [grants[n].rows];
      assert forall i :: 0 <= i < n ==> all[i] == front[i];
      if Granted(db, env, subject, grants) {
        var i :| 0 <= i < |grants| && Holds(db, env, subject, grants[i].rows);
        if i < n {
          assert Holds(db, env, subject, grants[..n][i].rows);
          var j :| 0 <= j < n && Holds(db, env, subject, front[j]);
          assert Holds(db, env, subject, all[j]);
        } else {
          assert Holds(db, env, subject, all[n]);
        }
      }
      if SomeHolds(db, env, subject, all) {
        var j :| 0 <= j < |all| && Holds(db, env, subject, all[j]);
        if j < n {
          assert Holds(db, env, subject, front[j]);
          var i :| 0 <= i < n && Holds(db, env, subject, grants[..n][i].rows);
          assert Holds(db, env, subject, grants[i].rows);
        } else {
          assert Holds(db, env, subject, grants[n].rows);
        }
      }
    }
  }

  /** The row filter holds exactly where the tenant policy and the rows of some
      serving grant do. */
  lemma RowFilterHolds(db: Db, env: Env, subject: Subject, grants: seq<Grant>, tenant: Predicate)
    requires grants != []
    ensures Holds(db, env, subject, RowFilter(grants, tenant)) <==>
            Holds(db, env, subject, tenant) && Granted(db, env, subject, grants)
  {
    var filter := if Unrestricted(grants) then Nil else AnyOf(RowsOf(grants));
    assert Holds(db, env, subject, filter) <==> Granted(db, env, subject, grants) by {
      if Unrestricted(grants) {
        var i :| 0 <= i < |grants| && grants[i].rows.Nil?;
        assert Holds(db, env, subject, grants[i].rows);
      } else {
        RowsOfHold(db, env, subject, grants);
        OrHolds(db, env, subject, RowsOf(grants));
        AnyOfHolds(db, env, subject, RowsOf(grants));
      }
    }
    AndHolds(db, env, subject, tenant, filter);
  }

  lemma AnyOfHolds(db: Db, env: Env, subject: Subject, ps: seq<Predicate>)
    ensures Holds(db, env, subject, AnyOf(ps)) <==> SomeHolds(db, env, subject, ps)
  {
    OrHolds(db, env, subject, ps);
    if |ps| == 1 {
      assert ps[0] == AnyOf(ps);
    }
  }

  // --- authorizing ---

  function ReadOf(req: Request): seq<string> {
    if req.readFields == [] && req.writeFields == [] && !req.action.ActionCreate? && !req.action.ActionUpdate?
        then req.fields
    else req.readFields
  }

  function WriteOf(req: Request): seq<string> {
    if req.readFields == [] && req.writeFields == [] && (req.action.ActionCreate? || req.action.ActionUpdate?)
        then req.fields
    else req.writeFields
  }

  predicate AllRestricted(grants: seq<Grant>) {
    forall i :: 0 <= i < |grants| ==> grants[i].fields.Some?
  }

  function Scopes(visible: seq<Attribute>, grants: seq<Grant>): seq<seq<string>> {
    seq(|grants|, i requires 0 <= i < |grants| => GrantProjection(visible, [], grants[i]))
  }

  /** No candidate covers the request: some field none covers alone, or else the
      fields are split across grants. */
  function DeniedScope(candidates: seq<Grant>, read: seq<string>, write: seq<string>, visible: seq<Attribute>): Decision
  {
    if exists i :: 0 <= i < |read| && Covering(candidates, [read[i]], [], visible) == [] then Denied([])
    else if exists i :: 0 <= i < |write| && Covering(candidates, [], [write[i]], visible) == [] then Denied([])
    else Denied(Scopes(visible, candidates))
  }

  predicate ReturnsRows(action: Action) {
    !action.ActionCreate? && !action.ActionUpdate? && !action.ActionDelete?
  }

  /** What is projected and the grants that serve it, or a denial. */
  function Project(req: Request, res: Resolved, covering: seq<Grant>): (r: (seq<string>, seq<Grant>, Option<Decision>))
    ensures r.2.Some? ==> r.2.value.Denied?
  {
    if !ReturnsRows(req.action) then ([], covering, None)
    else
      var projected := UnionProjection(res.visible, req.fields, covering);
      if !req.action.ActionRead? then (projected, covering, None)
      else if projected == [] then ([], [], Some(Denied([])))
      else
        var serving := Covering(covering, projected, [], res.visible);
        if serving == [] then ([], [], Some(Denied(Scopes(res.visible, covering))))
        else (projected, serving, None)
  }

  function Authorize(p: Policy, registry: map<string, Resolved>, req: Request): Decision {
    if req.entity !in registry then Denied([])
    else
      var res := registry[req.entity];
      var candidates := Candidates(p, res.name, req.role, req.action);
      if candidates == [] then Denied([])
      else if req.action.ActionRead? && req.fields == [] && AllRestricted(candidates) &&
              UnionProjection(res.visible, [], candidates) == [] then Denied([])
      else
        var covering := Covering(candidates, ReadOf(req), WriteOf(req), res.visible);
        if covering == [] then DeniedScope(candidates, ReadOf(req), WriteOf(req), res.visible)
        else
          var r := Project(req, res, covering);
          if r.2.Some? then r.2.value
          else Allowed(r.0, Resolve(RowFilter(r.1, res.tenant), req.subject), Ids(r.1))
  }

  /** Every field and attribute asked about has a name. */
  predicate AllNamed(res: Resolved, req: Request) {
    "" !in ReadOf(req) && "" !in WriteOf(req) && forall i :: 0 <= i < |res.visible| ==> res.visible[i].name != ""
  }

  lemma ProjectedNamed(visible: seq<Attribute>, requested: seq<string>, grants: seq<Grant>)
    requires forall i :: 0 <= i < |visible| ==> visible[i].name != ""
    ensures "" !in UnionProjection(visible, requested, grants)
  {
  }

  /** g, a grant of the caller's that allows the action, covers all it reads,
      writes and is returned. */
  ghost predicate Serves(p: Policy, res: Resolved, req: Request, fields: seq<string>, g: Grant) {
    && g in Held(p, res.name, req.role) && req.action in g.actions
    && Covers(g, ReadOf(req), WriteOf(req), res.visible)
    && (req.action.ActionRead? ==> forall f :: f in fields ==> Reads(g, f, res.visible))
  }

  /** What is projected and the grants that serve a request, once it is allowed. */
  function Parts(p: Policy, res: Resolved, req: Request): (seq<string>, seq<Grant>, Option<Decision>) {
    Project(req, res, Covering(Candidates(p, res.name, req.role, req.action), ReadOf(req), WriteOf(req), res.visible))
  }

  lemma AllowedParts(p: Policy, registry: map<string, Resolved>, req: Request)
    requires Authorize(p, registry, req).Allowed?
    ensures var res, d := registry[req.entity], Authorize(p, registry, req);
            var r := Parts(p, res, req);
            r.2.None? && r.1 != [] && d == Allowed(r.0, Resolve(RowFilter(r.1, res.tenant), req.subject), Ids(r.1))
  {
    hide Candidates, Covering, UnionProjection, Resolve, RowFilter, Ids, ReadOf, WriteOf;
  }

  lemma PartServes(p: Policy, res: Resolved, req: Request, g: Grant)
    requires AllNamed(res, req) && g in Parts(p, res, req).1
    ensures Serves(p, res, req, Parts(p, res, req).0, g)
  {
    hide UnionProjection, Passes, Reads, Held, ReadOf, WriteOf;
    var candidates := Candidates(p, res.name, req.role, req.action);
    var covering := Covering(candidates, ReadOf(req), WriteOf(req), res.visible);
    assert g in covering && g in candidates;
    PassesCovers(g, ReadOf(req), WriteOf(req), res.visible);
    if req.action.ActionRead? {
      ProjectedNamed(res.visible, req.fields, covering);
      PassesCovers(g, Parts(p, res, req).0, [], res.visible);
    }
  }

  /** Every row an allowed request sees satisfies the tenant policy and the rows
      of one single grant that covers everything it uses. */
  lemma RowsCovered(p: Policy, registry: map<string, Resolved>, req: Request, db: Db, env: Env) returns (g: Grant)
    requires Authorize(p, registry, req).Allowed? && AllNamed(registry[req.entity], req)
    requires Meaning(db, env, Authorize(p, registry, req).rowFilter) == True
    ensures Holds(db, env, req.subject, registry[req.entity].tenant)
    ensures Serves(p, registry[req.entity], req, Authorize(p, registry, req).fields, g) &&
            Holds(db, env, req.subject, g.rows)
  {
    hide Parts, RowFilter, Resolve, Meaning, MeaningFor, AllNamed, Serves;
    var res := registry[req.entity];
    AllowedParts(p, registry, req);
    var grants := Parts(p, res, req).1;
    ResolveMeans(db, env, req.subject, RowFilter(grants, res.tenant));
    RowFilterHolds(db, env, req.subject, grants, res.tenant);
    var i :| 0 <= i < |grants| && Holds(db, env, req.subject, grants[i].rows);
    g := grants[i];
    PartServes(p, res, req, g);
  }

  // --- retrying within a scope ---

  /** The request that reads exactly the fields of scope. */
  function Retry(req: Request, scope: seq<string>): Request {
    req.(fields := scope, readFields := scope, writeFields := [])
  }

  lemma ScopeReadable(visible: seq<Attribute>, g: Grant, f: string)
    requires f in GrantProjection(visible, [], g)
    ensures Visible(visible, f) && Reads(g, f, visible)
  {
    var i :| 0 <= i < |visible| && Names(visible)[i] == f;
    assert Named(visible[i], f);
  }

  /** A grant's whole scope, asked for, is projected as it is. */
  lemma ScopeProjected(visible: seq<Attribute>, g: Grant, grants: seq<Grant>, scope: seq<string>)
    requires scope == GrantProjection(visible, [], g) && scope != [] && g in grants
    ensures UnionProjection(visible, scope, grants) == scope
  {
    forall f | f in scope ensures Visible(visible, f) && Reads(g, f, visible) {
      ScopeReadable(visible, g, f);
    }
    FilterAll((f: string) => Visible(visible, f), scope);
    FilterAll((f: string) => Reads(g, f, visible), scope);
    assert GrantProjection(visible, scope, g) == scope;
    var i :| 0 <= i < |grants| && grants[i] == g;
    forall f | f in scope ensures AnyProjects(visible, scope, grants, f) {
      assert f in GrantProjection(visible, scope, grants[i]);
    }
    FilterAll((f: string) => AnyProjects(visible, scope, grants, f), scope);
  }

  lemma ScopeCovered(visible: seq<Attribute>, g: Grant, grants: seq<Grant>, scope: seq<string>)
    requires scope == GrantProjection(visible, [], g) && g in grants
    ensures g in Covering(grants, scope, [], visible)
  {
    forall f | f in scope ensures Reads(g, f, visible) {
      ScopeReadable(visible, g, f);
    }
    PassesCovers(g, scope, [], visible);
  }

  /** A denial's scopes are those of candidates. */
  lemma ScopeOfCandidate(
    p: Policy, registry: map<string, Resolved>, req: Request, scope: seq<string>) returns (g: Grant)
    requires Authorize(p, registry, req).Denied? && scope in Authorize(p, registry, req).scopes
    ensures req.entity in registry
    ensures var res := registry[req.entity];
            g in Candidates(p, res.name, req.role, req.action) && scope == GrantProjection(res.visible, [], g)
  {
    var res := registry[req.entity];
    var candidates := Candidates(p, res.name, req.role, req.action);
    var covering := Covering(candidates, ReadOf(req), WriteOf(req), res.visible);
    var offered := if covering == [] then candidates else covering;
    assert Authorize(p, registry, req).scopes == Scopes(res.visible, offered);
    var i :| 0 <= i < |offered| && Scopes(res.visible, offered)[i] == scope;
    g := offered[i];
    assert g in offered;
  }

  /** Every scope a denied read is offered, unless empty, may be read. */
  lemma ScopeAllowed(p: Policy, registry: map<string, Resolved>, req: Request, scope: seq<string>)
    requires req.action.ActionRead? && Authorize(p, registry, req).Denied?
    requires scope in Authorize(p, registry, req).scopes && scope != []
    ensures var d := Authorize(p, registry, Retry(req, scope)); d.Allowed? && d.fields == scope
  {
    hide GrantProjection, UnionProjection, Passes, Held, DeniedScope, Scopes;
    var g := ScopeOfCandidate(p, registry, req, scope);
    var res, again := registry[req.entity], Retry(req, scope);
    var candidates := Candidates(p, res.name, req.role, req.action);
    ScopeCovered(res.visible, g, candidates, scope);
    var covering := Covering(candidates, ReadOf(again), WriteOf(again), res.visible);
    assert ReadOf(again) == scope && WriteOf(again) == [];
    ScopeProjected(res.visible, g, covering, scope);
    ScopeCovered(res.visible, g, covering, scope);
  }
}
