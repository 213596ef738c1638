/** What a write invalidates: its relation and, through any number of cascading
    foreign keys, the relations they rewrite; or a whole database. */
module Invalidation {
  import opened Expiries
  import opened CacheRaces

  datatype Option<T> = None | Some(value: T)

  /** physical and relation identify the relation an entity reads; cascades are
      the entities its foreign keys cascade to, "" where no entity exposes one. */
  datatype Entity = Entity(
    name: string, physical: string, relation: string, datasource: string, derived: bool, procedure: bool,
    sideEffects: bool, affects: seq<string>, cascades: seq<string>)

  /** Entities by name, and the names a reference may also stand for. */
  datatype Registry = Registry(byName: map<string, Entity>, byRef: map<string, seq<string>>)

  predicate WellFormed(reg: Registry) {
    && (forall n :: n in reg.byName ==> reg.byName[n].name == n)
    && (forall r, i :: r in reg.byRef && 0 <= i < |reg.byRef[r]| ==> reg.byRef[r][i] in reg.byName)
  }

  /** ref is e's name or, no entity having that name, stands for e alone. */
  predicate Means(reg: Registry, ref: string, e: Entity) {
    && e.name in reg.byName && reg.byName[e.name] == e
    && (ref == e.name || (ref !in reg.byName && ref in reg.byRef && reg.byRef[ref] == [e.name]))
  }

  function Resolve(reg: Registry, ref: string): (e: Option<Entity>)
    requires WellFormed(reg)
    ensures forall x :: e == Some(x) <==> Means(reg, ref, x)
  {
    if ref in reg.byName then Some(reg.byName[ref])
    else if ref in reg.byRef && |reg.byRef[ref]| == 1 then Some(reg.byName[reg.byRef[ref][0]])
    else None
  }

  /** The relation an entity's reads are cached under: none for derived data. */
  function CacheRelation(e: Entity): string {
    if e.derived then "" else e.relation
  }

  function OwnTarget(e: Entity): Target {
    Target(e.physical, CacheRelation(e))
  }

  predicate AnyTouches(ts: seq<Target>, k: Key) {
    exists i :: 0 <= i < |ts| && Touches(ts[i], k)
  }

  // --- what a write reaches ---

  predicate CascadesTo(reg: Registry, e: Entity, child: Entity)
    requires WellFormed(reg)
  {
    exists i :: 0 <= i < |e.cascades| && Means(reg, e.cascades[i], child)
  }

  /** From one entity to the next by cascading foreign keys. */
  predicate Chain(reg: Registry, es: seq<Entity>)
    requires WellFormed(reg)
  {
    es != [] && forall i :: 0 < i < |es| ==> CascadesTo(reg, es[i-1], es[i])
  }

  ghost predicate Reaches(reg: Registry, roots: seq<Entity>, e: Entity)
    requires WellFormed(reg)
  {
    exists es :: Chain(reg, es) && es[0] in roots && es[|es|-1] == e
  }

  lemma ReachesRoot(reg: Registry, roots: seq<Entity>, e: Entity)
    requires WellFormed(reg) && e in roots
    ensures Reaches(reg, roots, e)
  {
    assert Chain(reg, [e]) && [e][0] in roots;
  }

  lemma ReachesChild(reg: Registry, roots: seq<Entity>, e: Entity, child: Entity)
    requires WellFormed(reg) && Reaches(reg, roots, e) && CascadesTo(reg, e, child)
    ensures Reaches(reg, roots, child)
  {
    var es :| Chain(reg, es) && es[0] in roots && es[|es|-1] == e;
    var fs := es + [child];
    forall i | 0 < i < |fs| ensures CascadesTo(reg, fs[i-1], fs[i]) {
      assert i < |es| ==> CascadesTo(reg, es[i-1], es[i]);
    }
    assert Chain(reg, fs) && fs[0] in roots && fs[|fs|-1] == child;
  }

  /** Everything a write reaches is in one database. */
  ghost predicate OneDatabase(reg: Registry, roots: seq<Entity>)
    requires WellFormed(reg)
  {
    forall a, b :: Reaches(reg, roots, a) && Reaches(reg, roots, b) ==> a.physical == b.physical
  }

  /** ts touches what is cached of e, and data derived in its database. */
  ghost predicate Covers(ts: seq<Target>, e: Entity) {
    forall k: Key :: k.database == e.physical && (k.relation == CacheRelation(e) || k.relation == "") ==>
        AnyTouches(ts, k)
  }

  ghost predicate CoversAll(reg: Registry, roots: seq<Entity>, ts: seq<Target>)
    requires WellFormed(reg)
  {
    forall e :: Reaches(reg, roots, e) ==> Covers(ts, e)
  }

  /** What a write of e changes is not known: it has side effects, or a cascade of
      it ends where no entity is. */
  ghost predicate Opaque(reg: Registry, e: Entity)
    requires WellFormed(reg)
  {
    e.sideEffects || exists i :: 0 <= i < |e.cascades| && Unresolved(reg, e.cascades[i])
  }

  ghost predicate Unresolved(reg: Registry, ref: string) {
    forall e :: !Means(reg, ref, e)
  }

  ghost predicate NoneOpaque(reg: Registry, roots: seq<Entity>)
    requires WellFormed(reg)
  {
    forall e :: Reaches(reg, roots, e) ==> !Opaque(reg, e)
  }

  /** What is cached of a relation the write reaches is touched, and what is
      derived in its database, and nothing else. */
  ghost predicate TouchesReached(reg: Registry, roots: seq<Entity>, ts: seq<Target>)
    requires WellFormed(reg)
  {
    forall k :: AnyTouches(ts, k) <==> exists e :: Reaches(reg, roots, e) && Touches(OwnTarget(e), k)
  }

  // --- the walk ---

  /** es is closed: a cascade of one of them ends in another. */
  predicate Closed(reg: Registry, es: seq<Entity>)
    requires WellFormed(reg)
  {
    forall e, i :: e in es && 0 <= i < |e.cascades| ==>
      Resolve(reg, e.cascades[i]).Some? && Resolve(reg, e.cascades[i]).value in es
  }

  lemma {:induction false} ClosedChain(reg: Registry, es: seq<Entity>, chain: seq<Entity>, i: nat)
    requires WellFormed(reg) && Closed(reg, es) && Chain(reg, chain) && chain[0] in es && i < |chain|
    ensures chain[i] in es
  {
    if i > 0 {
      ClosedChain(reg, es, chain, i - 1);
      assert CascadesTo(reg, chain[i-1], chain[i]);
    }
  }

  lemma ClosedReaches(reg: Registry, roots: seq<Entity>, es: seq<Entity>, e: Entity)
    requires WellFormed(reg) && Closed(reg, es) && (forall r :: r in roots ==> r in es) && Reaches(reg, roots, e)
    ensures e in es
  {
    var chain :| Chain(reg, chain) && chain[0] in roots && chain[|chain|-1] == e;
    ClosedChain(reg, es, chain, |chain| - 1);
  }

  predicate Registered(reg: Registry, e: Entity) {
    e.name in reg.byName && reg.byName[e.name] == e
  }

  predicate AllRegistered(reg: Registry, es: seq<Entity>) {
    forall e :: e in es ==> Registered(reg, e)
  }

  ghost predicate AllReached(reg: Registry, roots: seq<Entity>, es: seq<Entity>)
    requires WellFormed(reg)
  {
    forall e :: e in es ==> Reaches(reg, roots, e)
  }

  /** Each cascade of e ends in one of es. */
  predicate CascadesWithin(reg: Registry, e: Entity, es: seq<Entity>)
    requires WellFormed(reg)
  {
    forall i :: 0 <= i < |e.cascades| ==> Resolve(reg, e.cascades[i]).Some? && Resolve(reg, e.cascades[i]).value in es
  }

  predicate AllWithin(reg: Registry, done: seq<Entity>, es: seq<Entity>)
    requires WellFormed(reg)
  {
    forall d :: d in done ==> CascadesWithin(reg, d, es)
  }

  function Names(es: seq<Entity>): set<string> {
    set e | e in es :: e.name
  }

  function OwnTargets(es: seq<Entity>): (ts: seq<Target>)
    ensures |ts| == |es| && forall i :: 0 <= i < |es| ==> ts[i] == OwnTarget(es[i])
  {
    seq(|es|, i requires 0 <= i < |es| => OwnTarget(es[i]))
  }

  /** Where the walk stopped: at an entity whose effects are unknown, or with
      every entity reached. */
  datatype Walked = Unknown(at: Entity) | Reached(done: seq<Entity>)

  /** The children of e, or None when one is not exposed. */
  method Children(reg: Registry, e: Entity) returns (children: Option<seq<Entity>>)
    requires WellFormed(reg)
    ensures children.Some? ==> CascadesWithin(reg, e, children.value) && AllRegistered(reg, children.value)
    ensures children.Some? ==> forall c :: c in children.value ==> CascadesTo(reg, e, c)
    ensures children.None? ==> exists i :: 0 <= i < |e.cascades| && Resolve(reg, e.cascades[i]).None?
  {
    var out: seq<Entity> := [];
    for i := 0 to |e.cascades|
      invariant |out| == i
      invariant forall j :: 0 <= j < i ==> Resolve(reg, e.cascades[j]) == Some(out[j])
    {
      var child := Resolve(reg, e.cascades[i]);
      if child.None? {
        return None;
      }
      out := out + [child.value];
    }
    children := Some(out);
  }

  /** What the walk has done, and has left to do. */
  ghost predicate Walking(reg: Registry, roots: seq<Entity>, done: seq<Entity>, writes: seq<Entity>)
    requires WellFormed(reg)
  {
    && AllRegistered(reg, done + writes) && AllReached(reg, roots, done + writes)
    && (forall r :: r in roots ==> r in done + writes)
    && AllWithin(reg, done, done + writes)
    && (forall d :: d in done ==> !d.sideEffects)
  }

  lemma NamesSnoc(done: seq<Entity>, e: Entity)
    ensures Names(done + [e]) == Names(done) + {e.name}
  {
    forall n | n in Names(done) + {e.name} ensures n in Names(done + [e]) {
      if n == e.name {
        assert e in done + [e];
      } else {
        var d :| d in done && d.name == n;
        assert d in done + [e];
      }
    }
  }

  lemma SeenIsDone(reg: Registry, done: seq<Entity>, e: Entity)
    requires AllRegistered(reg, done) && Registered(reg, e) && e.name in Names(done)
    ensures e in done
  {
  }

  lemma WalkSkips(reg: Registry, roots: seq<Entity>, done: seq<Entity>, writes: seq<Entity>)
    requires WellFormed(reg) && writes != [] && Walking(reg, roots, done, writes) && writes[0] in done
    ensures Walking(reg, roots, done, writes[1..])
  {
    forall e | e in done + writes ensures e in done + writes[1..] {
      assert e in writes && e != writes[0] ==> e in writes[1..];
    }
  }

  lemma WalkTakes(reg: Registry, roots: seq<Entity>, done: seq<Entity>, writes: seq<Entity>, children: seq<Entity>)
    requires WellFormed(reg) && writes != [] && Walking(reg, roots, done, writes) && !writes[0].sideEffects
    requires CascadesWithin(reg, writes[0], children) && AllRegistered(reg, children)
    requires forall c :: c in children ==> CascadesTo(reg, writes[0], c)
    ensures Walking(reg, roots, done + [writes[0]], writes[1..] + children)
  {
    var all := done + [writes[0]] + (writes[1..] + children);
    forall e | e in done + writes ensures e in all {
    }
    forall c | c in children ensures Reaches(reg, roots, c) {
      ReachesChild(reg, roots, writes[0], c);
    }
  }

  /** Walks the cascades from roots, each entity once. */
  method Walk(reg: Registry, roots: seq<Entity>) returns (r: Walked)
    requires WellFormed(reg) && AllRegistered(reg, roots)
    ensures r.Unknown? ==> Reaches(reg, roots, r.at) && Opaque(reg, r.at)
    ensures r.Reached? ==> NoneOpaque(reg, roots) && forall e :: e in r.done <==> Reaches(reg, roots, e)
  {
    var writes, seen: set<string> := roots, {};
    var done: seq<Entity> := [];
    forall e | e in roots ensures Reaches(reg, roots, e) {
      ReachesRoot(reg, roots, e);
    }
    while |writes| > 0
      invariant Walking(reg, roots, done, writes) && seen == Names(done)
      decreases reg.byName.Keys - seen, |writes|
    {
      var e := writes[0];
      assert e in done + writes;
      if e.name in seen {
        SeenIsDone(reg, done, e);
        WalkSkips(reg, roots, done, writes);
        writes := writes[1..];
        continue;
      }
      seen := seen + {e.name};
      if e.sideEffects {
        return Unknown(e);
      }
      var children := Children(reg, e);
      if children.None? {
        return Unknown(e);
      }
      WalkTakes(reg, roots, done, writes, children.value);
      NamesSnoc(done, e);
      done, writes := done + [e], writes[1..] + children.value;
    }
    assert done + writes == done;
    forall e ensures e in done <==> Reaches(reg, roots, e) {
      if Reaches(reg, roots, e) {
        ClosedReaches(reg, roots, done, e);
      }
    }
    forall e | Reaches(reg, roots, e) ensures !Opaque(reg, e) {
      assert CascadesWithin(reg, e, done);
    }
    r := Reached(done);
  }

  // --- targets ---

  /** The same, but for the relation, which a whole-database target leaves out. */
  function Widened(ts: seq<Target>, t: Target): Target {
    if Target(t.physical, "") in ts then Target(t.physical, "") else t
  }

  /** Drops repeated targets, and those another covers; what they touch stays. */
  method CompactTargets(ts: seq<Target>) returns (out: seq<Target>)
    ensures forall k :: AnyTouches(out, k) <==> AnyTouches(ts, k)
    ensures forall i, j :: 0 <= i < j < |out| ==> out[i] != out[j]
    ensures forall i, j :: 0 <= i < |out| && 0 <= j < |out| ==>
              out[i].relation == "" && out[i].physical == out[j].physical ==> i == j
  {
    var whole: set<string> := {};
    for i := 0 to |ts|
      invariant forall p :: p in whole <==> Target(p, "") in ts[..i]
    {
      assert ts[..i + 1] == ts[..i] + [ts[i]];
      if ts[i].relation == "" {
        whole := whole + {ts[i].physical};
      }
    }
    assert ts[..|ts|] == ts;
    out := Compacted(ts, whole);
    forall k ensures AnyTouches(out, k) <==> AnyTouches(ts, k) {
      CompactTouches(ts, out, k);
    }
  }

  method Compacted(ts: seq<Target>, whole: set<string>) returns (out: seq<Target>)
    requires forall p :: p in whole <==> Target(p, "") in ts
    ensures forall t :: t in out <==> exists i :: 0 <= i < |ts| && t == Widened(ts, ts[i])
    ensures forall i, j :: 0 <= i < j < |out| ==> out[i] != out[j]
    ensures forall i :: 0 <= i < |out| ==> (out[i].relation == "" <==> out[i].physical in whole)
  {
    out := [];
    for i := 0 to |ts|
      invariant forall t :: t in out <==> exists j :: 0 <= j < i && t == Widened(ts, ts[j])
      invariant forall j, k :: 0 <= j < k < |out| ==> out[j] != out[k]
      invariant forall j :: 0 <= j < |out| ==> (out[j].relation == "" <==> out[j].physical in whole)
    {
      var t := if ts[i].physical in whole then Target(ts[i].physical, "") else ts[i];
      assert t == Widened(ts, ts[i]);
      assert ts[i] in ts;
      if t !in out {
        out := out + [t];
      }
    }
  }

  lemma CompactTouches(ts: seq<Target>, out: seq<Target>, k: Key)
    requires forall t :: t in out <==> exists i :: 0 <= i < |ts| && t == Widened(ts, ts[i])
    ensures AnyTouches(out, k) <==> AnyTouches(ts, k)
  {
    if AnyTouches(ts, k) {
      var i :| 0 <= i < |ts| && Touches(ts[i], k);
      var t := Widened(ts, ts[i]);
      assert t in out && Touches(t, k);
    }
    if AnyTouches(out, k) {
      var j :| 0 <= j < |out| && Touches(out[j], k);
      assert out[j] in out;
      var i :| 0 <= i < |ts| && out[j] == Widened(ts, ts[i]);
      if Target(ts[i].physical, "") in ts {
        var m :| 0 <= m < |ts| && ts[m] == Target(ts[i].physical, "");
        assert Touches(ts[m], k);
      } else {
        assert Touches(ts[i], k);
      }
    }
  }

  function Database(databases: map<string, string>, datasource: string): string {
    if datasource in databases then databases[datasource] else "datasource:" + datasource + "\0"
  }

  /** All of the database of e. */
  function WholeOf(databases: map<string, string>, e: Entity): Target {
    Target(if e.procedure then Database(databases, e.datasource) else e.physical, "")
  }

  /** Only relations are reached, all in one database. */
  ghost predicate Contained(reg: Registry, roots: seq<Entity>)
    requires WellFormed(reg)
  {
    OneDatabase(reg, roots) && forall e :: Reaches(reg, roots, e) ==> !e.procedure
  }

  /** ts is the whole database of an entity reached whose effects are not known,
      or, there being none, touches exactly what is reached. */
  ghost predicate Exactly(reg: Registry, databases: map<string, string>, roots: seq<Entity>, ts: seq<Target>)
    requires WellFormed(reg)
  {
    if NoneOpaque(reg, roots) then TouchesReached(reg, roots, ts)
    else exists e :: Reaches(reg, roots, e) && Opaque(reg, e) && ts == [WholeOf(databases, e)]
  }

  /** The entities a procedure declares it affects; None when one is unknown. */
  method Affected(reg: Registry, e: Entity) returns (roots: Option<seq<Entity>>)
    requires WellFormed(reg)
    ensures roots.Some? <==> forall i :: 0 <= i < |e.affects| ==> Resolve(reg, e.affects[i]).Some?
    ensures roots.Some? ==> AllRegistered(reg, roots.value) && |roots.value| == |e.affects|
    ensures roots.Some? ==> forall i :: 0 <= i < |e.affects| ==> Resolve(reg, e.affects[i]) == Some(roots.value[i])
  {
    var out: seq<Entity> := [];
    for i := 0 to |e.affects|
      invariant |out| == i && forall j :: 0 <= j < i ==> Resolve(reg, e.affects[j]) == Some(out[j])
    {
      var affected := Resolve(reg, e.affects[i]);
      if affected.None? {
        return None;
      }
      out := out + [affected.value];
    }
    roots := Some(out);
  }

  /** What a write through e may change. */
  method Compute(
    reg: Registry, databases: map<string, string>, e: Entity) returns (ts: seq<Target>, ghost roots: seq<Entity>)
    requires WellFormed(reg) && Registered(reg, e)
    ensures !e.procedure ==> roots == [e]
    ensures e.procedure && (forall i :: 0 <= i < |e.affects| ==> Resolve(reg, e.affects[i]).Some?) ==>
              |roots| == |e.affects| && forall i :: 0 <= i < |roots| ==> Resolve(reg, e.affects[i]) == Some(roots[i])
    ensures e.procedure && (e.affects == [] || exists i :: 0 <= i < |e.affects| && Resolve(reg, e.affects[i]).None?) ==>
              ts == [WholeOf(databases, e)]
    ensures Contained(reg, roots) ==> CoversAll(reg, roots, ts)
    ensures roots != [] ==> Exactly(reg, databases, roots, ts)
  {
    roots := [];
    if e.procedure {
      if e.affects == [] {
        assert forall x :: !Reaches(reg, roots, x);
        return [WholeOf(databases, e)], roots;
      }
      var affected := Affected(reg, e);
      if affected.None? {
        assert forall x :: !Reaches(reg, roots, x);
        return [WholeOf(databases, e)], roots;
      }
      roots := affected.value;
      ts := TargetsFrom(reg, databases, affected.value);
    } else {
      roots := [e];
      ts := TargetsFrom(reg, databases, [e]);
    }
  }

  method TargetsFrom(reg: Registry, databases: map<string, string>, roots: seq<Entity>) returns (ts: seq<Target>)
    requires WellFormed(reg) && AllRegistered(reg, roots)
    ensures Contained(reg, roots) ==> CoversAll(reg, roots, ts)
    ensures Exactly(reg, databases, roots, ts)
  {
    var walked := Walk(reg, roots);
    if walked.Unknown? {
      ts := [WholeOf(databases, walked.at)];
      if Contained(reg, roots) {
        WholeCovers(reg, databases, roots, walked.at);
      }
      return;
    }
    var all := OwnTargets(walked.done);
    ts := CompactTargets(all);
    DoneTouches(reg, roots, walked.done, ts);
    ReachedCovers(reg, roots, ts);
  }

  lemma WholeCovers(reg: Registry, databases: map<string, string>, roots: seq<Entity>, at: Entity)
    requires WellFormed(reg) && Contained(reg, roots) && Reaches(reg, roots, at)
    ensures CoversAll(reg, roots, [WholeOf(databases, at)])
  {
    forall e | Reaches(reg, roots, e) ensures Covers([WholeOf(databases, at)], e) {
      assert e.physical == at.physical;
      forall k: Key | k.database == e.physical ensures AnyTouches([WholeOf(databases, at)], k) {
        assert Touches([WholeOf(databases, at)][0], k);
      }
    }
  }

  lemma DoneTouches(reg: Registry, roots: seq<Entity>, done: seq<Entity>, ts: seq<Target>)
    requires WellFormed(reg) && forall e :: e in done <==> Reaches(reg, roots, e)
    requires forall k :: AnyTouches(ts, k) <==> AnyTouches(OwnTargets(done), k)
    ensures TouchesReached(reg, roots, ts)
  {
    forall k ensures AnyTouches(ts, k) <==> exists e :: Reaches(reg, roots, e) && Touches(OwnTarget(e), k) {
      if i :| 0 <= i < |done| && Touches(OwnTargets(done)[i], k) {
        assert done[i] in done;
      }
      if e :| Reaches(reg, roots, e) && Touches(OwnTarget(e), k) {
        var i :| 0 <= i < |done| && done[i] == e;
        assert Touches(OwnTargets(done)[i], k);
      }
    }
  }

  lemma ReachedCovers(reg: Registry, roots: seq<Entity>, ts: seq<Target>)
    requires WellFormed(reg) && TouchesReached(reg, roots, ts)
    ensures CoversAll(reg, roots, ts)
  {
    forall e, k: Key | Reaches(reg, roots, e) && k.database == e.physical &&
                       (k.relation == CacheRelation(e) || k.relation == "")
      ensures AnyTouches(ts, k)
    {
      assert Touches(OwnTarget(e), k);
    }
  }

  /** In every interleaving of readers and writers, once the invalidations of a
      write returned, nothing is cached of a relation it reached, or derived in
      its database, that was queried before it. */
  lemma NoStaleRead(reg: Registry, roots: seq<Entity>, w: World, steps: seq<Step>, i: nat, e: Entity, k: Key)
    requires WellFormed(reg) && Init(w) && Reaches(reg, roots, e)
    requires var b := Run(w, steps);
             i < |b.writes| && b.writes[i].done == |b.writes[i].targets| && CoversAll(reg, roots, b.writes[i].targets)
    requires k in Run(w, steps).cached && k.database == e.physical &&
             (k.relation == CacheRelation(e) || k.relation == "")
    ensures i < Run(w, steps).cached[k]
  {
    var ts := Run(w, steps).writes[i].targets;
    assert Covers(ts, e);
    var j :| 0 <= j < |ts| && Touches(ts[j], k);
    NoStaleEntry(w, steps, i, ts[j], k);
  }

  /** Where what a write changes is not known, nothing at all is cached of its
      database that was queried before it. */
  lemma NoStaleDatabase(
    reg: Registry, databases: map<string, string>, roots: seq<Entity>, w: World, steps: seq<Step>, i: nat, e: Entity,
    k: Key)
    requires WellFormed(reg) && Init(w) && Contained(reg, roots) && !NoneOpaque(reg, roots) && Reaches(reg, roots, e)
    requires var b := Run(w, steps);
             && i < |b.writes| && b.writes[i].done == |b.writes[i].targets|
             && Exactly(reg, databases, roots, b.writes[i].targets)
    requires k in Run(w, steps).cached && k.database == e.physical
    ensures i < Run(w, steps).cached[k]
  {
    var ts := Run(w, steps).writes[i].targets;
    var at :| Reaches(reg, roots, at) && Opaque(reg, at) && ts == [WholeOf(databases, at)];
    assert at.physical == e.physical && ts[0] in ts;
    NoStaleEntry(w, steps, i, ts[0], k);
  }
}
