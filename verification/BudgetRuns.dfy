/** Every run of the budget manager: counts and reservations are the sums over
    open leases, and no open lease loses its state. */
module BudgetRuns {
  import opened Counts
  import opened Budget
  import opened BudgetSound

  datatype Lease = Lease(scope: Scope, cost: int, open: bool)

  datatype World = World(m: Manager, leases: seq<Lease>, clock: int)

  /** from is whose idle session makes room, when the table is full. */
  datatype Step =
    | Expire(now: int)
    | Acquire(scope: Scope, limits: Limits, tenantMax: int, cost: int, rows: int, from: Principal, now: int)
    | Complete(lease: nat, used: int, now: int)
    | Close(scope: Scope)

  function NotNegative(n: int): int {
    if n < 0 then 0 else n
  }

  /** s has a state; a full table drops one it may, or has no room. */
  ghost function Room(m: Manager, s: Scope, from: Principal, now: int): Option<Manager> {
    if s in m.sessions then Some(m)
    else if |m.sessions| < m.maxStates then Some(Opened(m, s, now))
    else if Yields(m, PrincipalOf(s), from) && HolderOf(m, from).idle != [] then
      Some(Opened(Dropped(m, HolderOf(m, from).idle[0]), s, now))
    else None
  }

  predicate Admits(m: Manager, s: Scope, limits: Limits, tenantMax: int, cost: int, rows: int)
    requires s in m.sessions
  {
    Fits(limits, m.sessions[s], cost, rows) && !(tenantMax > 0 && InflightOf(m, s.tenant) >= tenantMax)
  }

  /** The manager after an acquire, and whether it was granted. */
  ghost function Outcome(
    m: Manager, s: Scope, limits: Limits, tenantMax: int, cost: int, rows: int, from: Principal, now: int): (Manager,
    bool)
  {
    match Room(m, s, from, now)
    case None => (m, false)
    case Some(room) =>
      if s in room.sessions && Admits(room, s, limits, tenantMax, NotNegative(cost), NotNegative(rows)) then
        (Started(room, s, NotNegative(cost), now), true)
      else (room, false)
  }

  ghost function Acquired(
    w: World, s: Scope, limits: Limits, tenantMax: int, cost: int, rows: int, from: Principal, now: int): World
  {
    var r := Outcome(w.m, s, limits, tenantMax, cost, rows, from, now);
    World(r.0, if r.1 then w.leases + [Lease(s, NotNegative(cost), true)] else w.leases, now)
  }

  ghost function Completed(w: World, i: nat, used: int, now: int): World
    requires i < |w.leases|
  {
    var l := w.leases[i];
    if l.open && l.scope in w.m.sessions then
      World(Ended(w.m, l.scope, l.cost, used, now), w.leases[i := l.(open := false)], now)
    else w.(clock := now)
  }

  /** The clock does not go back; what cannot be done changes nothing. */
  ghost function Next(w: World, step: Step): World {
    if !step.Close? && step.now < w.clock then w
    else
      match step
      case Expire(now) => World(if Expired(w.m, now) then Dropped(w.m, w.m.idle[0]) else w.m, w.leases, now)
      case Acquire(s, limits, tenantMax, cost, rows, from, now) =>
          Acquired(w, s, limits, tenantMax, cost, rows, from, now)
      case Complete(i, used, now) => if i < |w.leases| then Completed(w, i, used, now) else w
      case Close(s) => if s in w.m.sessions then w.(m := Closed(w.m, s)) else w
  }

  // --- sums over open leases ---

  function Runs(s: Scope): Lease -> int {
    (l: Lease) => if l.open && l.scope == s then 1 else 0
  }

  function Reserves(s: Scope): Lease -> int {
    (l: Lease) => if l.open && l.scope == s then l.cost else 0
  }

  function RunsIn(tenant: string): Lease -> int {
    (l: Lease) => if l.open && l.scope.tenant == tenant then 1 else 0
  }

  /** A session's counts are the sums over its open leases. */
  ghost predicate SessionRight(w: World, s: Scope)
    requires s in w.m.sessions
  {
    var st := w.m.sessions[s];
    && st.inflight == Total(Runs(s), w.leases) && st.reserved == Total(Reserves(s), w.leases)
    && st.cost >= 0 && st.touched <= w.clock
  }

  ghost predicate SessionsRight(w: World) {
    forall s :: s in w.m.sessions ==> SessionRight(w, s)
  }

  ghost predicate LeasesRight(w: World) {
    forall i :: 0 <= i < |w.leases| ==>
        w.leases[i].cost >= 0 && (w.leases[i].open ==> w.leases[i].scope in w.m.sessions)
  }

  ghost predicate TenantsRight(w: World) {
    forall t :: t != "" ==> InflightOf(w.m, t) == Total(RunsIn(t), w.leases)
  }

  ghost predicate Right(w: World) {
    && w.m.maxStates > 0 && Sound(w.m)
    && SessionsRight(w) && LeasesRight(w) && TenantsRight(w)
  }

  lemma {:induction false} NoneOpen(leases: seq<Lease>, s: Scope)
    requires forall i :: 0 <= i < |leases| ==> !(leases[i].open && leases[i].scope == s)
    ensures Total(Runs(s), leases) == 0 && Total(Reserves(s), leases) == 0
  {
    if leases != [] {
      NoneOpen(leases[..|leases|-1], s);
    }
  }

  lemma {:induction false} SomeOpen(leases: seq<Lease>, s: Scope, i: nat)
    requires i < |leases| && leases[i].open && leases[i].scope == s
    ensures Total(Runs(s), leases) >= 1
  {
    TotalAtLeast(Runs(s), leases, i);
  }

  // --- dropping a session without leases ---

  lemma DropKeeps(w: World, s: Scope, clock: int)
    requires Right(w) && s in w.m.sessions && w.m.sessions[s].inflight == 0 && clock >= w.clock
    ensures Right(World(Dropped(w.m, s), w.leases, clock))
  {
    var after := World(Dropped(w.m, s), w.leases, clock);
    DroppedKeeps(w.m, s);
    assert SessionRight(w, s);
    forall r | r in after.m.sessions ensures SessionRight(after, r) {
      assert SessionRight(w, r);
    }
    forall i | 0 <= i < |w.leases| && w.leases[i].open ensures w.leases[i].scope in after.m.sessions {
      if w.leases[i].scope == s {
        SomeOpen(w.leases, s, i);
      }
    }
    assert forall t :: InflightOf(after.m, t) == InflightOf(w.m, t);
  }

  lemma TouchedBefore(w: World, now: int)
    requires SessionsRight(w) && now >= w.clock
    ensures forall r :: r in w.m.sessions ==> w.m.sessions[r].touched <= now
  {
    assert forall r :: r in w.m.sessions ==> SessionRight(w, r);
  }

  lemma OpenKeeps(w: World, s: Scope, now: int)
    requires Right(w) && s !in w.m.sessions && |w.m.sessions| < w.m.maxStates && now >= w.clock
    ensures Right(World(Opened(w.m, s, now), w.leases, now))
  {
    var after := World(Opened(w.m, s, now), w.leases, now);
    TouchedBefore(w, now);
    OpenedKeeps(w.m, s, now);
    NoneOpen(w.leases, s);
    forall r | r in after.m.sessions ensures SessionRight(after, r) {
      if r != s {
        assert SessionRight(w, r);
      }
    }
    assert forall t :: InflightOf(after.m, t) == InflightOf(w.m, t);
  }

  lemma RoomKeeps(w: World, s: Scope, from: Principal, now: int)
    requires Right(w) && now >= w.clock && Room(w.m, s, from, now).Some?
    ensures Right(World(Room(w.m, s, from, now).value, w.leases, now)) && s in Room(w.m, s, from, now).value.sessions
  {
    if s in w.m.sessions {
      forall r | r in w.m.sessions ensures SessionRight(w.(clock := now), r) {
        assert SessionRight(w, r);
      }
    } else if |w.m.sessions| < w.m.maxStates {
      OpenKeeps(w, s, now);
    } else {
      var victim := HolderOf(w.m, from).idle[0];
      ShareIsIdle(w.m, from);
      DropKeeps(w, victim, w.clock);
      DroppedKeeps(w.m, victim);
      Smaller(w.m.sessions, victim);
      OpenKeeps(World(Dropped(w.m, victim), w.leases, w.clock), s, now);
    }
  }

  // --- a call starts and ends ---

  lemma StartSessions(w: World, s: Scope, cost: int, now: int)
    requires SessionsRight(w) && s in w.m.sessions && cost >= 0 && now >= w.clock
    ensures SessionsRight(World(Started(w.m, s, cost, now), w.leases + [Lease(s, cost, true)], now))
  {
    var after := World(Started(w.m, s, cost, now), w.leases + [Lease(s, cost, true)], now);
    forall r | r in after.m.sessions ensures SessionRight(after, r) {
      assert SessionRight(w, r);
      TotalSnoc(Runs(r), w.leases, Lease(s, cost, true));
      TotalSnoc(Reserves(r), w.leases, Lease(s, cost, true));
    }
  }

  lemma StartTenants(w: World, s: Scope, cost: int, now: int)
    requires TenantsRight(w) && s in w.m.sessions
    ensures TenantsRight(World(Started(w.m, s, cost, now), w.leases + [Lease(s, cost, true)], now))
  {
    var after := World(Started(w.m, s, cost, now), w.leases + [Lease(s, cost, true)], now);
    forall t | t != "" ensures InflightOf(after.m, t) == Total(RunsIn(t), after.leases) {
      assert InflightOf(w.m, t) == Total(RunsIn(t), w.leases);
      TotalSnoc(RunsIn(t), w.leases, Lease(s, cost, true));
    }
  }

  lemma RunsPositive(leases: seq<Lease>, s: Scope)
    ensures Total(Runs(s), leases) >= 0
  {
    if leases != [] {
      TotalAtLeast(Runs(s), leases, 0);
    }
  }

  lemma StartKeeps(w: World, s: Scope, cost: int, now: int)
    requires Right(w) && s in w.m.sessions && cost >= 0 && now >= w.clock
    ensures Right(World(Started(w.m, s, cost, now), w.leases + [Lease(s, cost, true)], now))
  {
    assert SessionRight(w, s);
    RunsPositive(w.leases, s);
    StartedKeeps(w.m, s, cost, now);
    StartSessions(w, s, cost, now);
    StartTenants(w, s, cost, now);
    assert Started(w.m, s, cost, now).sessions.Keys == w.m.sessions.Keys;
  }

  lemma EndSums(w: World, i: nat)
    requires i < |w.leases| && w.leases[i].open
    ensures var l := w.leases[i];
            var ended := w.leases[i := l.(open := false)];
            && (forall r :: Total(Runs(r), ended) == Total(Runs(r), w.leases) - if r == l.scope then 1 else 0)
            && (forall r :: Total(Reserves(r), ended) == Total(Reserves(r), w.leases) - if r == l.scope then l.cost
               else 0)
            && (forall t :: Total(RunsIn(t), ended) == Total(RunsIn(t), w.leases) - if t == l.scope.tenant then 1
               else 0)
  {
    var l := w.leases[i];
    forall r
      ensures Total(Runs(r), w.leases[i := l.(open := false)]) == Total(Runs(r), w.leases) - if r == l.scope then 1
              else 0
    {
      TotalUpdate(Runs(r), w.leases, i, l.(open := false));
    }
    forall r
      ensures Total(Reserves(r), w.leases[i := l.(open := false)]) == Total(Reserves(r), w.leases) - if r == l.scope
              then l.cost else 0
    {
      TotalUpdate(Reserves(r), w.leases, i, l.(open := false));
    }
    forall t
      ensures Total(RunsIn(t), w.leases[i := l.(open := false)]) == Total(RunsIn(t), w.leases) - if t == l.scope.tenant
              then 1 else 0
    {
      TotalUpdate(RunsIn(t), w.leases, i, l.(open := false));
    }
  }

  lemma EndSessions(w: World, i: nat, used: int, now: int)
    requires SessionsRight(w) && i < |w.leases| && w.leases[i].open && w.leases[i].scope in w.m.sessions &&
             now >= w.clock
    ensures SessionsRight(Completed(w, i, used, now))
  {
    var l, after := w.leases[i], Completed(w, i, used, now);
    EndSums(w, i);
    forall r | r in after.m.sessions ensures SessionRight(after, r) {
      assert SessionRight(w, r);
    }
  }

  lemma EndTenants(w: World, i: nat, used: int, now: int)
    requires TenantsRight(w) && i < |w.leases| && w.leases[i].open && w.leases[i].scope in w.m.sessions
    ensures TenantsRight(Completed(w, i, used, now))
  {
    var l, after := w.leases[i], Completed(w, i, used, now);
    EndSums(w, i);
    forall t | t != "" ensures InflightOf(after.m, t) == Total(RunsIn(t), after.leases) {
      assert InflightOf(w.m, t) == Total(RunsIn(t), w.leases);
      TenantPositive(w.leases, t, i);
    }
  }

  lemma TenantPositive(leases: seq<Lease>, t: string, i: nat)
    requires i < |leases|
    ensures leases[i].open && leases[i].scope.tenant == t ==> Total(RunsIn(t), leases) >= 1
  {
    TotalAtLeast(RunsIn(t), leases, i);
  }

  lemma EndLeases(w: World, i: nat, used: int, now: int)
    requires SessionsRight(w) && LeasesRight(w) && i < |w.leases| && w.leases[i].open &&
             w.leases[i].scope in w.m.sessions
    ensures LeasesRight(Completed(w, i, used, now))
  {
    var l, after := w.leases[i], Completed(w, i, used, now);
    EndSums(w, i);
    assert SessionRight(w, l.scope);
    forall j | 0 <= j < |after.leases| && after.leases[j].open ensures after.leases[j].scope in after.m.sessions {
      if after.leases[j].scope == l.scope {
        SomeOpen(after.leases, l.scope, j);
      }
    }
  }

  lemma EndKeeps(w: World, i: nat, used: int, now: int)
    requires Right(w) && i < |w.leases| && w.leases[i].open && now >= w.clock
    ensures Right(Completed(w, i, used, now))
  {
    var l := w.leases[i];
    assert SessionRight(w, l.scope);
    SomeOpen(w.leases, l.scope, i);
    TouchedBefore(w, now);
    EndedKeeps(w.m, l.scope, l.cost, used, now);
    EndSessions(w, i, used, now);
    EndTenants(w, i, used, now);
    EndLeases(w, i, used, now);
  }

  // --- every run ---

  lemma ClockKeeps(w: World, now: int)
    requires Right(w) && now >= w.clock
    ensures Right(w.(clock := now))
  {
    forall r | r in w.m.sessions ensures SessionRight(w.(clock := now), r) {
      assert SessionRight(w, r);
    }
  }

  lemma AcquireKeeps(w: World, step: Step)
    requires Right(w) && step.Acquire? && step.now >= w.clock
    ensures Right(Next(w, step))
  {
    match Room(w.m, step.scope, step.from, step.now)
    case None => ClockKeeps(w, step.now);
    case Some(m) =>
      RoomKeeps(w, step.scope, step.from, step.now);
      StartKeeps(World(m, w.leases, step.now), step.scope, NotNegative(step.cost), step.now);
  }

  lemma ExpireKeeps(w: World, now: int)
    requires Right(w) && now >= w.clock
    ensures Right(Next(w, Expire(now)))
  {
    if Expired(w.m, now) {
      IdleListed(w.m, w.m.idle[0]);
      DropKeeps(w, w.m.idle[0], now);
    } else {
      ClockKeeps(w, now);
    }
  }

  lemma CloseKeeps(w: World, s: Scope)
    requires Right(w) && s in w.m.sessions
    ensures Right(w.(m := Closed(w.m, s)))
  {
    if w.m.sessions[s].inflight == 0 {
      DropKeeps(w, s, w.clock);
    } else {
      ClosedKeeps(w.m, s);
      forall r | r in w.m.sessions ensures SessionRight(w.(m := Closed(w.m, s)), r) {
        assert SessionRight(w, r);
      }
      assert forall t :: InflightOf(Closed(w.m, s), t) == InflightOf(w.m, t);
    }
  }

  lemma CompleteKeeps(w: World, i: nat, used: int, now: int)
    requires Right(w) && i < |w.leases| && now >= w.clock
    ensures Right(Completed(w, i, used, now))
  {
    if w.leases[i].open {
      EndKeeps(w, i, used, now);
    } else {
      ClockKeeps(w, now);
    }
  }

  lemma NextKeeps(w: World, step: Step)
    requires Right(w)
    ensures Right(Next(w, step))
  {
    if step.Close? {
      if step.scope in w.m.sessions { CloseKeeps(w, step.scope); }
    } else if step.now >= w.clock {
      match step
      case Expire(now) => ExpireKeeps(w, now);
      case Acquire(_, _, _, _, _, _, _) => AcquireKeeps(w, step);
      case Complete(i, used, now) => if i < |w.leases| { CompleteKeeps(w, i, used, now); }
    }
  }

  ghost function Run(w: World, steps: seq<Step>): World {
    if steps == [] then w else Next(Run(w, steps[..|steps|-1]), steps[|steps|-1])
  }

  function Begin(maxStates: nat, ttl: int, clock: int): World {
    World(New(maxStates, ttl), [], clock)
  }

  lemma BeginRight(maxStates: nat, ttl: int, clock: int)
    requires maxStates > 0
    ensures Right(Begin(maxStates, ttl, clock))
  {
    forall p ensures HolderRight({}, [], map[], p) {
    }
    assert New(maxStates, ttl).sessions.Keys == {};
  }

  /** In every run each session's calls and reservations are the sums over its
      open leases, none of which loses its session; each tenant's calls too; the
      idle list has exactly the idle sessions, in the order of their last use;
      and the table is never overfull. */
  lemma {:induction false} RunRight(maxStates: nat, ttl: int, clock: int, steps: seq<Step>)
    requires maxStates > 0
    ensures Right(Run(Begin(maxStates, ttl, clock), steps))
  {
    if steps == [] {
      BeginRight(maxStates, ttl, clock);
    } else {
      RunRight(maxStates, ttl, clock, steps[..|steps|-1]);
      NextKeeps(Run(Begin(maxStates, ttl, clock), steps[..|steps|-1]), steps[|steps|-1]);
    }
  }

  // --- whose session goes ---

  lemma RoomVictim(m: Manager, caller: Scope, from: Principal, now: int, s: Scope)
    requires Sound(m) && Room(m, caller, from, now).Some? && s in m.sessions &&
             s !in Room(m, caller, from, now).value.sessions
    ensures |m.sessions| >= m.maxStates && m.sessions[s].inflight == 0 && PrincipalOf(s) == from
    ensures from != PrincipalOf(caller) ==> HolderOf(m, from).states > HolderOf(m, PrincipalOf(caller)).states
  {
    assert HolderOf(m, from).idle != [];
    ShareIsIdle(m, from);
    DroppedKeeps(m, HolderOf(m, from).idle[0]);
    assert s == HolderOf(m, from).idle[0];
  }

  lemma StatesOwned(m: Manager, p: Principal)
    requires Sound(m)
    ensures HolderOf(m, p).states == |Owned(m.sessions.Keys, p)|
  {
    assert HolderRight(m.sessions.Keys, m.idle, m.holders, p);
  }

  /** A session dropped to make room was idle, of a full table, and the caller's
      own or of a principal that held strictly more than the caller. */
  lemma VictimHeldMore(w: World, step: Step, s: Scope)
    requires Right(w) && step.Acquire? && s in w.m.sessions && s !in Next(w, step).m.sessions
    ensures |w.m.sessions| >= w.m.maxStates && w.m.sessions[s].inflight == 0
    ensures var p, q := PrincipalOf(step.scope), PrincipalOf(s);
            q != p ==> |Owned(w.m.sessions.Keys, q)| > |Owned(w.m.sessions.Keys, p)|
  {
    RoomVictim(w.m, step.scope, step.from, step.now, s);
    StatesOwned(w.m, PrincipalOf(step.scope));
    StatesOwned(w.m, PrincipalOf(s));
  }

  // --- cost ---

  ghost predicate Within(st: Session, limits: Limits) {
    limits.maxSessionCost > 0 ==> st.cost + st.reserved <= limits.maxSessionCost
  }

  ghost predicate WithinCost(w: World, limits: Scope -> Limits) {
    forall s :: s in w.m.sessions ==> Within(w.m.sessions[s], limits(s))
  }

  /** The limits are fixed, and a call uses no more than it reserved. */
  ghost predicate Frugal(w: World, step: Step, limits: Scope -> Limits) {
    && (step.Acquire? ==> step.limits == limits(step.scope))
    && (step.Complete? && step.lease < |w.leases| ==> NotNegative(step.used) <= w.leases[step.lease].cost)
  }

  lemma RoomWithin(w: World, s: Scope, from: Principal, now: int, limits: Scope -> Limits)
    requires WithinCost(w, limits) && Room(w.m, s, from, now).Some?
    ensures WithinCost(World(Room(w.m, s, from, now).value, w.leases, now), limits)
  {
  }

  lemma StartWithin(w: World, step: Step, m: Manager, limits: Scope -> Limits)
    requires step.Acquire? && step.limits == limits(step.scope) && step.scope in m.sessions &&
             WithinCost(World(m, w.leases, step.now), limits)
    requires Admits(m, step.scope, step.limits, step.tenantMax, NotNegative(step.cost), NotNegative(step.rows))
    ensures forall s :: s in Started(m, step.scope, NotNegative(step.cost), step.now).sessions ==>
              Within(Started(m, step.scope, NotNegative(step.cost), step.now).sessions[s], limits(s))
  {
  }

  lemma AcquireWithin(w: World, step: Step, limits: Scope -> Limits)
    requires WithinCost(w, limits) && step.Acquire? && Frugal(w, step, limits)
    ensures WithinCost(Next(w, step), limits)
  {
    if step.now >= w.clock && Room(w.m, step.scope, step.from, step.now).Some? {
      var m := Room(w.m, step.scope, step.from, step.now).value;
      RoomWithin(w, step.scope, step.from, step.now, limits);
      if step.scope in m.sessions &&
          Admits(m, step.scope, step.limits, step.tenantMax, NotNegative(step.cost), NotNegative(step.rows)) {
        StartWithin(w, step, m, limits);
      }
    }
  }

  lemma CompleteWithin(w: World, step: Step, limits: Scope -> Limits)
    requires WithinCost(w, limits) && step.Complete? && Frugal(w, step, limits)
    ensures WithinCost(Next(w, step), limits)
  {
  }

  lemma CloseWithin(w: World, s: Scope, limits: Scope -> Limits)
    requires SessionsRight(w) && WithinCost(w, limits) && s in w.m.sessions
    ensures WithinCost(w.(m := Closed(w.m, s)), limits)
  {
    assert SessionRight(w, s);
  }

  lemma NextWithin(w: World, step: Step, limits: Scope -> Limits)
    requires SessionsRight(w) && WithinCost(w, limits) && Frugal(w, step, limits)
    ensures WithinCost(Next(w, step), limits)
  {
    match step
    case Expire(now) =>
    case Acquire(_, _, _, _, _, _, _) => AcquireWithin(w, step, limits);
    case Complete(_, _, _) => CompleteWithin(w, step, limits);
    case Close(s) => if s in w.m.sessions { CloseWithin(w, s, limits); }
  }

  ghost predicate FrugalRun(w: World, steps: seq<Step>, limits: Scope -> Limits) {
    steps == [] || (FrugalRun(w, steps[..|steps|-1], limits) &&
        Frugal(Run(w, steps[..|steps|-1]), steps[|steps|-1], limits))
  }

  /** In every such run, what a session used and what its calls reserve stay
      within its limit together. */
  lemma {:induction false} RunWithin(maxStates: nat, ttl: int, clock: int, steps: seq<Step>, limits: Scope -> Limits)
    requires maxStates > 0 && FrugalRun(Begin(maxStates, ttl, clock), steps, limits)
    ensures WithinCost(Run(Begin(maxStates, ttl, clock), steps), limits)
  {
    if steps != [] {
      var front := steps[..|steps|-1];
      RunWithin(maxStates, ttl, clock, front, limits);
      RunRight(maxStates, ttl, clock, front);
      NextWithin(Run(Begin(maxStates, ttl, clock), front), steps[|steps|-1], limits);
    }
  }

  // --- calls at once ---

  /** What a session and a tenant run is within their limits. */
  ghost predicate SessionsBounded(m: Manager, roles: map<string, Limits>, tenants: map<string, Limits>) {
    forall s :: s in m.sessions ==>
      var max := LimitsOf(roles, tenants, s).maxConcurrent; max > 0 ==> m.sessions[s].inflight <= max
  }

  ghost predicate TenantsBounded(m: Manager, tenants: map<string, Limits>) {
    forall t :: TenantConcurrency(tenants, t) > 0 ==> InflightOf(m, t) <= TenantConcurrency(tenants, t)
  }

  /** The step is taken with the limits configured. */
  predicate Configured(step: Step, roles: map<string, Limits>, tenants: map<string, Limits>) {
    step.Acquire? ==>
      && step.limits == LimitsOf(roles, tenants, step.scope)
      && step.tenantMax == TenantConcurrency(tenants, step.scope.tenant)
  }

  lemma OpenedBounded(m: Manager, s: Scope, now: int, roles: map<string, Limits>, tenants: map<string, Limits>)
    requires SessionsBounded(m, roles, tenants) && TenantsBounded(m, tenants)
    ensures var after := Opened(m, s, now); SessionsBounded(after, roles, tenants) && TenantsBounded(after, tenants)
  {
    hide LimitsOf, TenantConcurrency;
    assert forall t :: InflightOf(Opened(m, s, now), t) == InflightOf(m, t);
  }

  lemma DroppedBounded(m: Manager, s: Scope, roles: map<string, Limits>, tenants: map<string, Limits>)
    requires SessionsBounded(m, roles, tenants) && TenantsBounded(m, tenants)
    ensures var after := Dropped(m, s); SessionsBounded(after, roles, tenants) && TenantsBounded(after, tenants)
  {
    hide LimitsOf, TenantConcurrency;
    assert forall t :: InflightOf(Dropped(m, s), t) == InflightOf(m, t);
  }

  lemma RoomBounded(
    m: Manager, s: Scope, from: Principal, now: int, roles: map<string, Limits>, tenants: map<string, Limits>)
    requires Room(m, s, from, now).Some? && SessionsBounded(m, roles, tenants) && TenantsBounded(m, tenants)
    ensures var room := Room(m, s, from, now).value;
                SessionsBounded(room, roles, tenants) && TenantsBounded(room, tenants)
  {
    hide SessionsBounded, TenantsBounded, Opened, Dropped, Yields;
    if s !in m.sessions {
      if |m.sessions| < m.maxStates {
        OpenedBounded(m, s, now, roles, tenants);
      } else {
        var idle := HolderOf(m, from).idle[0];
        DroppedBounded(m, idle, roles, tenants);
        OpenedBounded(Dropped(m, idle), s, now, roles, tenants);
      }
    }
  }

  lemma StartBounded(m: Manager, step: Step, roles: map<string, Limits>, tenants: map<string, Limits>)
    requires step.Acquire? && Configured(step, roles, tenants) && step.scope in m.sessions
    requires Admits(m, step.scope, step.limits, step.tenantMax, NotNegative(step.cost), NotNegative(step.rows))
    requires SessionsBounded(m, roles, tenants) && TenantsBounded(m, tenants)
    ensures var after := Started(m, step.scope, NotNegative(step.cost), step.now);
            SessionsBounded(after, roles, tenants) && TenantsBounded(after, tenants)
  {
    hide LimitsOf;
    var after := Started(m, step.scope, NotNegative(step.cost), step.now);
    assert forall t :: InflightOf(after, t) == InflightOf(m, t) + if t == step.scope.tenant != "" then 1 else 0;
  }

  lemma AcquireBounded(w: World, step: Step, roles: map<string, Limits>, tenants: map<string, Limits>)
    requires step.Acquire? && Configured(step, roles, tenants)
    requires SessionsBounded(w.m, roles, tenants) && TenantsBounded(w.m, tenants)
    ensures var m := Next(w, step).m; SessionsBounded(m, roles, tenants) && TenantsBounded(m, tenants)
  {
    hide SessionsBounded, TenantsBounded, LimitsOf, TenantConcurrency, Room, Started, Admits;
    if step.now >= w.clock && Room(w.m, step.scope, step.from, step.now).Some? {
      var m := Room(w.m, step.scope, step.from, step.now).value;
      RoomBounded(w.m, step.scope, step.from, step.now, roles, tenants);
      if step.scope in m.sessions &&
          Admits(m, step.scope, step.limits, step.tenantMax, NotNegative(step.cost), NotNegative(step.rows)) {
        StartBounded(m, step, roles, tenants);
      }
    }
  }

  lemma EndBounded(
    m: Manager, s: Scope, reserved: int, used: int, now: int, roles: map<string, Limits>, tenants: map<string, Limits>)
    requires s in m.sessions && SessionsBounded(m, roles, tenants) && TenantsBounded(m, tenants)
    ensures var after := Ended(m, s, reserved, used, now);
                SessionsBounded(after, roles, tenants) && TenantsBounded(after, tenants)
  {
    hide LimitsOf, TenantConcurrency;
    var after := Ended(m, s, reserved, used, now);
    assert forall r :: r in after.sessions ==> r in m.sessions && after.sessions[r].inflight <= m.sessions[r].inflight;
    assert forall t :: InflightOf(after, t) <= InflightOf(m, t) || InflightOf(after, t) == 0;
  }

  lemma ClosedBounded(m: Manager, s: Scope, roles: map<string, Limits>, tenants: map<string, Limits>)
    requires s in m.sessions && SessionsBounded(m, roles, tenants) && TenantsBounded(m, tenants)
    ensures var after := Closed(m, s); SessionsBounded(after, roles, tenants) && TenantsBounded(after, tenants)
  {
    hide LimitsOf, TenantConcurrency, Dropped;
    if m.sessions[s].inflight == 0 {
      DroppedBounded(m, s, roles, tenants);
    } else {
      assert forall t :: InflightOf(Closed(m, s), t) == InflightOf(m, t);
    }
  }

  lemma NextBounded(w: World, step: Step, roles: map<string, Limits>, tenants: map<string, Limits>)
    requires Configured(step, roles, tenants) && SessionsBounded(w.m, roles, tenants) && TenantsBounded(w.m, tenants)
    ensures var m := Next(w, step).m; SessionsBounded(m, roles, tenants) && TenantsBounded(m, tenants)
  {
    hide SessionsBounded, TenantsBounded, Ended, Closed, Dropped, Acquired, Configured;
    match step
    case Expire(now) =>
      if now >= w.clock && Expired(w.m, now) {
        DroppedBounded(w.m, w.m.idle[0], roles, tenants);
      }
    case Acquire(_, _, _, _, _, _, _) => AcquireBounded(w, step, roles, tenants);
    case Complete(i, used, now) =>
      if now >= w.clock && i < |w.leases| && w.leases[i].open && w.leases[i].scope in w.m.sessions {
        EndBounded(w.m, w.leases[i].scope, w.leases[i].cost, used, now, roles, tenants);
      }
    case Close(s) =>
      if s in w.m.sessions {
        ClosedBounded(w.m, s, roles, tenants);
      }
  }

  lemma {:induction false} RunBounded(
    maxStates: nat, ttl: int, clock: int, steps: seq<Step>, roles: map<string, Limits>, tenants: map<string, Limits>)
    requires forall i :: 0 <= i < |steps| ==> Configured(steps[i], roles, tenants)
    ensures var m := Run(Begin(maxStates, ttl, clock), steps).m;
                SessionsBounded(m, roles, tenants) && TenantsBounded(m, tenants)
    decreases |steps|
  {
    hide Configured, Next;
    if steps != [] {
      var n := |steps| - 1;
      RunBounded(maxStates, ttl, clock, steps[..n], roles, tenants);
      NextBounded(Run(Begin(maxStates, ttl, clock), steps[..n]), steps[n], roles, tenants);
    }
  }

  /** In every run with the limits configured, no session runs more calls at once
      than its role allows, and the sessions of a tenant together no more than the
      tenant does. */
  lemma RunConcurrent(
    maxStates: nat, ttl: int, clock: int, steps: seq<Step>, roles: map<string, Limits>, tenants: map<string, Limits>,
    s: Scope, tenant: string)
    requires maxStates > 0 && forall i :: 0 <= i < |steps| ==> Configured(steps[i], roles, tenants)
    ensures var leases := Run(Begin(maxStates, ttl, clock), steps).leases;
            && (s.role in roles && roles[s.role].maxConcurrent > 0 ==>
                  Total(Runs(s), leases) <= roles[s.role].maxConcurrent)
            && (tenant != "" && tenant in tenants && tenants[tenant].maxConcurrent > 0 ==>
                  Total(RunsIn(tenant), leases) <= tenants[tenant].maxConcurrent)
  {
    hide Run, Begin;
    var w := Run(Begin(maxStates, ttl, clock), steps);
    RunRight(maxStates, ttl, clock, steps);
    RunBounded(maxStates, ttl, clock, steps, roles, tenants);
    if s in w.m.sessions {
      assert SessionRight(w, s);
    } else {
      NoneOpen(w.leases, s);
    }
  }
}
