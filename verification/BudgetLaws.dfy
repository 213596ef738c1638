/** What a session budget grants and charges, said of the calls made and not of
    the counts kept. */
module BudgetLaws {
  import opened Counts
  import opened Budget
  import opened BudgetRuns

  // --- what a session has used ---

  /** The call that a step completes in s, if it does: what it used. */
  ghost function Charged(w: World, step: Step, s: Scope): int {
    if step.Complete? && step.now >= w.clock && step.lease < |w.leases| && w.leases[step.lease].open &&
       w.leases[step.lease].scope == s
    then NotNegative(step.used) else 0
  }

  /** What the calls completed in s used, since its session began or was closed. */
  ghost function Spent(w: World, steps: seq<Step>, s: Scope): int {
    if steps == [] then 0
    else
      var front, last := steps[..|steps| - 1], steps[|steps| - 1];
      var before := Run(w, front);
      if s !in before.m.sessions || s !in Run(w, steps).m.sessions || last == Close(s) then 0
      else Spent(w, front, s) + Charged(before, last, s)
  }

  lemma DroppedCost(m: Manager, s: Scope, r: Scope)
    requires r in Dropped(m, s).sessions
    ensures r in m.sessions && Dropped(m, s).sessions[r] == m.sessions[r]
  {
  }

  lemma RoomCost(m: Manager, s: Scope, from: Principal, now: int, r: Scope)
    requires Room(m, s, from, now).Some? && r in Room(m, s, from, now).value.sessions
    ensures Room(m, s, from, now).value.sessions[r].cost == if r in m.sessions then m.sessions[r].cost else 0
  {
    hide Opened, Dropped, Yields;
    if s !in m.sessions {
      if |m.sessions| < m.maxStates {
        OpenedKeeper(m, s, now, r);
      } else {
        var victim := HolderOf(m, from).idle[0];
        OpenedKeeper(Dropped(m, victim), s, now, r);
        if r != s {
          DroppedCost(m, victim, r);
        }
      }
    }
  }

  lemma OpenedKeeper(m: Manager, s: Scope, now: int, r: Scope)
    requires r in Opened(m, s, now).sessions
    ensures r == s || r in m.sessions
    ensures Opened(m, s, now).sessions[r].cost == if r == s then 0 else m.sessions[r].cost
  {
  }

  lemma StartedCost(m: Manager, s: Scope, cost: int, now: int, r: Scope)
    requires s in m.sessions && r in Started(m, s, cost, now).sessions
    ensures r in m.sessions && Started(m, s, cost, now).sessions[r].cost == m.sessions[r].cost
  {
  }

  lemma EndedCost(m: Manager, s: Scope, reserved: int, used: int, now: int, r: Scope)
    requires s in m.sessions && r in Ended(m, s, reserved, used, now).sessions
    ensures r in m.sessions
    ensures Ended(m, s, reserved, used, now).sessions[r].cost ==
            m.sessions[r].cost + if r == s then NotNegative(used) else 0
  {
  }

  /** What a step charges a session that was there, and is. */
  lemma NextCost(w: World, step: Step, s: Scope)
    requires Right(w) && s in Next(w, step).m.sessions
    ensures Next(w, step).m.sessions[s].cost ==
            if s !in w.m.sessions || step == Close(s) then 0
            else w.m.sessions[s].cost + Charged(w, step, s)
  {
    hide Sound, Started, Ended, Dropped, Opened, Room, Admits;
    if step.Close? {
      if step.scope in w.m.sessions {
        ClosedCost(w.m, step.scope, s);
      }
    } else if step.now >= w.clock {
      match step {
        case Expire(now) => if Expired(w.m, now) { DroppedCost(w.m, w.m.idle[0], s); }
        case Acquire(_, _, _, _, _, _, _) => AcquireCost(w, step, s);
        case Complete(i, used, now) =>
          if i < |w.leases| && w.leases[i].open {
            assert w.leases[i].scope in w.m.sessions;
            EndedCost(w.m, w.leases[i].scope, w.leases[i].cost, used, now, s);
          }
      }
    }
  }

  lemma ClosedCost(m: Manager, s: Scope, r: Scope)
    requires s in m.sessions && r in Closed(m, s).sessions
    ensures r in m.sessions && Closed(m, s).sessions[r].cost == if r == s then 0 else m.sessions[r].cost
  {
  }

  lemma AcquireCost(w: World, step: Step, s: Scope)
    requires step.Acquire? && step.now >= w.clock && s in Next(w, step).m.sessions
    ensures Next(w, step).m.sessions[s].cost == if s !in w.m.sessions then 0 else w.m.sessions[s].cost
  {
    hide Started, Room, Admits;
    match Room(w.m, step.scope, step.from, step.now)
    case None =>
    case Some(room) =>
      if step.scope in room.sessions &&
         Admits(room, step.scope, step.limits, step.tenantMax, NotNegative(step.cost), NotNegative(step.rows)) {
        StartedCost(room, step.scope, NotNegative(step.cost), step.now, s);
      }
      RoomCost(w.m, step.scope, step.from, step.now, s);
  }

  /** In every run a session's cost is the sum of what the calls completed in it
      used, since it began or was closed. */
  lemma {:induction false} CostIsSpent(maxStates: nat, ttl: int, clock: int, steps: seq<Step>, s: Scope)
    requires maxStates > 0 && s in Run(Begin(maxStates, ttl, clock), steps).m.sessions
    ensures Run(Begin(maxStates, ttl, clock), steps).m.sessions[s].cost == Spent(Begin(maxStates, ttl, clock), steps, s)
  {
    hide Right, Next;
    if steps != [] {
      var w, front := Begin(maxStates, ttl, clock), steps[..|steps| - 1];
      RunRight(maxStates, ttl, clock, front);
      NextCost(Run(w, front), steps[|steps| - 1], s);
      if s in Run(w, front).m.sessions {
        CostIsSpent(maxStates, ttl, clock, front, s);
      }
    }
  }

  // --- what is granted ---

  ghost predicate Below(n: int, limit: int) {
    limit > 0 ==> n < limit
  }

  ghost predicate AtMost(n: int, limit: int) {
    limit > 0 ==> n <= limit
  }

  /** One more call, of cost and rows, is within l: of what is read, and of what
      the session used and its calls reserve. */
  ghost predicate Affords(l: Limits, taken: int, cost: int, rows: int) {
    AtMost(rows, l.maxScannedRows) && Below(taken, l.maxSessionCost) && AtMost(taken + cost, l.maxSessionCost)
  }

  ghost function Cost(w: World, s: Scope): int {
    if s in w.m.sessions then w.m.sessions[s].cost else 0
  }

  /** A call is within the limits of its role, and of its tenant if it has some. */
  ghost predicate WithinBudget(
    w: World, roles: map<string, Limits>, tenants: map<string, Limits>, s: Scope, cost: int, rows: int)
  {
    var taken := Cost(w, s) + Total(Reserves(s), w.leases);
    && (s.role in roles ==>
          Affords(roles[s.role], taken, cost, rows) && Below(Total(Runs(s), w.leases), roles[s.role].maxConcurrent))
    && (s.tenant != "" && s.tenant in tenants ==>
          && Affords(tenants[s.tenant], taken, cost, rows)
          && Below(Total(RunsIn(s.tenant), w.leases), tenants[s.tenant].maxConcurrent))
  }

  lemma {:induction false} ReservesPositive(leases: seq<Lease>, s: Scope)
    requires forall i :: 0 <= i < |leases| ==> leases[i].cost >= 0
    ensures Total(Reserves(s), leases) >= 0
  {
    if leases != [] {
      ReservesPositive(leases[..|leases| - 1], s);
    }
  }

  lemma BothAfford(
    roles: map<string, Limits>, tenants: map<string, Limits>, s: Scope, st: Session, cost: int, rows: int)
    requires st.reserved >= 0 && cost >= 0 && rows >= 0
    ensures Fits(LimitsOf(roles, tenants, s), st, cost, rows) <==>
            && (s.role in roles ==>
                  Affords(roles[s.role], st.cost + st.reserved, cost, rows) &&
                  Below(st.inflight, roles[s.role].maxConcurrent))
            && (s.tenant != "" && s.tenant in tenants ==>
                  Affords(tenants[s.tenant], st.cost + st.reserved, cost, rows))
  {
  }

  /** Where its session has room, a call is granted exactly when it is within the
      limits of its role and its tenant. */
  lemma GrantedExactly(w: World, step: Step, roles: map<string, Limits>, tenants: map<string, Limits>)
    requires Right(w) && step.Acquire? && Configured(step, roles, tenants) && step.now >= w.clock
    requires Room(w.m, step.scope, step.from, step.now).Some?
    ensures |Next(w, step).leases| == |w.leases| + 1 <==>
            WithinBudget(w, roles, tenants, step.scope, NotNegative(step.cost), NotNegative(step.rows))
    ensures |Next(w, step).leases| != |w.leases| + 1 ==> Next(w, step).leases == w.leases
  {
    hide Sound, Room, LimitsOf, Fits, Affords;
    var s, room := step.scope, Room(w.m, step.scope, step.from, step.now).value;
    RoomKeeps(w, s, step.from, step.now);
    RoomCost(w.m, s, step.from, step.now, s);
    var after := World(room, w.leases, step.now);
    assert SessionRight(after, s);
    ReservesPositive(w.leases, s);
    BothAfford(roles, tenants, s, room.sessions[s], NotNegative(step.cost), NotNegative(step.rows));
    if s.tenant != "" {
      assert InflightOf(room, s.tenant) == Total(RunsIn(s.tenant), w.leases);
    }
  }
}
