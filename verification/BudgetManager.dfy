/** The budget manager as it is updated under its lock. */
module BudgetManager {
  import opened Queues
  import opened Budget
  import opened BudgetSound
  import opened BudgetRuns

  /** Every session idle for the time to live is gone. */
  ghost function Pruned(m: Manager, now: int): Manager
    decreases |m.sessions|
  {
    if Expired(m, now) then
      Smaller(m.sessions, m.idle[0]);
      Pruned(Dropped(m, m.idle[0]), now)
    else m
  }

  lemma ShareCounts(m: Manager, p: Principal)
    requires Sound(m) && HolderOf(m, p).idle != []
    ensures HolderOf(m, p).states > 0
  {
    StatesOwned(m, p);
    ShareIsIdle(m, p);
    assert HolderOf(m, p).idle[0] in Owned(m.sessions.Keys, p);
  }

  class MemoryManager {
    var roles: map<string, Limits>
    var tenants: map<string, Limits>
    var sessions: map<Scope, Session>
    var idle: seq<Scope>
    var holders: map<Principal, Holder>
    var inflight: map<string, int>
    const maxStates: nat
    const ttl: int

    ghost function Now(): Manager
      reads this
    {
      Manager(sessions, idle, holders, inflight, maxStates, ttl)
    }

    constructor (roles: map<string, Limits>, tenants: map<string, Limits>, ttl: int, maxStates: int)
      ensures Now() == New(if maxStates <= 0 then 4096 else maxStates, if ttl <= 0 then 1800 else ttl)
    {
      this.roles, this.tenants := roles, tenants;
      this.maxStates := if maxStates <= 0 then 4096 else maxStates;
      this.ttl := if ttl <= 0 then 1800 else ttl;
      sessions, idle, holders, inflight := map[], [], map[], map[];
    }

    method IdleLocked(s: Scope)
      modifies this`idle, this`holders
      ensures Now() == Listed(old(Now()), s)
    {
      var h := if PrincipalOf(s) in holders then holders[PrincipalOf(s)] else Holder(0, []);
      idle := idle + [s];
      holders := holders[PrincipalOf(s) := h.(idle := h.idle + [s])];
    }

    method BusyLocked(s: Scope)
      modifies this`idle, this`holders
      ensures Now() == Unlisted(old(Now()), s)
    {
      if s in idle {
        var h := if PrincipalOf(s) in holders then holders[PrincipalOf(s)] else Holder(0, []);
        idle := Without(idle, s);
        holders := holders[PrincipalOf(s) := h.(idle := Without(h.idle, s))];
      }
    }

    method DropLocked(s: Scope)
      modifies this`idle, this`holders, this`sessions
      ensures Now() == Dropped(old(Now()), s)
    {
      if s in sessions {
        BusyLocked(s);
        sessions := sessions - {s};
        var p := PrincipalOf(s);
        var h := if p in holders then holders[p] else Holder(0, []);
        if h.states <= 1 {
          holders := holders - {p};
        } else {
          holders := holders[p := h.(states := h.states - 1)];
        }
      }
    }

    method PruneLocked(now: int)
      requires Sound(Now())
      modifies this`idle, this`holders, this`sessions
      ensures Now() == Pruned(old(Now()), now) && Sound(Now()) && !Expired(Now(), now)
    {
      while idle != []
        invariant Sound(Now()) && Pruned(Now(), now) == Pruned(old(Now()), now)
        decreases |sessions|
      {
        IdleListed(Now(), idle[0]);
        if now - sessions[idle[0]].touched < ttl {
          return;
        }
        DroppedKeeps(Now(), idle[0]);
        Smaller(sessions, idle[0]);
        DropLocked(idle[0]);
      }
    }

    /** Whose idle session makes room for p, if any may. */
    method VictimLocked(p: Principal) returns (from: Option<Principal>)
      requires Sound(Now())
      ensures from.Some? ==> Yields(Now(), p, from.value) && HolderOf(Now(), from.value).idle != []
      ensures from.None? ==> forall q :: !Yields(Now(), p, q)
    {
      if p in holders && holders[p].idle != [] {
        return Some(p);
      }
      var most: Option<Principal> := None;
      var todo := holders.Keys;
      while todo != {}
        invariant todo <= holders.Keys && (most.Some? ==> HolderOf(Now(), most.value).idle != [])
        invariant forall r :: r in holders && r !in todo && holders[r].idle != [] ==>
                  most.Some? && AtMost(Now(), r, most.value)
        decreases |todo|
      {
        var q :| q in todo;
        todo := todo - {q};
        if holders[q].idle != [] {
          ShareIsIdle(Now(), q);
          if most.Some? {
            ShareIsIdle(Now(), most.value);
          }
          if most.None? || holders[q].states > holders[most.value].states
             || (holders[q].states == holders[most.value].states
                 && sessions[holders[q].idle[0]].touched < sessions[holders[most.value].idle[0]].touched) {
            ghost var before := most;
            most := Some(q);
            forall r | r in holders && r !in todo && holders[r].idle != [] ensures AtMost(Now(), r, q) {
              ShareIsIdle(Now(), r);
              assert r == q || (before.Some? && AtMost(Now(), r, before.value));
            }
          }
        }
      }
      if most.None? || (p in holders && holders[most.value].states <= holders[p].states) {
        return None;
      }
      ShareCounts(Now(), most.value);
      return most;
    }

    /** scope has a state; a full table makes room for a new one, or refuses. */
    method AcquireStateLocked(scope: Scope, now: int) returns (ok: bool, ghost from: Principal)
      requires Sound(Now()) && maxStates > 0
      modifies this`idle, this`holders, this`sessions
      ensures ok ==> Room(old(Now()), scope, from, now) == Some(Now())
      ensures !ok ==> Now() == old(Now()) && forall q :: Room(Now(), scope, q, now).None?
    {
      from := PrincipalOf(scope);
      if scope in sessions {
        return true, from;
      }
      if |sessions| >= maxStates {
        var victim := VictimLocked(PrincipalOf(scope));
        if victim.None? {
          return false, from;
        }
        from := victim.value;
        DropLocked(holders[victim.value].idle[0]);
      }
      var p := PrincipalOf(scope);
      var h := if p in holders then holders[p] else Holder(0, []);
      holders := holders[p := h.(states := h.states + 1)];
      sessions := sessions[scope := Session(0, 0, 0, now, false)];
      IdleLocked(scope);
      return true, from;
    }

    method AcquireWithReservation(
      scope: Scope, cost: int, rows: int, now: int) returns (ok: bool, ghost from: Principal)
      requires Sound(Now()) && maxStates > 0
      modifies this`idle, this`holders, this`sessions, this`inflight
      ensures (Now(), ok) == Outcome(Pruned(old(Now()), now), scope, LimitsOf(roles, tenants, scope),
                                     TenantConcurrency(tenants, scope.tenant), cost, rows, from, now)
    {
      PruneLocked(now);
      var limits := LimitsOf(roles, tenants, scope);
      var reserve, scan := NotNegative(cost), NotNegative(rows);
      var found;
      found, from := AcquireStateLocked(scope, now);
      if !found {
        return false, from;
      }
      var st := sessions[scope];
      if !Fits(limits, st, reserve, scan) {
        return false, from;
      }
      var max := TenantConcurrency(tenants, scope.tenant);
      var running := if scope.tenant in inflight then inflight[scope.tenant] else 0;
      if max > 0 && running >= max {
        return false, from;
      }
      StartLocked(scope, reserve, now);
      return true, from;
    }

    /** A call starts in scope. */
    method StartLocked(scope: Scope, reserve: int, now: int)
      requires scope in sessions
      modifies this`idle, this`holders, this`sessions, this`inflight
      ensures Now() == Started(old(Now()), scope, reserve, now)
    {
      if scope.tenant != "" {
        inflight := inflight[scope.tenant := (if scope.tenant in inflight then inflight[scope.tenant] else 0) + 1];
      }
      BusyLocked(scope);
      var st := sessions[scope];
      sessions := sessions[scope :=
          st.(inflight := st.inflight + 1, reserved := st.reserved + reserve, touched := now)];
    }

    /** A lease of scope completes. */
    method Complete(scope: Scope, reserved: int, used: int, now: int) returns (sessionCost: int)
      requires scope in sessions
      modifies this
      ensures Now() == Ended(old(Now()), scope, reserved, used, now)
      ensures sessionCost == old(sessions[scope]).cost + NotNegative(used)
    {
      hide Dropped, Listed;
      var st := sessions[scope];
      st := st.(inflight := st.inflight - 1);
      var tenant := scope.tenant;
      if tenant != "" {
        var running := (if tenant in inflight then inflight[tenant] else 0) - 1;
        inflight := inflight[tenant := running];
        if running <= 0 {
          inflight := inflight - {tenant};
        }
      }
      st := st.(reserved := st.reserved - reserved);
      if used > 0 {
        st := st.(cost := st.cost + used);
      }
      st := st.(touched := now);
      sessions := sessions[scope := st];
      sessionCost := st.cost;
      assert inflight == Accounted(old(Now()), scope, reserved, used, now).inflight;
      if st.inflight > 0 {
      } else if st.closed {
        DropLocked(scope);
      } else {
        IdleLocked(scope);
      }
    }

    /** The idle scopes of a closed session are dropped; the others are once
        their last call ends. */
    method CloseSession(session: string)
      requires Sound(Now())
      modifies this
      ensures Sound(Now())
      ensures session == "" ==> Now() == old(Now())
      ensures session != "" ==> forall s :: s in sessions <==>
              s in old(sessions) && (s.session == session ==> old(sessions)[s].inflight != 0)
      ensures session != "" ==> forall s :: s in sessions ==>
              sessions[s] == Left(old(sessions)[s], s.session == session)
    {
      if session == "" {
        return;
      }
      var todo := sessions.Keys;
      while todo != {}
        invariant Sound(Now()) && todo <= old(sessions).Keys
        invariant forall s :: s in sessions <==>
                  s in old(sessions) && (s.session == session && s !in todo ==> old(sessions)[s].inflight != 0)
        invariant forall s :: s in sessions ==>
                  sessions[s] == Left(old(sessions)[s], s.session == session && s !in todo)
        decreases |todo|
      {
        var s :| s in todo;
        todo := todo - {s};
        if s.session == session {
          ClosedKeeps(Now(), s);
          if sessions[s].inflight == 0 {
            DroppedKeeps(Now(), s);
            DropLocked(s);
          } else {
            sessions := sessions[s := sessions[s].(cost := 0, closed := true)];
          }
        }
      }
    }
  }

  function Left(st: Session, closing: bool): Session {
    if closing then st.(cost := 0, closed := true) else st
  }

  /** r's share is no larger than q's, and as large only if used no earlier. */
  ghost predicate AtMost(m: Manager, r: Principal, q: Principal) {
    HolderOf(m, r).states <= HolderOf(m, q).states &&
        (HolderOf(m, r).states == HolderOf(m, q).states ==> !Before(m, r, q))
  }
}
