/** What every operation of the budget manager keeps. */
module BudgetSound {
  import opened Queues
  import opened Budget

  // --- lists by use ---

  lemma {:induction false} AmongSnoc(p: Principal, idle: seq<Scope>, s: Scope)
    ensures Among(p, idle + [s]) == Among(p, idle) + if PrincipalOf(s) == p then [s] else []
  {
    if idle == [] {
      assert idle + [s] == [s];
    } else {
      assert (idle + [s])[1..] == idle[1..] + [s];
      AmongSnoc(p, idle[1..], s);
    }
  }

  lemma {:induction false} AmongWithout(p: Principal, idle: seq<Scope>, s: Scope)
    ensures Among(p, Without(idle, s)) == if PrincipalOf(s) == p then Without(Among(p, idle), s) else Among(p, idle)
  {
    if idle != [] {
      var first, rest := idle[0], Among(p, idle[1..]);
      AmongWithout(p, idle[1..], s);
      assert Among(p, idle) == if PrincipalOf(first) == p then [first] + rest else rest;
      if first == s {
        assert PrincipalOf(s) == p ==> ([s] + rest)[1..] == rest;
      } else {
        assert Without(idle, s)[1..] == Without(idle[1..], s);
        assert ([first] + rest)[1..] == rest;
      }
    }
  }

  lemma {:induction false} ByUseSnoc(idle: seq<Scope>, sessions: map<Scope, Session>, s: Scope)
    requires ByUse(idle, sessions) && forall r :: r in idle ==> Touch(sessions, r) <= Touch(sessions, s)
    ensures ByUse(idle + [s], sessions)
  {
    if idle == [] {
      assert (idle + [s])[1..] == [];
    } else {
      assert forall r :: r in idle[1..] ==> r in idle;
      ByUseSnoc(idle[1..], sessions, s);
      assert (idle + [s])[1..] == idle[1..] + [s];
      assert idle[0] in idle;
    }
  }

  lemma {:induction false} ByUseWithout(idle: seq<Scope>, sessions: map<Scope, Session>, s: Scope)
    requires ByUse(idle, sessions)
    ensures ByUse(Without(idle, s), sessions)
  {
    if idle != [] && idle[0] != s {
      ByUseWithout(idle[1..], sessions, s);
      assert Without(idle, s)[1..] == Without(idle[1..], s);
    }
  }

  lemma {:induction false} ByUseCong(idle: seq<Scope>, sessions: map<Scope, Session>, after: map<Scope, Session>)
    requires ByUse(idle, sessions) && forall s :: s in idle ==> Touch(sessions, s) == Touch(after, s)
    ensures ByUse(idle, after)
  {
    if idle != [] {
      assert idle[0] in idle && forall s :: s in idle[1..] ==> s in idle;
      ByUseCong(idle[1..], sessions, after);
    }
  }

  lemma {:induction false} WithoutNot<T>(order: seq<T>, keys: set<T>, x: T)
    requires Lists(order, keys)
    ensures x !in Without(order, x)
  {
    if order != [] {
      if order[0] == x {
        ListsMembers(order[1..], keys - {x}, x);
      } else {
        WithoutNot(order[1..], keys - {order[0]}, x);
      }
    }
  }

  // --- shares ---

  lemma OwnedWithout(keys: set<Scope>, s: Scope, p: Principal)
    requires s in keys
    ensures Owned(keys - {s}, p) == Owned(keys, p) - {s}
    ensures PrincipalOf(s) == p ==> |Owned(keys - {s}, p)| == |Owned(keys, p)| - 1
    ensures PrincipalOf(s) != p ==> Owned(keys - {s}, p) == Owned(keys, p)
  {
  }

  lemma OwnedWith(keys: set<Scope>, s: Scope, p: Principal)
    requires s !in keys
    ensures PrincipalOf(s) == p ==>
            Owned(keys + {s}, p) == Owned(keys, p) + {s} && |Owned(keys + {s}, p)| == |Owned(keys, p)| + 1
    ensures PrincipalOf(s) != p ==> Owned(keys + {s}, p) == Owned(keys, p)
  {
    if PrincipalOf(s) != p {
      assert Owned(keys + {s}, p) == Owned(keys, p);
    } else {
      assert Owned(keys + {s}, p) == Owned(keys, p) + {s};
    }
  }

  /** What is listed of an owner's is listed in its share. */
  lemma ListedHolders(keys: set<Scope>, m: Manager, s: Scope)
    requires HoldersRight(keys, m.idle, m.holders) && s in keys
    ensures HoldersRight(keys, Listed(m, s).idle, Listed(m, s).holders)
  {
    forall p ensures HolderRight(keys, Listed(m, s).idle, Listed(m, s).holders, p) {
      assert HolderRight(keys, m.idle, m.holders, p);
      AmongSnoc(p, m.idle, s);
      assert p == PrincipalOf(s) ==> s in Owned(keys, p);
    }
  }

  lemma UnlistedHolders(keys: set<Scope>, m: Manager, s: Scope)
    requires HoldersRight(keys, m.idle, m.holders) && s in keys
    ensures HoldersRight(keys, Unlisted(m, s).idle, Unlisted(m, s).holders)
  {
    forall p ensures HolderRight(keys, Unlisted(m, s).idle, Unlisted(m, s).holders, p) {
      assert HolderRight(keys, m.idle, m.holders, p);
      AmongWithout(p, m.idle, s);
      assert p == PrincipalOf(s) ==> s in Owned(keys, p);
    }
  }

  lemma DroppedHolders(m: Manager, s: Scope)
    requires HoldersRight(m.sessions.Keys, m.idle, m.holders) && s in m.sessions
    ensures var d := Dropped(m, s); HoldersRight(m.sessions.Keys - {s}, d.idle, d.holders)
  {
    var keys, u, d := m.sessions.Keys, Unlisted(m, s), Dropped(m, s);
    UnlistedHolders(keys, m, s);
    forall p ensures HolderRight(keys - {s}, d.idle, d.holders, p) {
      assert HolderRight(keys, u.idle, u.holders, p);
      OwnedWithout(keys, s, p);
      assert p == PrincipalOf(s) ==> s in Owned(keys, p);
    }
  }

  lemma OpenedHolders(m: Manager, s: Scope, now: int)
    requires HoldersRight(m.sessions.Keys, m.idle, m.holders) && s !in m.sessions && s !in m.idle
    requires forall r :: r in m.idle ==> r in m.sessions
    ensures var o := Opened(m, s, now); HoldersRight(m.sessions.Keys + {s}, o.idle, o.holders)
  {
    var keys, h := m.sessions.Keys, HolderOf(m, PrincipalOf(s));
    var b := SetHolder(m.(sessions := m.sessions[s := Session(0, 0, 0, now, false)]), PrincipalOf(s),
        h.(states := h.states + 1));
    forall p ensures HolderRight(keys + {s}, b.idle, b.holders, p) {
      assert HolderRight(keys, m.idle, m.holders, p);
      OwnedWith(keys, s, p);
      if Owned(keys, p) == {} {
        NoneAmong(p, m.idle, keys);
      }
    }
    ListedHolders(keys + {s}, b, s);
  }

  lemma {:induction false} NoneAmong(p: Principal, idle: seq<Scope>, keys: set<Scope>)
    requires Owned(keys, p) == {} && forall r :: r in idle ==> r in keys
    ensures Among(p, idle) == []
  {
    if idle != [] {
      assert idle[0] in idle && forall r :: r in idle[1..] ==> r in idle;
      assert idle[0] !in Owned(keys, p);
      NoneAmong(p, idle[1..], keys);
    }
  }

  // --- the operations ---

  lemma IdleListed(m: Manager, s: Scope)
    requires Lists(m.idle, Idle(m.sessions))
    ensures s in m.idle <==> s in m.sessions && m.sessions[s].inflight == 0
  {
    ListsMembers(m.idle, Idle(m.sessions), s);
  }

  lemma IdleAreSessions(m: Manager)
    requires Lists(m.idle, Idle(m.sessions))
    ensures forall s :: s in m.idle ==> s in m.sessions && m.sessions[s].inflight == 0
  {
    forall s | s in m.idle ensures s in m.sessions && m.sessions[s].inflight == 0 {
      IdleListed(m, s);
    }
  }

  lemma UnlistedIdle(m: Manager, s: Scope)
    requires Lists(m.idle, Idle(m.sessions)) && ByUse(m.idle, m.sessions) && s in m.sessions
    ensures var u := Unlisted(m, s);
            Lists(u.idle, Idle(m.sessions) - {s}) && ByUse(u.idle, m.sessions) && s !in u.idle &&
                u.sessions == m.sessions
  {
    IdleListed(m, s);
    WithoutNot(m.idle, Idle(m.sessions), s);
    if s in m.idle {
      ListsWithout(m.idle, Idle(m.sessions), s);
      ByUseWithout(m.idle, m.sessions, s);
    } else {
      assert Idle(m.sessions) - {s} == Idle(m.sessions);
    }
  }

  lemma DroppedIdle(m: Manager, s: Scope)
    requires Lists(m.idle, Idle(m.sessions)) && ByUse(m.idle, m.sessions) && s in m.sessions
    ensures var d := Dropped(m, s); Lists(d.idle, Idle(d.sessions)) && ByUse(d.idle, d.sessions)
  {
    var d := Dropped(m, s);
    UnlistedIdle(m, s);
    assert d.idle == Unlisted(m, s).idle;
    assert Idle(d.sessions) == Idle(m.sessions) - {s};
    ByUseCong(d.idle, m.sessions, d.sessions);
  }

  lemma DroppedKeeps(m: Manager, s: Scope)
    requires Sound(m) && s in m.sessions
    ensures Sound(Dropped(m, s)) && Dropped(m, s).sessions == m.sessions - {s} && Dropped(m, s).inflight == m.inflight
  {
    DroppedIdle(m, s);
    DroppedHolders(m, s);
    assert Dropped(m, s).sessions.Keys == m.sessions.Keys - {s};
    Smaller(m.sessions, s);
  }

  lemma Smaller(sessions: map<Scope, Session>, s: Scope)
    requires s in sessions
    ensures |sessions - {s}| == |sessions| - 1
  {
    assert (sessions - {s}).Keys == sessions.Keys - {s};
  }

  lemma Larger(sessions: map<Scope, Session>, s: Scope, st: Session)
    requires s !in sessions
    ensures |sessions[s := st]| == |sessions| + 1
  {
    assert sessions[s := st].Keys == sessions.Keys + {s};
  }

  lemma OpenedKeeps(m: Manager, s: Scope, now: int)
    requires Sound(m) && s !in m.sessions && |m.sessions| < m.maxStates && forall r :: r in m.sessions ==>
             m.sessions[r].touched <= now
    ensures Sound(Opened(m, s, now)) && Opened(m, s, now).sessions == m.sessions[s := Session(0, 0, 0, now, false)]
    ensures Opened(m, s, now).inflight == m.inflight
  {
    var o := Opened(m, s, now);
    IdleAreSessions(m);
    assert Idle(o.sessions) == Idle(m.sessions) + {s};
    ListsSnoc(m.idle, Idle(m.sessions), s);
    ByUseCong(m.idle, m.sessions, o.sessions);
    ByUseSnoc(m.idle, o.sessions, s);
    OpenedHolders(m, s, now);
    assert o.sessions.Keys == m.sessions.Keys + {s};
    Larger(m.sessions, s, Session(0, 0, 0, now, false));
  }

  /** A session that is not idle may change without a place in the lists. */
  lemma BusyKeeps(m: Manager, s: Scope, st: Session, inflight: map<string, int>)
    requires Lists(m.idle, Idle(m.sessions) - {s}) && ByUse(m.idle, m.sessions) && s !in m.idle && s in m.sessions &&
             st.inflight != 0
    requires HoldersRight(m.sessions.Keys, m.idle, m.holders) && |m.sessions| <= m.maxStates
    ensures Sound(m.(sessions := m.sessions[s := st], inflight := inflight))
  {
    var after := m.sessions[s := st];
    assert Idle(after) == Idle(m.sessions) - {s};
    ByUseCong(m.idle, m.sessions, after);
    assert after.Keys == m.sessions.Keys;
    assert |after| == |after.Keys| && |m.sessions| == |m.sessions.Keys|;
  }

  lemma StartedKeeps(m: Manager, s: Scope, cost: int, now: int)
    requires Sound(m) && s in m.sessions && m.sessions[s].inflight >= 0
    ensures Sound(Started(m, s, cost, now))
  {
    var u, a := Unlisted(m, s), Started(m, s, cost, now);
    UnlistedIdle(m, s);
    UnlistedHolders(m.sessions.Keys, m, s);
    BusyKeeps(u, s, a.sessions[s], a.inflight);
  }

  lemma ListedKeeps(m: Manager, s: Scope, st: Session, inflight: map<string, int>)
    requires Sound(m) && s in m.sessions && m.sessions[s].inflight != 0 && st.inflight == 0
    requires forall r :: r in m.sessions ==> m.sessions[r].touched <= st.touched
    ensures Sound(Listed(m.(sessions := m.sessions[s := st], inflight := inflight), s))
  {
    var b := m.(sessions := m.sessions[s := st], inflight := inflight);
    IdleAreSessions(m);
    assert Idle(b.sessions) == Idle(m.sessions) + {s};
    ListsSnoc(m.idle, Idle(m.sessions), s);
    ByUseCong(m.idle, m.sessions, b.sessions);
    ByUseSnoc(m.idle, b.sessions, s);
    assert b.sessions.Keys == m.sessions.Keys;
    assert |b.sessions| == |b.sessions.Keys| && |m.sessions| == |m.sessions.Keys|;
    ListedHolders(m.sessions.Keys, b, s);
  }

  lemma EndedKeeps(m: Manager, s: Scope, reserved: int, used: int, now: int)
    requires Sound(m) && s in m.sessions && m.sessions[s].inflight > 0 && forall r :: r in m.sessions ==>
             m.sessions[r].touched <= now
    ensures Sound(Ended(m, s, reserved, used, now))
  {
    var a := Accounted(m, s, reserved, used, now);
    IdleListed(m, s);
    if a.sessions[s].inflight > 0 {
      assert Idle(m.sessions) - {s} == Idle(m.sessions);
      BusyKeeps(m, s, a.sessions[s], a.inflight);
    } else if a.sessions[s].closed {
      DroppedKeeps(m, s);
      assert Dropped(a, s).sessions == Dropped(m, s).sessions;
    } else {
      ListedKeeps(m, s, a.sessions[s], a.inflight);
    }
  }

  lemma ClosedKeeps(m: Manager, s: Scope)
    requires Sound(m) && s in m.sessions
    ensures Sound(Closed(m, s))
  {
    if m.sessions[s].inflight == 0 {
      DroppedKeeps(m, s);
    } else {
      IdleListed(m, s);
      assert Idle(m.sessions) - {s} == Idle(m.sessions);
      BusyKeeps(m, s, Closed(m, s).sessions[s], m.inflight);
    }
  }

  /** A principal's share has an idle session exactly when one of its is idle. */
  lemma ShareIsIdle(m: Manager, p: Principal)
    requires Sound(m) && HolderOf(m, p).idle != []
    ensures var s := HolderOf(m, p).idle[0]; s in m.sessions && m.sessions[s].inflight == 0 && PrincipalOf(s) == p
  {
    assert HolderRight(m.sessions.Keys, m.idle, m.holders, p);
    AmongMembers(p, m.idle, HolderOf(m, p).idle[0]);
    IdleListed(m, HolderOf(m, p).idle[0]);
  }

  lemma {:induction false} AmongMembers(p: Principal, idle: seq<Scope>, s: Scope)
    requires s in Among(p, idle)
    ensures s in idle && PrincipalOf(s) == p
  {
    if idle != [] && s in Among(p, idle[1..]) {
      AmongMembers(p, idle[1..], s);
    }
  }
}
