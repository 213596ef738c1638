/** Session budgets: what each session runs and reserves, which sessions are
    idle, and whose state makes room for another. */
module Budget {
  import opened Queues

  datatype Option<T> = None | Some(value: T)

  datatype Scope = Scope(role: string, tenant: string, session: string)

  /** Whose a session is. */
  datatype Principal = Principal(role: string, tenant: string)

  function PrincipalOf(s: Scope): Principal {
    Principal(s.role, s.tenant)
  }

  /** Zero or less is no limit. */
  datatype Limits = Limits(maxConcurrent: int, maxScannedRows: int, maxReturnedRows: int, maxReturnedBytes: int,
      maxSessionCost: int)

  /** The lower of two limits. */
  function Stricter(a: int, b: int): (r: int)
    ensures r > 0 <==> a > 0 || b > 0
    ensures a > 0 ==> r <= a
    ensures b > 0 ==> r <= b
    ensures r == a || r == b
  {
    if b <= 0 then a else if a <= 0 then b else if a < b then a else b
  }

  const NO_LIMITS := Limits(0, 0, 0, 0, 0)

  function Of(limits: map<string, Limits>, name: string): Limits {
    if name in limits then limits[name] else NO_LIMITS
  }

  /** The role's limits, tightened by the tenant's, whose concurrency bounds its
      sessions together instead. */
  function LimitsOf(roles: map<string, Limits>, tenants: map<string, Limits>, s: Scope): Limits {
    var l, t := Of(roles, s.role), Of(tenants, s.tenant);
    if s.tenant == "" || s.tenant !in tenants then l
    else Limits(l.maxConcurrent, Stricter(l.maxScannedRows, t.maxScannedRows),
        Stricter(l.maxReturnedRows, t.maxReturnedRows),
                Stricter(l.maxReturnedBytes, t.maxReturnedBytes), Stricter(l.maxSessionCost, t.maxSessionCost))
  }

  function TenantConcurrency(tenants: map<string, Limits>, tenant: string): int {
    if tenant == "" then 0 else Of(tenants, tenant).maxConcurrent
  }

  datatype Session = Session(inflight: int, cost: int, reserved: int, touched: int, closed: bool)

  /** A principal's share: its sessions, and the idle ones among them. */
  datatype Holder = Holder(states: int, idle: seq<Scope>)

  /** Idle sessions are listed least recently used first. */
  datatype Manager = Manager(
    sessions: map<Scope, Session>, idle: seq<Scope>, holders: map<Principal, Holder>, inflight: map<string, int>,
    maxStates: nat, ttl: int)

  function New(maxStates: nat, ttl: int): Manager {
    Manager(map[], [], map[], map[], maxStates, ttl)
  }

  function HolderOf(m: Manager, p: Principal): Holder {
    if p in m.holders then m.holders[p] else Holder(0, [])
  }

  function InflightOf(m: Manager, tenant: string): int {
    if tenant in m.inflight then m.inflight[tenant] else 0
  }

  function SetHolder(m: Manager, p: Principal, h: Holder): Manager {
    m.(holders := m.holders[p := h])
  }

  // --- the operations ---

  /** s becomes the most recently used idle session. */
  function Listed(m: Manager, s: Scope): Manager {
    var h := HolderOf(m, PrincipalOf(s));
    SetHolder(m.(idle := m.idle + [s]), PrincipalOf(s), h.(idle := h.idle + [s]))
  }

  function Unlisted(m: Manager, s: Scope): Manager {
    if s !in m.idle then m
    else
      var h := HolderOf(m, PrincipalOf(s));
      SetHolder(m.(idle := Without(m.idle, s)), PrincipalOf(s), h.(idle := Without(h.idle, s)))
  }

  function Dropped(m: Manager, s: Scope): Manager {
    if s !in m.sessions then m
    else
      var u := Unlisted(m, s);
      var h := HolderOf(u, PrincipalOf(s));
      u.(sessions := u.sessions - {s},
         holders := if h.states <= 1 then u.holders - {PrincipalOf(s)}
             else u.holders[PrincipalOf(s) := h.(states := h.states - 1)])
  }

  function Opened(m: Manager, s: Scope, now: int): Manager {
    var h := HolderOf(m, PrincipalOf(s));
    Listed(SetHolder(m.(sessions := m.sessions[s := Session(0, 0, 0, now, false)]), PrincipalOf(s),
        h.(states := h.states + 1)), s)
  }

  /** The first idle session has been idle for the time to live. */
  predicate Expired(m: Manager, now: int) {
    m.idle != [] && m.idle[0] in m.sessions && now - m.sessions[m.idle[0]].touched >= m.ttl
  }

  /** A principal with an idle session, which it was last used before q's. */
  predicate Before(m: Manager, q: Principal, r: Principal) {
    && HolderOf(m, q).idle != [] && HolderOf(m, r).idle != []
    && HolderOf(m, q).idle[0] in m.sessions && HolderOf(m, r).idle[0] in m.sessions
    && m.sessions[HolderOf(m, q).idle[0]].touched < m.sessions[HolderOf(m, r).idle[0]].touched
  }

  /** q has idle sessions, and no other that has holds more, or as many and used
      less recently. */
  ghost predicate Most(m: Manager, q: Principal) {
    && HolderOf(m, q).idle != []
    && forall r :: HolderOf(m, r).idle != [] ==>
         HolderOf(m, r).states <= HolderOf(m, q).states &&
         (HolderOf(m, r).states == HolderOf(m, q).states ==> !Before(m, r, q))
  }

  /** A full table makes room for p from its own idle sessions, or else from the
      largest share, if larger than its own. */
  ghost predicate Yields(m: Manager, p: Principal, from: Principal) {
    if HolderOf(m, p).idle != [] then from == p
    else Most(m, from) && HolderOf(m, from).states > HolderOf(m, p).states
  }

  predicate Fits(limits: Limits, st: Session, cost: int, rows: int) {
    && (limits.maxConcurrent > 0 ==> st.inflight < limits.maxConcurrent)
    && (limits.maxScannedRows > 0 ==> rows <= limits.maxScannedRows)
    && (limits.maxSessionCost > 0 ==>
          st.cost < limits.maxSessionCost && st.reserved < limits.maxSessionCost - st.cost &&
          cost <= limits.maxSessionCost - st.cost - st.reserved)
  }

  /** A call starts in s. */
  function Started(m: Manager, s: Scope, cost: int, now: int): Manager
    requires s in m.sessions
  {
    var u := Unlisted(m, s);
    var st := m.sessions[s];
    u.(sessions := u.sessions[s := st.(inflight := st.inflight + 1, reserved := st.reserved + cost, touched := now)],
       inflight := if s.tenant == "" then u.inflight else u.inflight[s.tenant := InflightOf(u, s.tenant) + 1])
  }

  /** A call of s ends: what it reserved is given back, what it used counts. */
  function Accounted(m: Manager, s: Scope, reserved: int, used: int, now: int): Manager
    requires s in m.sessions
  {
    var st := m.sessions[s];
    m.(sessions := m.sessions[s := st.(inflight := st.inflight - 1, reserved := st.reserved - reserved,
                                       cost := st.cost + (if used > 0 then used else 0), touched := now)],
       inflight := if s.tenant == "" then m.inflight
                   else if InflightOf(m, s.tenant) - 1 <= 0 then m.inflight - {s.tenant}
                   else m.inflight[s.tenant := InflightOf(m, s.tenant) - 1])
  }

  function Ended(m: Manager, s: Scope, reserved: int, used: int, now: int): Manager
    requires s in m.sessions
  {
    var a := Accounted(m, s, reserved, used, now);
    if a.sessions[s].inflight > 0 then a
    else if a.sessions[s].closed then Dropped(a, s)
    else Listed(a, s)
  }

  /** The session of s is closed: dropped, or once its last call ends. */
  function Closed(m: Manager, s: Scope): Manager
    requires s in m.sessions
  {
    if m.sessions[s].inflight == 0 then Dropped(m, s)
    else m.(sessions := m.sessions[s := m.sessions[s].(cost := 0, closed := true)])
  }

  // --- what every operation keeps ---

  function Idle(sessions: map<Scope, Session>): set<Scope> {
    set s | s in sessions && sessions[s].inflight == 0
  }

  function Owned(keys: set<Scope>, p: Principal): set<Scope> {
    set s | s in keys && PrincipalOf(s) == p
  }

  /** Those of p among idle, in its order. */
  function Among(p: Principal, idle: seq<Scope>): seq<Scope> {
    if idle == [] then [] else (if PrincipalOf(idle[0]) == p then [idle[0]] else []) + Among(p, idle[1..])
  }

  function Touch(sessions: map<Scope, Session>, s: Scope): int {
    if s in sessions then sessions[s].touched else 0
  }

  /** Least recently used first. */
  ghost predicate ByUse(idle: seq<Scope>, sessions: map<Scope, Session>) {
    idle == [] || ((forall s :: s in idle ==> Touch(sessions, idle[0]) <= Touch(sessions, s)) &&
        ByUse(idle[1..], sessions))
  }

  /** p's share is what the sessions and the idle ones say. */
  ghost predicate HolderRight(keys: set<Scope>, idle: seq<Scope>, holders: map<Principal, Holder>, p: Principal) {
    var owned := Owned(keys, p);
    (p in holders <==> owned != {}) && (p in holders ==> holders[p] == Holder(|owned|, Among(p, idle)))
  }

  ghost predicate HoldersRight(keys: set<Scope>, idle: seq<Scope>, holders: map<Principal, Holder>) {
    forall p :: HolderRight(keys, idle, holders, p)
  }

  /** The idle list has exactly the idle sessions, in the order of their last
      use; the shares add up; and the table is not overfull. */
  ghost predicate Sound(m: Manager) {
    && Lists(m.idle, Idle(m.sessions))
    && ByUse(m.idle, m.sessions)
    && HoldersRight(m.sessions.Keys, m.idle, m.holders)
    && |m.sessions| <= m.maxStates
  }
}
