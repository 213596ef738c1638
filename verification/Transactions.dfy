/** Explicit transactions: open, then ending, then ended; whichever of commit,
    rollback, expiry, idleness, failure, session end or shutdown comes first
    finishes one, once. Each function below is one locked section. */
module Transactions {
  import opened Queues

  datatype Option<T> = None | Some(value: T)

  datatype Target = Target(physical: string, relation: string)

  datatype Outcome = Committed | RolledBack | Expired | Unknown

  /** What the database answers a commit. */
  datatype Answer = Accepted | Broken | Rejected

  /** What the database is told to end a transaction. */
  datatype Call = SendCommit(answer: Answer) | SendRollback

  /** sent is what the database was told, in order. */
  datatype Tx = Tx(
    session: string, scope: string, connection: string, dirty: set<Target>, closed: bool, sent: seq<Call>)

  /** Who ends a transaction: its caller, or anything else that rolls it back. */
  datatype Job = Finish(commit: bool) | Abort(outcome: Outcome)

  /** A transaction whose end is under way, and how it ended, once it did. */
  datatype Ending = Ending(job: Job, result: Option<Outcome>)

  datatype Tombstone = Tombstone(session: string, scope: string, outcome: Outcome, at: int)

  const TOMBSTONE_RETENTION := 600
  const MAX_TOMBSTONES := 4096

  /** Transactions are known by their tokens; handles are those open. returned
      are the targets handed to the callers who committed. */
  datatype Manager = Manager(
    txs: map<string, Tx>, handles: set<string>, open: map<string, int>, byConnection: map<string, int>,
    ending: map<string, Ending>, tombstones: map<string, Tombstone>, buried: seq<string>,
    returned: map<string, set<Target>>, maxOpen: int, perConnection: int, closed: bool)

  function New(maxOpen: int, perConnection: int): Manager {
    Manager(map[], {}, map[], map[], map[], map[], [], map[], maxOpen, perConnection, false)
  }

  function CountOf(counts: map<string, int>, key: string): int {
    if key in counts then counts[key] else 0
  }

  function Raised(counts: map<string, int>, key: string): map<string, int> {
    counts[key := CountOf(counts, key) + 1]
  }

  function Lowered(counts: map<string, int>, key: string): map<string, int> {
    if CountOf(counts, key) - 1 <= 0 then counts - {key} else counts[key := CountOf(counts, key) - 1]
  }

  // --- beginning and ending ---

  function Fresh(session: string, scope: string, connection: string): Tx {
    Tx(session, scope, connection, {}, false, [])
  }

  predicate AtCapacity(m: Manager, scope: string, connection: string) {
    || (m.maxOpen > 0 && CountOf(m.open, scope) >= m.maxOpen)
    || (m.perConnection > 0 && CountOf(m.byConnection, connection) >= m.perConnection)
  }

  /** One that cannot be registered is rolled back. */
  function RolledBackTx(tx: Tx): Tx {
    tx.(closed := true, sent := tx.sent + [SendRollback])
  }

  function Refused(m: Manager, token: string, tx: Tx): Manager {
    m.(txs := m.txs[token := RolledBackTx(tx)])
  }

  function Registered(m: Manager, token: string, tx: Tx): Manager {
    m.(txs := m.txs[token := tx], handles := m.handles + {token},
       open := Raised(m.open, tx.scope), byConnection := Raised(m.byConnection, tx.connection))
  }

  function Begun(m: Manager, token: string, tx: Tx): Manager {
    if m.closed || AtCapacity(m, tx.scope, tx.connection) then Refused(m, token, tx) else Registered(m, token, tx)
  }

  /** A handle is dropped and recorded as ending. */
  function Taken(m: Manager, token: string, job: Job): Manager
    requires token in m.txs
  {
    m.(handles := m.handles - {token}, ending := m.ending[token := Ending(job, None)],
       open := Lowered(m.open, m.txs[token].scope), byConnection := Lowered(m.byConnection, m.txs[token].connection))
  }

  // --- finishing ---

  /** A commit that fails is rolled back after it. */
  function CommittedTx(tx: Tx, answer: Answer): Tx {
    var done := tx.(closed := true, sent := tx.sent + [SendCommit(answer)]);
    if answer.Accepted? then done else RolledBackTx(done)
  }

  /** How the job ends tx: the outcome recorded, the transaction after it, and
      the targets returned. contextEnded is whether the caller's request was
      over before it began. */
  function Settle(tx: Tx, job: Job, contextEnded: bool, answer: Answer): (Outcome, Tx, Option<set<Target>>) {
    match job
    case Abort(outcome) => (outcome, if tx.closed then tx else RolledBackTx(tx), None)
    case Finish(commit) =>
      if tx.closed then (RolledBack, tx, None)
      else if contextEnded || !commit then (RolledBack, RolledBackTx(tx), None)
      else
        var done := CommittedTx(tx, answer);
        match answer
        case Rejected => (RolledBack, done, None)
        case Broken => (Unknown, done, Some(tx.dirty))
        case Accepted => (Committed, done, Some(tx.dirty))
  }

  function Settled(m: Manager, token: string, contextEnded: bool, answer: Answer): Manager
    requires token in m.txs && token in m.ending
  {
    var r := Settle(m.txs[token], m.ending[token].job, contextEnded, answer);
    m.(txs := m.txs[token := r.1], ending := m.ending[token := m.ending[token].(result := Some(r.0))],
       returned := if r.2.Some? then m.returned[token := r.2.value] else m.returned)
  }

  // --- tombstones ---

  predicate Excess(m: Manager, now: int) {
    m.buried != [] &&
    !(|m.buried| <= MAX_TOMBSTONES && m.buried[0] in m.tombstones &&
        now - m.tombstones[m.buried[0]].at < TOMBSTONE_RETENTION)
  }

  /** The oldest tombstones go while there are too many, or they are too old. */
  function Trimmed(m: Manager, now: int): Manager
    decreases |m.buried|
  {
    if Excess(m, now) then Trimmed(m.(tombstones := m.tombstones - {m.buried[0]}, buried := m.buried[1..]), now) else m
  }

  function Buried(m: Manager, token: string, outcome: Outcome, now: int): Manager
    requires token in m.txs
  {
    var tx := m.txs[token];
    Trimmed(m.(ending := m.ending - {token}, tombstones :=
        m.tombstones[token := Tombstone(tx.session, tx.scope, outcome, now)],
               buried := m.buried + [token]), now)
  }

  function Dirtied(m: Manager, token: string, targets: set<Target>): Manager
    requires token in m.txs
  {
    if m.txs[token].closed then m
    else m.(txs := m.txs[token := m.txs[token].(dirty := m.txs[token].dirty + targets)])
  }

  // --- what every step keeps ---

  /** The database accepted its commit; it may have. */
  predicate HasCommitted(tx: Tx) {
    SendCommit(Accepted) in tx.sent
  }

  predicate MayHave(tx: Tx) {
    SendCommit(Broken) in tx.sent
  }

  /** The database was told one end: a rollback, a commit it accepted, or a
      commit it did not and then a rollback. */
  predicate EndedOnce(sent: seq<Call>) {
    || sent == [SendRollback] || sent == [SendCommit(Accepted)]
    || (|sent| == 2 && sent[0].SendCommit? && !sent[0].answer.Accepted? && sent[1] == SendRollback)
  }

  ghost predicate OpenRight(tx: Tx) {
    !tx.closed && tx.sent == []
  }

  /** Ended once; committed exactly when the outcome says so. */
  ghost predicate DoneRight(tx: Tx, outcome: Outcome) {
    && tx.closed && EndedOnce(tx.sent)
    && (outcome.Committed? <==> HasCommitted(tx)) && (outcome.Unknown? <==> MayHave(tx))
  }

  /** A transaction is finished once, when its end is settled, and not before. */
  ghost predicate TxRight(m: Manager, token: string)
    requires token in m.txs
  {
    var tx := m.txs[token];
    if token in m.handles then OpenRight(tx) && token !in m.ending && token !in m.tombstones
    else if token in m.ending then
      && token !in m.tombstones
      && !(m.ending[token].job.Abort? &&
         (m.ending[token].job.outcome.Committed? || m.ending[token].job.outcome.Unknown?))
      && (match m.ending[token].result case None => OpenRight(tx) case Some(o) => DoneRight(tx, o))
    else tx.closed && EndedOnce(tx.sent) && (token in m.tombstones ==> DoneRight(tx, m.tombstones[token].outcome))
  }

  ghost predicate ReturnedRight(m: Manager, token: string)
    requires token in m.txs
  {
    var tx := m.txs[token];
    && (token in m.returned <==> HasCommitted(tx) || MayHave(tx))
    && (token in m.returned ==> m.returned[token] == tx.dirty)
  }

  ghost predicate TxsRight(m: Manager) {
    forall t :: t in m.txs ==> TxRight(m, t) && ReturnedRight(m, t)
  }

  ghost predicate KnownRight(m: Manager) {
    m.handles <= m.txs.Keys && m.ending.Keys <= m.txs.Keys && m.tombstones.Keys <= m.txs.Keys &&
        m.returned.Keys <= m.txs.Keys
  }

  ghost function InScope(m: Manager, scope: string): set<string> {
    set t | t in m.handles && t in m.txs && m.txs[t].scope == scope
  }

  ghost function OnConnection(m: Manager, connection: string): set<string> {
    set t | t in m.handles && t in m.txs && m.txs[t].connection == connection
  }

  /** The counts are those of the open handles. */
  ghost predicate CountsRight(m: Manager) {
    && (forall s :: CountOf(m.open, s) == |InScope(m, s)|)
    && (forall c :: CountOf(m.byConnection, c) == |OnConnection(m, c)|)
  }

  ghost predicate TombsRight(m: Manager) {
    Lists(m.buried, m.tombstones.Keys) && |m.buried| <= MAX_TOMBSTONES
  }

  ghost predicate Sound(m: Manager) {
    KnownRight(m) && TxsRight(m) && CountsRight(m) && TombsRight(m)
  }
}
