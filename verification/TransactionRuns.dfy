/** Every run of the transaction manager. */
module TransactionRuns {
  import opened Queues
  import opened Transactions

  /** MarkDirty is by a caller that looked the transaction up before. */
  datatype Step =
    | Begin(token: string, session: string, scope: string, connection: string)
    | End(token: string, job: Job)
    | Decide(token: string, contextEnded: bool, answer: Answer)
    | Bury(token: string, now: int)
    | MarkDirty(token: string, targets: set<Target>)
    | UpdateLimits(maxOpen: int)
    | SetConnectionLimit(perConnection: int)
    | Close

  /** Only the caller's own end commits. */
  predicate RollsBack(job: Job) {
    job.Abort? ==> job.outcome.RolledBack? || job.outcome.Expired?
  }

  /** Tokens are never used twice; a step that cannot be taken changes nothing. */
  function Next(m: Manager, step: Step): Manager
    requires Sound(m)
  {
    match step
    case Begin(token, session, scope, connection) => if token in m.txs then m
        else Begun(m, token, Fresh(session, scope, connection))
    case End(token, job) => if token in m.handles && RollsBack(job) then Taken(m, token, job) else m
    case Decide(token, contextEnded, answer) =>
      if token in m.ending && m.ending[token].result.None? then Settled(m, token, contextEnded, answer) else m
    case Bury(token, now) =>
      if token in m.ending && m.ending[token].result.Some? then Buried(m, token, m.ending[token].result.value, now)
          else m
    case MarkDirty(token, targets) => if token in m.txs then Dirtied(m, token, targets) else m
    case UpdateLimits(maxOpen) => m.(maxOpen := maxOpen)
    case SetConnectionLimit(perConnection) => m.(perConnection := perConnection)
    case Close => m.(closed := true)
  }

  // --- the counts ---

  lemma RefusedCounts(m: Manager, token: string, tx: Tx)
    requires CountsRight(m) && KnownRight(m) && token !in m.txs
    ensures CountsRight(Refused(m, token, tx))
  {
    var after := Refused(m, token, tx);
    forall s ensures InScope(after, s) == InScope(m, s) {
    }
    forall c ensures OnConnection(after, c) == OnConnection(m, c) {
    }
  }

  lemma RegisteredScope(m: Manager, token: string, tx: Tx, s: string)
    requires KnownRight(m) && token !in m.txs
    ensures |InScope(Registered(m, token, tx), s)| == |InScope(m, s)| + if tx.scope == s then 1 else 0
  {
    var after := Registered(m, token, tx);
    assert InScope(after, s) == if tx.scope == s then InScope(m, s) + {token} else InScope(m, s);
  }

  lemma RegisteredConnection(m: Manager, token: string, tx: Tx, c: string)
    requires KnownRight(m) && token !in m.txs
    ensures |OnConnection(Registered(m, token, tx), c)| == |OnConnection(m, c)| + if tx.connection == c then 1 else 0
  {
    var after := Registered(m, token, tx);
    assert OnConnection(after, c) == if tx.connection == c then OnConnection(m, c) + {token} else OnConnection(m, c);
  }

  lemma RegisteredCounts(m: Manager, token: string, tx: Tx)
    requires CountsRight(m) && KnownRight(m) && token !in m.txs
    ensures CountsRight(Registered(m, token, tx))
  {
    var after := Registered(m, token, tx);
    forall s ensures CountOf(after.open, s) == |InScope(after, s)| {
      RegisteredScope(m, token, tx, s);
    }
    forall c ensures CountOf(after.byConnection, c) == |OnConnection(after, c)| {
      RegisteredConnection(m, token, tx, c);
    }
  }

  lemma TakenCounts(m: Manager, token: string, job: Job)
    requires CountsRight(m) && KnownRight(m) && token in m.handles
    ensures CountsRight(Taken(m, token, job))
  {
    hide InScope, OnConnection;
    var after := Taken(m, token, job);
    forall s ensures CountOf(after.open, s) == |InScope(after, s)| {
      assert CountOf(m.open, s) == |InScope(m, s)|;
      TakenScope(m, token, job, s);
    }
    forall c ensures CountOf(after.byConnection, c) == |OnConnection(after, c)| {
      assert CountOf(m.byConnection, c) == |OnConnection(m, c)|;
      TakenConnection(m, token, job, c);
    }
  }

  lemma TakenScope(m: Manager, token: string, job: Job, s: string)
    requires KnownRight(m) && token in m.handles
    ensures |InScope(Taken(m, token, job), s)| == |InScope(m, s)| - if m.txs[token].scope == s then 1 else 0
  {
    assert InScope(Taken(m, token, job), s) == InScope(m, s) - {token};
    assert m.txs[token].scope == s <==> token in InScope(m, s);
  }

  lemma TakenConnection(m: Manager, token: string, job: Job, c: string)
    requires KnownRight(m) && token in m.handles
    ensures |OnConnection(Taken(m, token, job), c)| ==
            |OnConnection(m, c)| - if m.txs[token].connection == c then 1 else 0
  {
    assert OnConnection(Taken(m, token, job), c) == OnConnection(m, c) - {token};
    assert m.txs[token].connection == c <==> token in OnConnection(m, c);
  }

  /** Changing no handle, and no transaction's scope or connection, changes no
      count. */
  lemma SameCounts(m: Manager, after: Manager)
    requires CountsRight(m) && KnownRight(m) && after.handles == m.handles && after.txs.Keys == m.txs.Keys
    requires after.open == m.open && after.byConnection == m.byConnection
    requires forall t :: t in m.txs ==>
             after.txs[t].scope == m.txs[t].scope && after.txs[t].connection == m.txs[t].connection
    ensures CountsRight(after)
  {
    forall s ensures InScope(after, s) == InScope(m, s) {
    }
    forall c ensures OnConnection(after, c) == OnConnection(m, c) {
    }
  }

  // --- the tombstones ---

  lemma {:induction false} TrimmedKeeps(m: Manager, now: int)
    requires Lists(m.buried, m.tombstones.Keys)
    ensures var r := Trimmed(m, now);
            && TombsRight(r) && r == m.(tombstones := r.tombstones, buried := r.buried)
            && (forall t :: t in r.tombstones ==> t in m.tombstones && r.tombstones[t] == m.tombstones[t])
    decreases |m.buried|
  {
    if Excess(m, now) {
      var less := m.(tombstones := m.tombstones - {m.buried[0]}, buried := m.buried[1..]);
      assert less.tombstones.Keys == m.tombstones.Keys - {m.buried[0]};
      TrimmedKeeps(less, now);
    }
  }

  // --- the steps ---

  /** A new transaction that is right leaves the others right. */
  lemma OneMore(m: Manager, after: Manager, token: string)
    requires KnownRight(m) && TxsRight(m) && token !in m.txs && token in after.txs
    requires after.txs == m.txs[token := after.txs[token]] && after.handles - {token} == m.handles &&
             after.ending == m.ending
    requires after.tombstones == m.tombstones && after.returned == m.returned
    requires TxRight(after, token) && ReturnedRight(after, token)
    ensures TxsRight(after)
  {
    forall t | t in after.txs ensures TxRight(after, t) && ReturnedRight(after, t) {
      if t != token {
        assert TxRight(m, t) && ReturnedRight(m, t);
        assert t in after.handles <==> t in after.handles - {token};
      }
    }
  }

  lemma RefusedKeeps(m: Manager, token: string, tx: Tx)
    requires Sound(m) && token !in m.txs && OpenRight(tx)
    ensures Sound(Refused(m, token, tx))
  {
    RefusedCounts(m, token, tx);
    OneMore(m, Refused(m, token, tx), token);
  }

  lemma RegisteredKeeps(m: Manager, token: string, tx: Tx)
    requires Sound(m) && token !in m.txs && OpenRight(tx)
    ensures Sound(Registered(m, token, tx))
  {
    RegisteredCounts(m, token, tx);
    OneMore(m, Registered(m, token, tx), token);
  }

  lemma BegunKeeps(m: Manager, token: string, tx: Tx)
    requires Sound(m) && token !in m.txs && OpenRight(tx)
    ensures Sound(Begun(m, token, tx))
  {
    if m.closed || AtCapacity(m, tx.scope, tx.connection) {
      RefusedKeeps(m, token, tx);
    } else {
      RegisteredKeeps(m, token, tx);
    }
  }

  lemma TakenKeeps(m: Manager, token: string, job: Job)
    requires Sound(m) && token in m.handles && RollsBack(job)
    ensures Sound(Taken(m, token, job))
  {
    var after := Taken(m, token, job);
    TakenCounts(m, token, job);
    forall t | t in after.txs ensures TxRight(after, t) && ReturnedRight(after, t) {
      assert TxRight(m, t) && ReturnedRight(m, t);
    }
  }

  /** An end under way finds its transaction not finished, and finishes it. */
  lemma SettleOnce(m: Manager, token: string, contextEnded: bool, answer: Answer)
    requires Sound(m) && token in m.ending && m.ending[token].result.None?
    ensures OpenRight(m.txs[token]) && !HasCommitted(m.txs[token]) && !MayHave(m.txs[token])
    ensures var r := Settle(m.txs[token], m.ending[token].job, contextEnded, answer);
            && DoneRight(r.1, r.0) && r.1.dirty == m.txs[token].dirty
            && r.1.scope == m.txs[token].scope && r.1.connection == m.txs[token].connection
            && (r.2.Some? <==> HasCommitted(r.1) || MayHave(r.1)) && (r.2.Some? ==> r.2.value == m.txs[token].dirty)
  {
    assert TxRight(m, token);
  }

  /** Changing one transaction, its stage aside, leaves the others right. */
  lemma OneChanges(m: Manager, after: Manager, token: string)
    requires TxsRight(m) && token in m.txs && after.txs.Keys == m.txs.Keys && after.handles == m.handles &&
             after.tombstones == m.tombstones
    requires after.ending.Keys == m.ending.Keys
    requires forall t :: t in m.txs && t != token ==>
             after.txs[t] == m.txs[t] && (t in m.ending ==> after.ending[t] == m.ending[t])
    requires forall t :: t != token ==>
             (t in after.returned <==> t in m.returned) && (t in m.returned ==> after.returned[t] == m.returned[t])
    requires TxRight(after, token) && ReturnedRight(after, token)
    ensures TxsRight(after)
  {
    forall t | t in after.txs ensures TxRight(after, t) && ReturnedRight(after, t) {
      assert TxRight(m, t) && ReturnedRight(m, t);
    }
  }

  lemma SettledKeeps(m: Manager, token: string, contextEnded: bool, answer: Answer)
    requires Sound(m) && token in m.ending && m.ending[token].result.None?
    ensures Sound(Settled(m, token, contextEnded, answer))
  {
    hide CountsRight, Settle, OpenRight, DoneRight, EndedOnce, HasCommitted, MayHave;
    var after := Settled(m, token, contextEnded, answer);
    SettleOnce(m, token, contextEnded, answer);
    SameCounts(m, after);
    assert TxRight(m, token) && ReturnedRight(m, token);
    OneChanges(m, after, token);
  }

  lemma BuriedKeeps(m: Manager, token: string, now: int)
    requires Sound(m) && token in m.ending && m.ending[token].result.Some?
    ensures Sound(Buried(m, token, m.ending[token].result.value, now))
  {
    var outcome, tx := m.ending[token].result.value, m.txs[token];
    var added := m.(ending := m.ending - {token}, tombstones :=
        m.tombstones[token := Tombstone(tx.session, tx.scope, outcome, now)], buried := m.buried + [token]);
    var after := Buried(m, token, outcome, now);
    assert TxRight(m, token);
    ListsSnoc(m.buried, m.tombstones.Keys, token);
    assert added.tombstones.Keys == m.tombstones.Keys + {token};
    TrimmedKeeps(added, now);
    SameCounts(m, after);
    forall t | t in after.txs ensures TxRight(after, t) && ReturnedRight(after, t) {
      assert TxRight(m, t) && ReturnedRight(m, t);
    }
  }

  lemma DirtiedKeeps(m: Manager, token: string, targets: set<Target>)
    requires Sound(m) && token in m.txs
    ensures Sound(Dirtied(m, token, targets))
  {
    if !m.txs[token].closed {
      var after := Dirtied(m, token, targets);
      SameCounts(m, after);
      assert TxRight(m, token) && ReturnedRight(m, token);
      OneChanges(m, after, token);
    }
  }

  /** Closing, or another limit, changes no transaction. */
  lemma SettingKeeps(m: Manager, maxOpen: int, perConnection: int, closed: bool)
    requires Sound(m)
    ensures Sound(m.(maxOpen := maxOpen, perConnection := perConnection, closed := closed))
  {
    hide CountsRight;
    var after := m.(maxOpen := maxOpen, perConnection := perConnection, closed := closed);
    SameCounts(m, after);
    forall t | t in after.txs ensures TxRight(after, t) && ReturnedRight(after, t) {
      assert TxRight(m, t) && ReturnedRight(m, t);
    }
  }

  lemma NextKeeps(m: Manager, step: Step)
    requires Sound(m)
    ensures Sound(Next(m, step))
  {
    match step
    case Begin(token, session, scope, connection) =>
        if token !in m.txs { BegunKeeps(m, token, Fresh(session, scope, connection)); }
    case End(token, job) => if token in m.handles && RollsBack(job) { TakenKeeps(m, token, job); }
    case Decide(token, contextEnded, answer) =>
      if token in m.ending && m.ending[token].result.None? { SettledKeeps(m, token, contextEnded, answer); }
    case Bury(token, now) =>
      if token in m.ending && m.ending[token].result.Some? { BuriedKeeps(m, token, now); }
    case MarkDirty(token, targets) => if token in m.txs { DirtiedKeeps(m, token, targets); }
    case UpdateLimits(maxOpen) => SettingKeeps(m, maxOpen, m.perConnection, m.closed);
    case SetConnectionLimit(perConnection) => SettingKeeps(m, m.maxOpen, perConnection, m.closed);
    case Close => SettingKeeps(m, m.maxOpen, m.perConnection, true);
  }

  lemma NewSound(maxOpen: int, perConnection: int)
    ensures Sound(New(maxOpen, perConnection))
  {
    var m := New(maxOpen, perConnection);
    forall s ensures InScope(m, s) == {} {
    }
    forall c ensures OnConnection(m, c) == {} {
    }
  }

  ghost function Run(maxOpen: int, perConnection: int, steps: seq<Step>): (m: Manager)
    ensures Sound(m)
  {
    if steps == [] then
      NewSound(maxOpen, perConnection);
      New(maxOpen, perConnection)
    else
      var before := Run(maxOpen, perConnection, steps[..|steps|-1]);
      NextKeeps(before, steps[|steps|-1]);
      Next(before, steps[|steps|-1])
  }

  // --- every run ---

  datatype Stage = Unknown | Open | Ending | Ended

  function StageOf(m: Manager, token: string): Stage {
    if token !in m.txs then Stage.Unknown
    else if token in m.handles then Open
    else if token in m.ending then Stage.Ending
    else Ended
  }

  function Rank(s: Stage): nat {
    match s case Unknown => 0 case Open => 1 case Ending => 2 case Ended => 3
  }

  /** A transaction only moves on: from open to ending, and from ending to
      ended; one that could not be registered has ended at once. */
  lemma StagesMoveOn(m: Manager, step: Step, token: string)
    requires Sound(m)
    ensures var before, after := StageOf(m, token), StageOf(Next(m, step), token);
            after == before || Rank(after) == Rank(before) + 1 || (before.Unknown? && after.Ended?)
  {
    hide CountsRight, TombsRight, Settle, Begun, Buried;
    if token in m.txs {
      assert TxRight(m, token);
    }
    match step
    case Begin(_, _, _, _) => BeginMoves(m, step, token);
    case Bury(t, now) =>
      if t in m.ending && m.ending[t].result.Some? {
        BuriedSame(m, t, m.ending[t].result.value, now);
      }
    case _ =>
  }

  lemma BeginMoves(m: Manager, step: Step, token: string)
    requires Sound(m) && step.Begin?
    ensures var before, after := StageOf(m, token), StageOf(Next(m, step), token);
            after == before || (before.Unknown? && (after.Open? || after.Ended?))
  {
    hide CountsRight, TombsRight, TxsRight, AtCapacity, Raised;
  }

  lemma BuriedSame(m: Manager, token: string, outcome: Outcome, now: int)
    requires Sound(m) && token in m.ending && m.ending[token].result == Some(outcome)
    ensures var after := Buried(m, token, outcome, now);
                after.txs == m.txs && after.handles == m.handles && after.ending == m.ending - {token}
  {
    var tx := m.txs[token];
    var added := m.(ending := m.ending - {token}, tombstones :=
        m.tombstones[token := Tombstone(tx.session, tx.scope, outcome, now)], buried := m.buried + [token]);
    assert TxRight(m, token);
    ListsSnoc(m.buried, m.tombstones.Keys, token);
    assert added.tombstones.Keys == m.tombstones.Keys + {token};
    TrimmedKeeps(added, now);
  }

  /** In every run the database is told the end of a transaction once, when it
      settles: nothing while it is open. A tombstone says it committed exactly
      when its commit was accepted, and what it wrote is handed out, all of it,
      exactly when it committed or may have. */
  lemma FinishedOnce(maxOpen: int, perConnection: int, steps: seq<Step>, token: string)
    requires token in Run(maxOpen, perConnection, steps).txs
    ensures var m := Run(maxOpen, perConnection, steps);
            var tx, stage := m.txs[token], StageOf(m, token);
            && (tx.sent == [] || EndedOnce(tx.sent))
            && (stage.Open? ==> tx.sent == []) && (stage.Ended? ==> EndedOnce(tx.sent))
            && (token in m.tombstones ==>
                  stage.Ended? && (m.tombstones[token].outcome.Committed? <==> SendCommit(Accepted) in tx.sent))
            && (token in m.returned <==> SendCommit(Accepted) in tx.sent || SendCommit(Broken) in tx.sent) &&
               (token in m.returned ==> m.returned[token] == tx.dirty)
  {
    var m := Run(maxOpen, perConnection, steps);
    assert TxRight(m, token) && ReturnedRight(m, token);
  }

  // --- the limits ---

  /** Only a begin opens more, and not past the limits in force. */
  lemma BegunWithin(m: Manager, token: string, tx: Tx, scope: string, connection: string)
    requires Sound(m) && token !in m.txs
    ensures var after := Begun(m, token, tx);
            && (|InScope(after, scope)| > |InScope(m, scope)| && m.maxOpen > 0 ==> |InScope(after, scope)| <= m.maxOpen)
            && (|OnConnection(after, connection)| > |OnConnection(m, connection)| && m.perConnection > 0 ==>
                  |OnConnection(after, connection)| <= m.perConnection)
  {
    hide InScope, OnConnection, TxsRight, TombsRight, Registered, Refused;
    if m.closed || AtCapacity(m, tx.scope, tx.connection) {
      RefusedSame(m, token, tx, scope, connection);
    } else {
      RegisteredScope(m, token, tx, scope);
      RegisteredConnection(m, token, tx, connection);
    }
  }

  lemma RefusedSame(m: Manager, token: string, tx: Tx, scope: string, connection: string)
    requires KnownRight(m) && token !in m.txs
    ensures InScope(Refused(m, token, tx), scope) == InScope(m, scope)
    ensures OnConnection(Refused(m, token, tx), connection) == OnConnection(m, connection)
  {
  }

  lemma CardinalityLe<A>(a: set<A>, b: set<A>)
    requires a <= b
    ensures |a| <= |b|
  {
    assert |b| == |a| + |b - a| by {
      assert b == a + (b - a) && a !! b - a;
    }
  }

  /** No other step opens a handle. */
  lemma OthersOpenNone(m: Manager, step: Step, scope: string, connection: string)
    requires Sound(m) && !step.Begin?
    ensures InScope(Next(m, step), scope) <= InScope(m, scope)
    ensures OnConnection(Next(m, step), connection) <= OnConnection(m, connection)
  {
    hide CountsRight, TxsRight, TombsRight, Settle;
    match step
    case Decide(token, contextEnded, answer) =>
      if token in m.ending && m.ending[token].result.None? {
        SettleOnce(m, token, contextEnded, answer);
      }
    case Bury(token, now) =>
      if token in m.ending && m.ending[token].result.Some? {
        BuriedSame(m, token, m.ending[token].result.value, now);
      }
    case _ =>
  }

  /** What a step opens is within the limits in force when it is taken. */
  lemma OpensWithin(m: Manager, step: Step, scope: string, connection: string)
    requires Sound(m)
    ensures var after := Next(m, step);
            && (|InScope(after, scope)| > |InScope(m, scope)| && m.maxOpen > 0 ==> |InScope(after, scope)| <= m.maxOpen)
            && (|OnConnection(after, connection)| > |OnConnection(m, connection)| && m.perConnection > 0 ==>
                  |OnConnection(after, connection)| <= m.perConnection)
  {
    hide Sound, InScope, OnConnection, Begun;
    if step.Begin? {
      if step.token !in m.txs {
        BegunWithin(m, step.token, Fresh(step.session, step.scope, step.connection), scope, connection);
      }
    } else {
      OthersOpenNone(m, step, scope, connection);
      CardinalityLe(InScope(Next(m, step), scope), InScope(m, scope));
      CardinalityLe(OnConnection(Next(m, step), connection), OnConnection(m, connection));
    }
  }

  /** Throughout a run each limit on open transactions was set, and to at most b. */
  ghost predicate OpenAtMost(maxOpen: int, perConnection: int, steps: seq<Step>, b: int) {
    forall i :: 0 <= i <= |steps| ==> 0 < Run(maxOpen, perConnection, steps[..i]).maxOpen <= b
  }

  ghost predicate ConnectionAtMost(maxOpen: int, perConnection: int, steps: seq<Step>, b: int) {
    forall i :: 0 <= i <= |steps| ==> 0 < Run(maxOpen, perConnection, steps[..i]).perConnection <= b
  }

  lemma AtMostBefore(maxOpen: int, perConnection: int, steps: seq<Step>, b: int)
    requires steps != []
    ensures OpenAtMost(maxOpen, perConnection, steps, b) ==>
              OpenAtMost(maxOpen, perConnection, steps[..|steps|-1], b) &&
              0 < Run(maxOpen, perConnection, steps[..|steps|-1]).maxOpen <= b
    ensures ConnectionAtMost(maxOpen, perConnection, steps, b) ==>
              ConnectionAtMost(maxOpen, perConnection, steps[..|steps|-1], b) &&
              0 < Run(maxOpen, perConnection, steps[..|steps|-1]).perConnection <= b
  {
    var front := steps[..|steps|-1];
    assert forall i :: 0 <= i <= |front| ==> front[..i] == steps[..i];
    assert steps[..|front|] == front;
  }

  /** A scope, or a connection, has no more transactions open than the highest
      limit that was in force on it. */
  lemma {:induction false} WithinHighest(
    maxOpen: int, perConnection: int, steps: seq<Step>, scope: string, connection: string, b: int)
    ensures OpenAtMost(maxOpen, perConnection, steps, b) ==> |InScope(Run(maxOpen, perConnection, steps), scope)| <= b
    ensures ConnectionAtMost(maxOpen, perConnection, steps, b) ==>
              |OnConnection(Run(maxOpen, perConnection, steps), connection)| <= b
    decreases |steps|
  {
    hide OpenAtMost, ConnectionAtMost, InScope, OnConnection, Next;
    if steps == [] {
      NoneOpen(maxOpen, perConnection, steps, scope, connection, b);
    } else {
      var front := steps[..|steps|-1];
      AtMostBefore(maxOpen, perConnection, steps, b);
      WithinHighest(maxOpen, perConnection, front, scope, connection, b);
      OpensWithin(Run(maxOpen, perConnection, front), steps[|steps|-1], scope, connection);
    }
  }

  lemma NoneOpen(maxOpen: int, perConnection: int, steps: seq<Step>, scope: string, connection: string, b: int)
    requires steps == []
    ensures var m := Run(maxOpen, perConnection, steps); InScope(m, scope) == {} && OnConnection(m, connection) == {}
    ensures OpenAtMost(maxOpen, perConnection, steps, b) ==> 0 < b
    ensures ConnectionAtMost(maxOpen, perConnection, steps, b) ==> 0 < b
  {
    assert steps[..0] == steps;
  }

  predicate Relimits(step: Step) {
    step.UpdateLimits? || step.SetConnectionLimit?
  }

  lemma {:induction false} LimitsStay(maxOpen: int, perConnection: int, steps: seq<Step>)
    requires forall i :: 0 <= i < |steps| ==> !Relimits(steps[i])
    ensures var m := Run(maxOpen, perConnection, steps); m.maxOpen == maxOpen && m.perConnection == perConnection
    decreases |steps|
  {
    if steps != [] {
      var n := |steps| - 1;
      LimitsStay(maxOpen, perConnection, steps[..n]);
      var m := Run(maxOpen, perConnection, steps[..n]);
      StepLimits(m, steps[n]);
    }
  }

  lemma StepLimits(m: Manager, step: Step)
    requires Sound(m) && !Relimits(step)
    ensures Next(m, step).maxOpen == m.maxOpen && Next(m, step).perConnection == m.perConnection
  {
    hide Sound;
    if step.Bury? {
      SoundTombs(m);
      BuryLimits(m, step.token, step.now);
    }
  }

  lemma SoundTombs(m: Manager)
    requires Sound(m)
    ensures m.ending.Keys <= m.txs.Keys
  {
  }

  lemma {:induction false} TrimLimits(m: Manager, now: int)
    ensures Trimmed(m, now).maxOpen == m.maxOpen && Trimmed(m, now).perConnection == m.perConnection
    decreases |m.buried|
  {
    if Excess(m, now) {
      TrimLimits(m.(tombstones := m.tombstones - {m.buried[0]}, buried := m.buried[1..]), now);
    }
  }

  lemma BuryLimits(m: Manager, token: string, now: int)
    requires m.ending.Keys <= m.txs.Keys
    ensures token in m.ending && m.ending[token].result.Some? ==>
              var after := Buried(m, token, m.ending[token].result.value, now);
              after.maxOpen == m.maxOpen && after.perConnection == m.perConnection
  {
    if token in m.ending && m.ending[token].result.Some? {
      var outcome, tx := m.ending[token].result.value, m.txs[token];
      TrimLimits(m.(ending := m.ending - {token}, tombstones :=
          m.tombstones[token := Tombstone(tx.session, tx.scope, outcome, now)],
                    buried := m.buried + [token]), now);
    }
  }

  /** In every run the counts are those of the open handles; with the limits a
      run begins with they are within those. */
  lemma CountsHold(maxOpen: int, perConnection: int, steps: seq<Step>, scope: string, connection: string)
    ensures var m := Run(maxOpen, perConnection, steps);
            && CountOf(m.open, scope) == |InScope(m, scope)|
            && CountOf(m.byConnection, connection) == |OnConnection(m, connection)|
    ensures (forall i :: 0 <= i < |steps| ==> !Relimits(steps[i])) ==>
              var m := Run(maxOpen, perConnection, steps);
              && (maxOpen > 0 ==> |InScope(m, scope)| <= maxOpen)
              && (perConnection > 0 ==> |OnConnection(m, connection)| <= perConnection)
  {
    if forall i :: 0 <= i < |steps| ==> !Relimits(steps[i]) {
      forall i | 0 <= i <= |steps|
        ensures var m := Run(maxOpen, perConnection, steps[..i]);
                    m.maxOpen == maxOpen && m.perConnection == perConnection
      {
        LimitsStay(maxOpen, perConnection, steps[..i]);
      }
      WithinHighest(maxOpen, perConnection, steps, scope, connection, maxOpen);
      WithinHighest(maxOpen, perConnection, steps, scope, connection, perConnection);
    }
  }
}
