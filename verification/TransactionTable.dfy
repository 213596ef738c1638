/** The transaction manager as it is updated under its lock. */
module TransactionTable {
  import opened Transactions
  import TransactionRuns

  /** The caller a tombstone tells, while it is kept. */
  predicate Known(t: Tombstone, session: string, scope: string, now: int) {
    now - t.at < TOMBSTONE_RETENTION && t.session == session && t.scope == scope
  }

  class TransactionManager {
    var txs: map<string, Tx>
    var handles: set<string>
    var open: map<string, int>
    var byConnection: map<string, int>
    var ending: map<string, Ending>
    var tombstones: map<string, Tombstone>
    var buried: seq<string>
    var returned: map<string, set<Target>>
    var maxOpen: int
    var perConnection: int
    var closed: bool

    ghost function Now(): Manager
      reads this
    {
      Manager(txs, handles, open, byConnection, ending, tombstones, buried, returned, maxOpen, perConnection, closed)
    }

    constructor (maxOpen: int, perConnection: int)
      ensures Now() == New(maxOpen, perConnection)
    {
      txs, handles, open, byConnection, ending := map[], {}, map[], map[], map[];
      tombstones, buried, returned, closed := map[], [], map[], false;
      this.maxOpen, this.perConnection := maxOpen, perConnection;
    }

    /** For every later begin. */
    method UpdateLimits(maxOpen: int)
      modifies this`maxOpen
      ensures Now() == old(Now()).(maxOpen := maxOpen)
    {
      this.maxOpen := maxOpen;
    }

    method SetConnectionLimit(n: int)
      modifies this`perConnection
      ensures Now() == old(Now()).(perConnection := n)
    {
      perConnection := n;
    }

    /** Registers a transaction begun, or rolls it back. */
    method AddHandle(token: string, tx: Tx) returns (ok: bool)
      modifies this`txs, this`handles, this`open, this`byConnection
      ensures Now() == Begun(old(Now()), token, tx)
      ensures ok <==> !closed && !AtCapacity(old(Now()), tx.scope, tx.connection)
    {
      var ofScope, ofConnection := CountOf(open, tx.scope), CountOf(byConnection, tx.connection);
      if closed || (maxOpen > 0 && ofScope >= maxOpen) || (perConnection > 0 && ofConnection >= perConnection) {
        txs := txs[token := RolledBackTx(tx)];
        return false;
      }
      txs := txs[token := tx];
      handles := handles + {token};
      open := open[tx.scope := ofScope + 1];
      byConnection := byConnection[tx.connection := ofConnection + 1];
      return true;
    }

    method RemoveLocked(token: string)
      requires token in txs
      modifies this`handles, this`open, this`byConnection
      ensures handles == old(handles) - {token} && open == Lowered(old(open), txs[token].scope)
      ensures byConnection == Lowered(old(byConnection), txs[token].connection)
    {
      var scope, connection := txs[token].scope, txs[token].connection;
      handles := handles - {token};
      var left := CountOf(open, scope) - 1;
      if left <= 0 {
        open := open - {scope};
      } else {
        open := open[scope := left];
      }
      left := CountOf(byConnection, connection) - 1;
      if left <= 0 {
        byConnection := byConnection - {connection};
      } else {
        byConnection := byConnection[connection := left];
      }
    }

    method EndingLocked(token: string, job: Job)
      requires token in txs
      modifies this`handles, this`open, this`byConnection, this`ending
      ensures Now() == Taken(old(Now()), token, job)
    {
      RemoveLocked(token);
      ending := ending[token := Ending(job, None)];
    }

    /** Commits or rolls back, as the job says. */
    method Finish(token: string, contextEnded: bool, answer: Answer) returns (targets: Option<set<Target>>)
      requires token in txs && token in ending
      modifies this`txs, this`ending, this`returned
      ensures Now() == Settled(old(Now()), token, contextEnded, answer)
      ensures targets == Settle(old(txs[token]), old(ending[token]).job, contextEnded, answer).2
    {
      var tx, job := txs[token], ending[token].job;
      var outcome := RolledBack;
      targets := None;
      if job.Abort? {
        outcome := job.outcome;
      }
      if !tx.closed {
        tx := tx.(closed := true);
        if job.Abort? || contextEnded || !job.commit {
          tx := tx.(sent := tx.sent + [SendRollback]);
        } else {
          tx := tx.(sent := tx.sent + [SendCommit(answer)]);
          if !answer.Accepted? {
            tx := tx.(sent := tx.sent + [SendRollback]);
          }
          if answer.Broken? {
            outcome, targets := Outcome.Unknown, Some(tx.dirty);
          } else if answer.Accepted? {
            outcome, targets := Committed, Some(tx.dirty);
          }
        }
      }
      txs := txs[token := tx];
      ending := ending[token := ending[token].(result := Some(outcome))];
      if targets.Some? {
        returned := returned[token := targets.value];
      }
    }

    method BuryLocked(token: string, outcome: Outcome, now: int)
      requires token in txs
      modifies this`ending, this`tombstones, this`buried
      ensures Now() == Buried(old(Now()), token, outcome, now)
    {
      ending := ending - {token};
      tombstones := tombstones[token := Tombstone(txs[token].session, txs[token].scope, outcome, now)];
      buried := buried + [token];
      while |buried| > 0
        invariant Trimmed(Now(), now) == Buried(old(Now()), token, outcome, now)
        decreases |buried|
      {
        var oldest := buried[0];
        if |buried| <= MAX_TOMBSTONES && oldest in tombstones && now - tombstones[oldest].at < TOMBSTONE_RETENTION {
          break;
        }
        tombstones := tombstones - {oldest};
        buried := buried[1..];
      }
    }

    /** How the transaction of token ended, for the caller it was bound to. */
    method EndedError(token: string, session: string, scope: string, now: int) returns (outcome: Option<Outcome>)
      ensures outcome.Some? <==> token in tombstones && Known(tombstones[token], session, scope, now)
      ensures outcome.Some? ==> outcome.value == tombstones[token].outcome
    {
      if token !in tombstones {
        return None;
      }
      var t := tombstones[token];
      if now - t.at >= TOMBSTONE_RETENTION || t.session != session || t.scope != scope {
        return None;
      }
      return Some(t.outcome);
    }

    /** Every open handle of the session is taken, to be rolled back. */
    method RollbackSession(session: string)
      requires Sound(Now())
      modifies this`handles, this`open, this`byConnection, this`ending
      ensures Sound(Now())
      ensures session == "" ==> Now() == old(Now())
      ensures session != "" ==> forall t :: t in handles <==> t in old(handles) && txs[t].session != session
      ensures forall t :: t in old(handles) && t !in handles ==>
              t in ending && ending[t] == Ending(Abort(RolledBack), None)
    {
      if session != "" {
        TakeAll(session, false);
      }
    }

    /** No more is begun; every open handle is taken, to be rolled back. */
    method Close()
      requires Sound(Now())
      modifies this`closed, this`handles, this`open, this`byConnection, this`ending
      ensures Sound(Now()) && closed
      ensures !old(closed) ==> handles == {} && forall t :: t in old(handles) ==>
              t in ending && ending[t] == Ending(Abort(RolledBack), None)
    {
      if closed {
        return;
      }
      TransactionRuns.SettingKeeps(Now(), maxOpen, perConnection, true);
      closed := true;
      TakeAll("", true);
      assert handles == {};
    }

    method TakeAll(session: string, every: bool)
      requires Sound(Now())
      modifies this`handles, this`open, this`byConnection, this`ending
      ensures Sound(Now())
      ensures forall t :: t in handles <==> t in old(handles) && !every && txs[t].session != session
      ensures forall t :: t in old(handles) && t !in handles ==>
              t in ending && ending[t] == Ending(Abort(RolledBack), None)
    {
      var todo := handles;
      while todo != {}
        invariant Sound(Now()) && todo <= old(handles)
        invariant forall t :: t in handles <==>
                  t in old(handles) && (t in todo || (!every && txs[t].session != session))
        invariant forall t :: t in old(handles) && t !in handles ==>
                  t in ending && ending[t] == Ending(Abort(RolledBack), None)
        decreases |todo|
      {
        var token :| token in todo;
        todo := todo - {token};
        if every || txs[token].session == session {
          TransactionRuns.TakenKeeps(Now(), token, Abort(RolledBack));
          EndingLocked(token, Abort(RolledBack));
        }
      }
    }
  }
}
