/** What the database is told of a transaction, against what was asked of the
    manager: the end that took it, and how that end was settled. */
module TransactionHistory {
  import opened Transactions
  import opened TransactionRuns
  import Queues

  // --- the steps that ended it ---

  /** The i-th step is the end that took the transaction of token. */
  ghost predicate TakenBy(maxOpen: int, perConnection: int, steps: seq<Step>, token: string, job: Job, i: nat) {
    && i < |steps| && steps[i] == Step.End(token, job)
    && token in Run(maxOpen, perConnection, steps[..i]).handles
    && token !in Run(maxOpen, perConnection, steps[..i + 1]).handles
  }

  /** The j-th step settled it: over is whether the request of the caller was over
      by then, answer what the database would answer a commit. */
  ghost predicate SettledBy(
    maxOpen: int, perConnection: int, steps: seq<Step>, token: string, over: bool, answer: Answer, j: nat)
  {
    && j < |steps| && steps[j] == Decide(token, over, answer)
    && var m := Run(maxOpen, perConnection, steps[..j]); token in m.ending && m.ending[token].result.None?
  }

  /** How a transaction went: taken by the i-th step, for job, and settled by the
      j-th. */
  datatype Course = Course(i: nat, job: Job, j: nat, over: bool, answer: Answer)

  ghost predicate EndedBy(maxOpen: int, perConnection: int, steps: seq<Step>, token: string, c: Course) {
    && c.i < c.j && TakenBy(maxOpen, perConnection, steps, token, c.job, c.i)
    && SettledBy(maxOpen, perConnection, steps, token, c.over, c.answer, c.j)
  }

  ghost predicate NeverOpen(maxOpen: int, perConnection: int, steps: seq<Step>, token: string) {
    forall i :: 0 <= i <= |steps| ==> token !in Run(maxOpen, perConnection, steps[..i]).handles
  }

  // --- what it is told ---

  /** A commit, when its caller asked for one in time, and a rollback after one
      that fails; a rollback alone otherwise. */
  predicate Told(c: Course, sent: seq<Call>) {
    if c.job == Finish(true) && !c.over then
      sent == [SendCommit(c.answer)] + if c.answer == Accepted then [] else [SendRollback]
    else sent == [SendRollback]
  }

  /** The outcome recorded tells what happened. */
  predicate Says(c: Course, outcome: Outcome, sent: seq<Call>) {
    && (outcome.Committed? <==> SendCommit(Accepted) in sent)
    && (outcome.Unknown? <==> SendCommit(Broken) in sent)
    && (outcome.Expired? <==> c.job == Abort(Expired))
  }

  // --- the history of a run ---

  /** What the run so far did to the transaction of token. */
  ghost predicate Traced(maxOpen: int, perConnection: int, steps: seq<Step>, token: string) {
    var m := Run(maxOpen, perConnection, steps);
    token in m.txs ==>
      var tx := m.txs[token];
      if token in m.handles then tx.sent == []
      else if token in m.ending && m.ending[token].result.None? then
        tx.sent == [] && exists i :: TakenBy(maxOpen, perConnection, steps, token, m.ending[token].job, i)
      else if token in m.ending then
        exists c :: EndedBy(maxOpen, perConnection, steps, token, c) && Told(c, tx.sent) &&
                    Says(c, m.ending[token].result.value, tx.sent)
      else
        || (NeverOpen(maxOpen, perConnection, steps, token) && tx.sent == [SendRollback] && token !in m.tombstones)
        || exists c :: EndedBy(maxOpen, perConnection, steps, token, c) && Told(c, tx.sent) &&
                       (token in m.tombstones ==> Says(c, m.tombstones[token].outcome, tx.sent))
  }

  lemma TakenStays(maxOpen: int, perConnection: int, steps: seq<Step>, token: string, job: Job, i: nat)
    requires steps != [] && TakenBy(maxOpen, perConnection, steps[..|steps| - 1], token, job, i)
    ensures TakenBy(maxOpen, perConnection, steps, token, job, i)
  {
    hide Sound, Run;
    var front := steps[..|steps| - 1];
    assert front[..i] == steps[..i] && front[..i + 1] == steps[..i + 1];
  }

  lemma EndedStays(maxOpen: int, perConnection: int, steps: seq<Step>, token: string, c: Course)
    requires steps != [] && EndedBy(maxOpen, perConnection, steps[..|steps| - 1], token, c)
    ensures EndedBy(maxOpen, perConnection, steps, token, c)
  {
    hide Sound, Run, TakenBy;
    TakenStays(maxOpen, perConnection, steps, token, c.job, c.i);
    assert steps[..|steps| - 1][..c.j] == steps[..c.j];
  }

  // --- one step ---

  /** A step leaves the transaction of token as it is, its dirty targets aside;
      its tombstone may go. */
  ghost predicate Leaves(m: Manager, after: Manager, token: string) {
    && token in m.txs && token in after.txs && after.txs[token].sent == m.txs[token].sent
    && (token in after.handles <==> token in m.handles)
    && (token in after.ending <==> token in m.ending)
    && (token in m.ending ==> after.ending[token] == m.ending[token])
    && (token in after.tombstones ==> token in m.tombstones && after.tombstones[token] == m.tombstones[token])
  }

  ghost predicate Takes(m: Manager, step: Step, after: Manager, token: string) {
    && token in m.handles && token in after.txs && after.txs[token].sent == []
    && token !in after.handles && token in after.ending
    && after.ending[token].result.None? && step == Step.End(token, after.ending[token].job)
  }

  ghost predicate Settles(m: Manager, step: Step, after: Manager, token: string) {
    && token in m.ending && m.ending[token].result.None? && step.Decide? && step.token == token
    && token in after.txs && token !in after.handles && token in after.ending
    && after.ending[token].job == m.ending[token].job && after.ending[token].result.Some?
    && forall i, j :: var c := Course(i, m.ending[token].job, j, step.contextEnded, step.answer);
                      Told(c, after.txs[token].sent) && Says(c, after.ending[token].result.value, after.txs[token].sent)
  }

  ghost predicate Buries(m: Manager, after: Manager, token: string) {
    && token in m.ending && m.ending[token].result.Some? && token in m.txs
    && token in after.txs && after.txs[token].sent == m.txs[token].sent
    && token !in after.handles && token !in after.ending
    && (token in after.tombstones ==> after.tombstones[token].outcome == m.ending[token].result.value)
  }

  /** It is new: open, or refused and rolled back. */
  ghost predicate Begins(m: Manager, after: Manager, token: string) {
    && token !in m.txs && token in after.txs && token !in after.ending && token !in after.tombstones
    && after.txs[token].sent == if token in after.handles then [] else [SendRollback]
  }

  lemma BeginStep(m: Manager, step: Step, token: string)
    requires Sound(m) && step.Begin? && step.token !in m.txs
    ensures var after := Next(m, step);
            if step.token == token then Begins(m, after, token) else token in m.txs ==> Leaves(m, after, token)
    ensures token !in m.txs && token != step.token ==> token !in Next(m, step).txs
  {
    hide CountsRight, TxsRight, TombsRight, AtCapacity, Raised;
  }

  lemma EndStep(m: Manager, step: Step, token: string)
    requires Sound(m) && step.End? && step.token in m.handles && RollsBack(step.job) && token in m.txs
    ensures var after := Next(m, step);
            if step.token == token then Takes(m, step, after, token) else Leaves(m, after, token)
  {
    hide Sound, Lowered;
    OpenHandle(m, step.token);
  }

  lemma OpenHandle(m: Manager, token: string)
    requires Sound(m) && token in m.handles
    ensures token in m.txs && m.txs[token].sent == []
  {
    assert TxRight(m, token);
  }

  /** An open transaction's end tells the database what was asked, and records
      what happened. */
  lemma SettleTells(tx: Tx, c: Course)
    requires OpenRight(tx) && RollsBack(c.job)
    ensures var r := Settle(tx, c.job, c.over, c.answer); Told(c, r.1.sent) && Says(c, r.0, r.1.sent)
  {
  }

  lemma UnderWay(m: Manager, token: string)
    requires Sound(m) && token in m.ending && m.ending[token].result.None?
    ensures token in m.txs && token !in m.handles && OpenRight(m.txs[token]) && RollsBack(m.ending[token].job)
  {
    assert TxRight(m, token);
  }

  lemma DecideStep(m: Manager, step: Step, token: string)
    requires Sound(m) && step.Decide? && step.token in m.ending && m.ending[step.token].result.None? && token in m.txs
    ensures var after := Next(m, step);
            if step.token == token then Settles(m, step, after, token) else Leaves(m, after, token)
  {
    hide CountsRight, TombsRight, TxsRight, OpenRight, Settle, Told, Says, RollsBack;
    UnderWay(m, step.token);
    forall i, j
      ensures var c := Course(i, m.ending[step.token].job, j, step.contextEnded, step.answer);
              var r := Settle(m.txs[step.token], c.job, c.over, c.answer); Told(c, r.1.sent) && Says(c, r.0, r.1.sent)
    {
      SettleTells(m.txs[step.token], Course(i, m.ending[step.token].job, j, step.contextEnded, step.answer));
    }
  }

  lemma BuryStep(m: Manager, step: Step, token: string)
    requires Sound(m) && step.Bury? && step.token in m.ending && m.ending[step.token].result.Some? && token in m.txs
    ensures var after := Next(m, step);
            if step.token == token then Buries(m, after, token) else Leaves(m, after, token)
  {
    hide Sound, Buried;
    SoundTaken(m, step.token);
    BuriedSame(m, step.token, m.ending[step.token].result.value, step.now);
    TombsAfter(m, step.token, m.ending[step.token].result.value, step.now);
  }

  /** Burying one leaves the other tombstones, or drops them. */
  lemma TombsAfter(m: Manager, token: string, outcome: Outcome, now: int)
    requires Sound(m) && token in m.ending
    ensures var after := Buried(m, token, outcome, now);
            forall t :: t in after.tombstones ==>
              if t == token then after.tombstones[t].outcome == outcome
              else t in m.tombstones && after.tombstones[t] == m.tombstones[t]
  {
    hide CountsRight;
    var tx := m.txs[token];
    var added := m.(ending := m.ending - {token}, tombstones :=
        m.tombstones[token := Tombstone(tx.session, tx.scope, outcome, now)], buried := m.buried + [token]);
    assert TxRight(m, token);
    Queues.ListsSnoc(m.buried, m.tombstones.Keys, token);
    assert added.tombstones.Keys == m.tombstones.Keys + {token};
    TrimmedKeeps(added, now);
  }

  /** What a step does to the transaction of token. */
  ghost predicate Moves(m: Manager, step: Step, after: Manager, token: string) {
    || Leaves(m, after, token) || Takes(m, step, after, token) || Settles(m, step, after, token)
    || Buries(m, after, token) || Begins(m, after, token) || (token !in m.txs && token !in after.txs)
  }

  lemma StepMoves(m: Manager, step: Step, token: string)
    requires Sound(m)
    ensures Moves(m, step, Next(m, step), token)
  {
    hide Sound, Settled, Begun, Buried, Taken;
    KnownTokens(m);
    if !step.Begin? {
      SameTokens(m, step);
    }
    match step
    case Begin(t, _, _, _) => if t !in m.txs { BeginStep(m, step, token); }
    case End(t, job) => if t in m.handles && RollsBack(job) && token in m.txs { EndStep(m, step, token); }
    case Decide(t, _, _) =>
      if t in m.ending && m.ending[t].result.None? && token in m.txs { DecideStep(m, step, token); }
    case Bury(t, _) => if t in m.ending && m.ending[t].result.Some? && token in m.txs { BuryStep(m, step, token); }
    case _ =>
  }

  lemma SameTokens(m: Manager, step: Step)
    requires Sound(m) && !step.Begin?
    ensures Next(m, step).txs.Keys == m.txs.Keys
  {
    hide CountsRight, TxsRight, TombsRight, Settle, Buried;
    if step.Bury? && step.token in m.ending && m.ending[step.token].result.Some? {
      BuriedSame(m, step.token, m.ending[step.token].result.value, step.now);
    }
  }

  lemma KnownTokens(m: Manager)
    requires Sound(m)
    ensures m.handles <= m.txs.Keys && m.ending.Keys <= m.txs.Keys && m.tombstones.Keys <= m.txs.Keys
  {
  }

  // --- every run ---

  lemma RunStep(maxOpen: int, perConnection: int, steps: seq<Step>, token: string)
    requires steps != []
    ensures Moves(Run(maxOpen, perConnection, steps[..|steps| - 1]), steps[|steps| - 1],
                  Run(maxOpen, perConnection, steps), token)
  {
    hide Moves, Next;
    StepMoves(Run(maxOpen, perConnection, steps[..|steps| - 1]), steps[|steps| - 1], token);
  }

  lemma NeverOpenStays(maxOpen: int, perConnection: int, steps: seq<Step>, token: string)
    requires steps != [] && token !in Run(maxOpen, perConnection, steps).handles
    requires NeverOpen(maxOpen, perConnection, steps[..|steps| - 1], token)
    ensures NeverOpen(maxOpen, perConnection, steps, token)
  {
    hide Sound, Run;
    var front := steps[..|steps| - 1];
    forall i | 0 <= i <= |steps| ensures token !in Run(maxOpen, perConnection, steps[..i]).handles {
      assert if i < |steps| then front[..i] == steps[..i] else steps[..i] == steps;
    }
  }

  lemma {:induction false} UnknownNeverOpen(maxOpen: int, perConnection: int, steps: seq<Step>, token: string)
    requires token !in Run(maxOpen, perConnection, steps).txs
    ensures NeverOpen(maxOpen, perConnection, steps, token)
  {
    hide Next;
    KnownTokens(Run(maxOpen, perConnection, steps));
    if steps != [] {
      RunStep(maxOpen, perConnection, steps, token);
      UnknownNeverOpen(maxOpen, perConnection, steps[..|steps| - 1], token);
      NeverOpenStays(maxOpen, perConnection, steps, token);
    } else {
      assert forall i :: 0 <= i <= |steps| ==> steps[..i] == steps;
    }
  }

  lemma LeftTraced(maxOpen: int, perConnection: int, steps: seq<Step>, token: string)
    requires steps != [] && Traced(maxOpen, perConnection, steps[..|steps| - 1], token)
    requires Leaves(Run(maxOpen, perConnection, steps[..|steps| - 1]), Run(maxOpen, perConnection, steps), token)
    ensures Traced(maxOpen, perConnection, steps, token)
  {
    hide Sound, Run, TakenBy, EndedBy, NeverOpen, Told, Says;
    var front := steps[..|steps| - 1];
    var m, after := Run(maxOpen, perConnection, front), Run(maxOpen, perConnection, steps);
    if token !in m.handles {
      forall job, i | TakenBy(maxOpen, perConnection, front, token, job, i)
        ensures TakenBy(maxOpen, perConnection, steps, token, job, i)
      {
        TakenStays(maxOpen, perConnection, steps, token, job, i);
      }
      forall c | EndedBy(maxOpen, perConnection, front, token, c)
        ensures EndedBy(maxOpen, perConnection, steps, token, c)
      {
        EndedStays(maxOpen, perConnection, steps, token, c);
      }
      if NeverOpen(maxOpen, perConnection, front, token) {
        NeverOpenStays(maxOpen, perConnection, steps, token);
      }
    }
  }

  lemma TakenTraced(maxOpen: int, perConnection: int, steps: seq<Step>, token: string)
    requires steps != []
    requires Takes(Run(maxOpen, perConnection, steps[..|steps| - 1]), steps[|steps| - 1],
                   Run(maxOpen, perConnection, steps), token)
    ensures Traced(maxOpen, perConnection, steps, token)
  {
    hide Sound, Run;
    var n := |steps| - 1;
    assert steps[..n + 1] == steps;
    assert TakenBy(maxOpen, perConnection, steps, token, steps[n].job, n);
  }

  lemma SettledTraced(maxOpen: int, perConnection: int, steps: seq<Step>, token: string)
    requires steps != [] && Traced(maxOpen, perConnection, steps[..|steps| - 1], token)
    requires Settles(Run(maxOpen, perConnection, steps[..|steps| - 1]), steps[|steps| - 1],
                     Run(maxOpen, perConnection, steps), token)
    ensures Traced(maxOpen, perConnection, steps, token)
  {
    hide Sound, Run, TakenBy, Told, Says;
    var n := |steps| - 1;
    var front := steps[..n];
    var m := Run(maxOpen, perConnection, front);
    var job := m.ending[token].job;
    SoundTaken(m, token);
    var i :| TakenBy(maxOpen, perConnection, front, token, job, i);
    TakenStays(maxOpen, perConnection, steps, token, job, i);
    TakenBefore(maxOpen, perConnection, front, token, job, i);
    var c := Course(i, job, n, steps[n].contextEnded, steps[n].answer);
    assert EndedBy(maxOpen, perConnection, steps, token, c);
  }

  lemma TakenBefore(maxOpen: int, perConnection: int, steps: seq<Step>, token: string, job: Job, i: nat)
    requires TakenBy(maxOpen, perConnection, steps, token, job, i)
    ensures i < |steps|
  {
  }

  lemma SoundTaken(m: Manager, token: string)
    requires Sound(m) && token in m.ending
    ensures token in m.txs && token !in m.handles
  {
    assert TxRight(m, token);
  }

  lemma BuriedTraced(maxOpen: int, perConnection: int, steps: seq<Step>, token: string)
    requires steps != [] && Traced(maxOpen, perConnection, steps[..|steps| - 1], token)
    requires Buries(Run(maxOpen, perConnection, steps[..|steps| - 1]), Run(maxOpen, perConnection, steps), token)
    ensures Traced(maxOpen, perConnection, steps, token)
  {
    hide Sound, Run, EndedBy, Told, Says;
    var front := steps[..|steps| - 1];
    var m := Run(maxOpen, perConnection, front);
    SoundTaken(m, token);
    var sent, outcome := m.txs[token].sent, m.ending[token].result.value;
    var c :| EndedBy(maxOpen, perConnection, front, token, c) && Told(c, sent) && Says(c, outcome, sent);
    EndedStays(maxOpen, perConnection, steps, token, c);
  }

  lemma BegunTraced(maxOpen: int, perConnection: int, steps: seq<Step>, token: string)
    requires steps != []
    requires Begins(Run(maxOpen, perConnection, steps[..|steps| - 1]), Run(maxOpen, perConnection, steps), token)
    ensures Traced(maxOpen, perConnection, steps, token)
  {
    hide Sound, Run, NeverOpen;
    UnknownNeverOpen(maxOpen, perConnection, steps[..|steps| - 1], token);
    if token !in Run(maxOpen, perConnection, steps).handles {
      NeverOpenStays(maxOpen, perConnection, steps, token);
    }
  }

  lemma {:induction false} RunTraced(maxOpen: int, perConnection: int, steps: seq<Step>, token: string)
    ensures Traced(maxOpen, perConnection, steps, token)
    decreases |steps|
  {
    hide Next, Traced, Leaves, Takes, Settles, Buries, Begins;
    if steps == [] {
      NothingTraced(maxOpen, perConnection, steps, token);
    } else {
      var front, m := steps[..|steps| - 1], Run(maxOpen, perConnection, steps);
      var before := Run(maxOpen, perConnection, front);
      RunTraced(maxOpen, perConnection, front, token);
      RunStep(maxOpen, perConnection, steps, token);
      if Leaves(before, m, token) {
        LeftTraced(maxOpen, perConnection, steps, token);
      } else if Takes(before, steps[|steps| - 1], m, token) {
        TakenTraced(maxOpen, perConnection, steps, token);
      } else if Settles(before, steps[|steps| - 1], m, token) {
        SettledTraced(maxOpen, perConnection, steps, token);
      } else if Buries(before, m, token) {
        BuriedTraced(maxOpen, perConnection, steps, token);
      } else if Begins(before, m, token) {
        BegunTraced(maxOpen, perConnection, steps, token);
      } else {
        UnknownTraced(maxOpen, perConnection, steps, token);
      }
    }
  }

  lemma NothingTraced(maxOpen: int, perConnection: int, steps: seq<Step>, token: string)
    requires steps == []
    ensures Traced(maxOpen, perConnection, steps, token)
  {
  }

  lemma UnknownTraced(maxOpen: int, perConnection: int, steps: seq<Step>, token: string)
    requires token !in Run(maxOpen, perConnection, steps).txs
    ensures Traced(maxOpen, perConnection, steps, token)
  {
  }

  // --- an end comes once ---

  ghost function Phase(m: Manager, token: string): nat {
    if token !in m.txs then 0
    else if token in m.handles then 1
    else if token !in m.ending then 4
    else if m.ending[token].result.None? then 2
    else 3
  }

  lemma PhaseMoves(m: Manager, step: Step, after: Manager, token: string)
    requires Sound(m) && Moves(m, step, after, token)
    ensures Phase(m, token) <= Phase(after, token)
  {
    hide CountsRight, TombsRight, Told, Says, OpenRight, DoneRight;
    if token in m.txs {
      assert TxRight(m, token);
    }
  }

  lemma {:induction false} PhaseGrows(
    maxOpen: int, perConnection: int, steps: seq<Step>, token: string, i: nat, j: nat)
    requires i <= j <= |steps|
    ensures Phase(Run(maxOpen, perConnection, steps[..i]), token) <=
            Phase(Run(maxOpen, perConnection, steps[..j]), token)
    decreases j
  {
    hide Sound, Phase, Moves, Run;
    if i < j {
      PhaseGrows(maxOpen, perConnection, steps, token, i, j - 1);
      var part := steps[..j];
      assert part[..|part| - 1] == steps[..j - 1];
      RunStep(maxOpen, perConnection, part, token);
      PhaseMoves(Run(maxOpen, perConnection, part[..|part| - 1]), part[|part| - 1],
                 Run(maxOpen, perConnection, part), token);
    }
  }

  lemma TakenPhase(maxOpen: int, perConnection: int, steps: seq<Step>, token: string, job: Job, i: nat)
    requires TakenBy(maxOpen, perConnection, steps, token, job, i)
    ensures Phase(Run(maxOpen, perConnection, steps[..i]), token) == 1
    ensures Phase(Run(maxOpen, perConnection, steps[..i + 1]), token) != 1
  {
    hide Sound, Run;
    KnownTokens(Run(maxOpen, perConnection, steps[..i]));
  }

  lemma SettledPhase(
    maxOpen: int, perConnection: int, steps: seq<Step>, token: string, over: bool, answer: Answer, j: nat)
    requires SettledBy(maxOpen, perConnection, steps, token, over, answer, j)
    ensures Phase(Run(maxOpen, perConnection, steps[..j]), token) == 2
    ensures Phase(Run(maxOpen, perConnection, steps[..j + 1]), token) == 3
  {
    hide Sound, Next, Told, Says;
    var m := Run(maxOpen, perConnection, steps[..j]);
    SoundTaken(m, token);
    assert steps[..j + 1][..j] == steps[..j];
    DecideStep(m, steps[j], token);
  }

  lemma TakenOnce(
    maxOpen: int, perConnection: int, steps: seq<Step>, token: string, job: Job, i: nat, also: Job, k: nat)
    requires TakenBy(maxOpen, perConnection, steps, token, job, i)
    requires TakenBy(maxOpen, perConnection, steps, token, also, k) && i <= k
    ensures i == k && job == also
  {
    hide Sound, Run, Phase;
    TakenPhase(maxOpen, perConnection, steps, token, job, i);
    TakenPhase(maxOpen, perConnection, steps, token, also, k);
    PhaseGrows(maxOpen, perConnection, steps, token, i, i + 1);
    if i < k {
      PhaseGrows(maxOpen, perConnection, steps, token, i + 1, k);
    }
  }

  lemma SettledOnce(
    maxOpen: int, perConnection: int, steps: seq<Step>, token: string, over: bool, answer: Answer, j: nat,
    alsoOver: bool, also: Answer, k: nat)
    requires SettledBy(maxOpen, perConnection, steps, token, over, answer, j)
    requires SettledBy(maxOpen, perConnection, steps, token, alsoOver, also, k) && j <= k
    ensures j == k && over == alsoOver && answer == also
  {
    hide Sound, Run, Phase;
    SettledPhase(maxOpen, perConnection, steps, token, over, answer, j);
    SettledPhase(maxOpen, perConnection, steps, token, alsoOver, also, k);
    if j < k {
      PhaseGrows(maxOpen, perConnection, steps, token, j + 1, k);
    }
  }

  lemma OneCourse(maxOpen: int, perConnection: int, steps: seq<Step>, token: string, c: Course, d: Course)
    requires EndedBy(maxOpen, perConnection, steps, token, c) && EndedBy(maxOpen, perConnection, steps, token, d)
    ensures c == d
  {
    hide Sound, Run, TakenBy, SettledBy;
    if c.i <= d.i {
      TakenOnce(maxOpen, perConnection, steps, token, c.job, c.i, d.job, d.i);
    } else {
      TakenOnce(maxOpen, perConnection, steps, token, d.job, d.i, c.job, c.i);
    }
    if c.j <= d.j {
      SettledOnce(maxOpen, perConnection, steps, token, c.over, c.answer, c.j, d.over, d.answer, d.j);
    } else {
      SettledOnce(maxOpen, perConnection, steps, token, d.over, d.answer, d.j, c.over, c.answer, c.j);
    }
  }

  lemma NeverOpenNotTaken(maxOpen: int, perConnection: int, steps: seq<Step>, token: string, c: Course)
    requires NeverOpen(maxOpen, perConnection, steps, token)
    ensures !EndedBy(maxOpen, perConnection, steps, token, c)
  {
  }

  lemma EndedPhase(maxOpen: int, perConnection: int, steps: seq<Step>, token: string, c: Course)
    requires EndedBy(maxOpen, perConnection, steps, token, c)
    ensures Phase(Run(maxOpen, perConnection, steps), token) >= 3
  {
    hide Sound, Run, TakenBy, Phase;
    SettledPhase(maxOpen, perConnection, steps, token, c.over, c.answer, c.j);
    PhaseGrows(maxOpen, perConnection, steps, token, c.j + 1, |steps|);
    assert steps[..|steps|] == steps;
  }

  // --- the law ---

  /** In every run: nothing is sent while a transaction is open or its end is
      under way; what is sent then is what the one end that took it asked for,
      or, of one never opened, a rollback; and its tombstone says so. */
  lemma SentAsAsked(maxOpen: int, perConnection: int, steps: seq<Step>, token: string)
    requires token in Run(maxOpen, perConnection, steps).txs
    ensures var m := Run(maxOpen, perConnection, steps);
            var sent := m.txs[token].sent;
            && (sent == [] <==> token in m.handles || (token in m.ending && m.ending[token].result.None?))
            && (sent != [] ==>
                  || (NeverOpen(maxOpen, perConnection, steps, token) && sent == [SendRollback])
                  || exists c :: EndedBy(maxOpen, perConnection, steps, token, c))
            && forall c :: EndedBy(maxOpen, perConnection, steps, token, c) ==>
                 Told(c, sent) && (token in m.tombstones ==> Says(c, m.tombstones[token].outcome, sent))
  {
    hide Sound, Run, EndedBy, NeverOpen, Says;
    RunTraced(maxOpen, perConnection, steps, token);
    forall c, d | EndedBy(maxOpen, perConnection, steps, token, c) && EndedBy(maxOpen, perConnection, steps, token, d)
      ensures c == d
    {
      OneCourse(maxOpen, perConnection, steps, token, c, d);
    }
    forall c | EndedBy(maxOpen, perConnection, steps, token, c)
      ensures Phase(Run(maxOpen, perConnection, steps), token) >= 3 && !NeverOpen(maxOpen, perConnection, steps, token)
    {
      EndedPhase(maxOpen, perConnection, steps, token, c);
      if NeverOpen(maxOpen, perConnection, steps, token) {
        NeverOpenNotTaken(maxOpen, perConnection, steps, token, c);
      }
    }
    var m := Run(maxOpen, perConnection, steps);
    if token in m.ending {
      TombGone(m, token);
    }
  }

  lemma TombGone(m: Manager, token: string)
    requires Sound(m) && token in m.ending
    ensures token !in m.tombstones
  {
    assert TxRight(m, token);
  }

  /** A commit is sent exactly when the end that took the transaction was its
      caller's commit, settled before the request was over. */
  lemma CommitsAsAsked(maxOpen: int, perConnection: int, steps: seq<Step>, token: string, answer: Answer)
    requires token in Run(maxOpen, perConnection, steps).txs
    ensures SendCommit(answer) in Run(maxOpen, perConnection, steps).txs[token].sent <==>
            exists c :: EndedBy(maxOpen, perConnection, steps, token, c) && c.job == Finish(true) && !c.over &&
                        c.answer == answer
  {
    hide Sound, Run, EndedBy, NeverOpen, Says;
    SentAsAsked(maxOpen, perConnection, steps, token);
  }
}
