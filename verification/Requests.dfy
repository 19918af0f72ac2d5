/** Requests that are repeated after a lost response, over every run. */
module Requests {
  import opened Basics
  import opened TaskModel
  import opened Transactions
  import opened Queue
  import opened Invariants
  import opened Protocol
  import opened Safety

  // ----- ClaimWithID -----

  /** Every task the worker owns was claimed under its own identifier. */
  ghost predicate DistinctClaims(db: Db, worker: WorkerId) {
    && (forall id :: id in db.cells && db.cells[id].task.owner == worker ==>
          db.cells[id].task.payload.durable && db.cells[id].task.payload.claimId != "")
    && (forall t, u ::
        (t in db.cells && u in db.cells && db.cells[t].task.owner == worker && db.cells[u].task.owner == worker
                        && db.cells[t].task.payload.claimId == db.cells[u].task.payload.claimId) ==> t == u)
  }

  predicate UsesIds(a: Action, worker: WorkerId) {
    a.Claim? && a.worker == worker ==> a.claimId.Some?
  }

  lemma OwnershipKeepsClaim(c: Cell, e: CellEvent)
    requires Core(c) && EventTx(c, e).Ok?
    ensures var d := EventTx(c, e).value.task;
            d.owner != "" && !e.Grants? ==> d.owner == c.task.owner && d.payload.claimId == c.task.payload.claimId
                                            && (c.task.payload.durable ==> d.payload.durable)
  {
    hide PatchEpoch, PatchOpen, FailIntents, DropEpoch, AcceptIntents, RowShape, LeaseRow;
    if e.Commits? || e.Finalizes? {
      hide CellTx, GrantTx;
    } else {
      hide CommitTx, FinalizeTx;
    }
  }

  /** A task owned after a step was owned before under the same identifier, or was just granted under a fresh one. */
  lemma OwnedAfter(s: System, a: Action, s': System, worker: WorkerId, id: TaskId)
    requires Sound(s) && Next(s, a, s') && UsesIds(a, worker) && worker != ""
    requires id in s'.db.cells && s'.db.cells[id].task.owner == worker
    ensures var d := s'.db.cells[id].task;
            || (id in s.db.cells && s.db.cells[id].task.owner == worker &&
                s.db.cells[id].task.payload.claimId == d.payload.claimId
                && (s.db.cells[id].task.payload.durable ==> d.payload.durable))
            || (a.Claim? && a.decision == Grant(id) && d.payload.durable && d.payload.claimId != ""
                && HeldUnder(s.db, worker, d.payload.claimId) == {})
  {
    hide Core, Next, EventTx, Decides;
    if id in s.db.cells {
      StepOnTask(s, a, s', id);
      var e := EventOf(s, a, id);
      if e.Some? && EventTx(s.db.cells[id], e.value).Ok? {
        if !e.value.Grants? {
          OwnershipKeepsClaim(s.db.cells[id], e.value);
        } else {
          GrantSetsOwner(s.db.cells[id], e.value);
          GrantUsesId(s, a, s', id);
        }
      }
    } else {
      NewTasksAreFresh(s, a, s', id);
    }
  }

  lemma GrantUsesId(s: System, a: Action, s': System, id: TaskId)
    requires Sound(s) && Next(s, a, s') && a.Claim? && a.decision == Grant(id) && a.claimId.Some? && id in s.db.cells
    requires a.worker in s.db.workers && s'.db.cells[id].task.owner == a.worker
    requires id in s'.db.cells && s'.db.cells[id] == After(s.db.cells[id], EventOf(s, a, id))
    requires EventOf(s, a, id).Some? && EventTx(s.db.cells[id], EventOf(s, a, id).value).Ok?
    ensures s'.db.cells[id].task.payload.durable && s'.db.cells[id].task.payload.claimId == a.claimId.value != ""
    ensures HeldUnder(s.db, a.worker, a.claimId.value) == {}
  {
    hide Core, AttemptTaken;
    assert Refusal(s.db, a.worker, a.claimId.value, a.limits).None?;
  }

  lemma StepKeepsClaims(s: System, a: Action, s': System, worker: WorkerId)
    requires Sound(s) && DistinctClaims(s.db, worker) && Next(s, a, s') && UsesIds(a, worker) && worker != ""
    ensures DistinctClaims(s'.db, worker)
  {
    hide Core, Next;
    forall id | id in s'.db.cells && s'.db.cells[id].task.owner == worker
      ensures s'.db.cells[id].task.payload.durable && s'.db.cells[id].task.payload.claimId != ""
    {
      OwnedAfter(s, a, s', worker, id);
    }
    forall t, u | (t in s'.db.cells && u in s'.db.cells && s'.db.cells[t].task.owner == worker &&
        s'.db.cells[u].task.owner == worker
                   && s'.db.cells[t].task.payload.claimId == s'.db.cells[u].task.payload.claimId)
      ensures t == u
    {
      OwnedAfter(s, a, s', worker, t);
      OwnedAfter(s, a, s', worker, u);
      var held := HeldUnder(s.db, worker, s'.db.cells[t].task.payload.claimId);
      assert forall x :: x in held <==> x in s.db.cells && s.db.cells[x].task.owner == worker
                                        && s.db.cells[x].task.payload.claimId == s'.db.cells[t].task.payload.claimId;
    }
  }

  /** A worker that always claims with identifiers owns at most one task under each of them, over every run. */
  lemma {:induction false} OneTaskPerClaim(states: seq<System>, actions: seq<Action>, worker: WorkerId, i: nat)
    requires IsRun(states, actions) && i < |states| && worker != ""
    requires forall j :: 0 <= j < i ==> UsesIds(actions[j], worker)
    ensures DistinctClaims(states[i].db, worker)
  {
    if i > 0 {
      OneTaskPerClaim(states, actions, worker, i - 1);
      ReachableSound(states, actions, i - 1);
      StepKeepsClaims(states[i - 1], actions[i - 1], states[i], worker);
    }
  }

  /** While its task is unreported, a repeated claim returns that task, whatever the limits are, and changes nothing. */
  lemma RepeatedClaimReplays(s: System, a: Action, s': System, id: TaskId)
    requires Next(s, a, s') && a.Claim? && a.claimId.Some? && ValidClaimId(a.claimId.value) &&
               DistinctClaims(s.db, a.worker)
    requires id in HeldUnder(s.db, a.worker, a.claimId.value)
    ensures s' == s
    ensures a.decision == if s.db.cells[id].task.state == Leased && s.db.cells[id].task.result.None? then Replay(id)
              else Refuse(NoTask)
  {
    hide EventTx;
    var held := HeldUnder(s.db, a.worker, a.claimId.value);
    assert held != {};
    var first :| first in held && (forall other :: other in held && other != first ==> LexLess(first, other))
                 && a.decision == if s.db.cells[first].task.state == Leased && s.db.cells[first].task.result.None?
                     then Replay(first) else Refuse(NoTask);
    assert first == id;
  }

  // ----- RecoverExecution -----

  /** While a task keeps its token, rows of earlier epochs are history. */
  lemma OldRowsStay(c: Cell, e: CellEvent)
    requires Core(c) && EventTx(c, e).Ok?
    ensures var d := EventTx(c, e).value;
            d.task.token == c.task.token && Active(d.task) ==>
              forall k :: k in c.attempts && c.attempts[k].epoch < c.task.token ==>
                  k in d.attempts && d.attempts[k] == c.attempts[k]
  {
    hide EventTx;
    if EventTx(c, e).value.task.token == c.task.token && Active(EventTx(c, e).value.task) {
      var p := TouchesOnlyItsEpoch(c, e);
    }
  }

  predicate TouchesEpoch(c: Cell, d: Cell, p: RowPatch) {
    d.attempts == c.attempts || d.attempts == DropEpoch(c.attempts, c.task.token) ||
        d.attempts == PatchEpoch(c.attempts, c.task.token, p)
  }

  lemma TouchesOnlyItsEpoch(c: Cell, e: CellEvent) returns (p: RowPatch)
    requires Core(c) && EventTx(c, e).Ok? && EventTx(c, e).value.task.token == c.task.token &&
               Active(EventTx(c, e).value.task)
    ensures TouchesEpoch(c, EventTx(c, e).value, p)
  {
    hide FailIntents, AcceptIntents, Core, PatchEpoch, DropEpoch, PatchOpen, AttemptTaken;
    p := RowPatch(None, None, None, None, None);
    match e {
      case Tx(AcceptResult(_, _, report, digest, now)) =>
        p := RowPatch(Some(report.status), Some(if InfraFailure(report) then Infra else Product), Some(now),
                      Some(report.infraKind), if digest == NoDigest then None else Some(digest));
      case Tx(Expire(now)) =>
        p := RowPatch(Some("expired"), Some(Infra), Some(now), Some("lease-expired"), None);
      case _ =>
    }
  }

  /**
   Repeating a recovery with the old epoch, any number of steps later, returns the same
   unreported lease unchanged.
   */
  lemma {:induction false} RepeatedRecoveryReplays(states: seq<System>, actions: seq<Action>, i: nat, j: nat,
                                                   id: TaskId, worker: WorkerId, epoch: int, first: Time, again: Time)
    requires IsRun(states, actions) && i < j < |states| && id in states[i].db.cells && id in states[j].db.cells
    requires actions[i] == OnTask(id, RecoverExecution(worker, epoch, first))
    requires CellTx(states[i].db.cells[id], RecoverExecution(worker, epoch, first)).Ok?
    requires var t := states[j].db.cells[id].task; t.token == epoch + 1 && t.state == Leased && t.result.None?
    ensures CellTx(states[j].db.cells[id], RecoverExecution(worker, epoch, again)) == Ok(states[j].db.cells[id])
  {
    hide Core, Next, RecoverTx, CellTx, EventTx;
    RunAdvances(states, actions, i, i + 1, id);
    ReachableSound(states, actions, i);
    RecoveryStep(states[i], actions[i], states[i + 1], id);
    var k := RecoveredRow(states[i].db.cells[id], worker, epoch, first);
    InterruptedRowStays(states, actions, i + 1, j, id, k);
    RunAdvances(states, actions, i + 1, j, id);
    ReachableSound(states, actions, j);
    ReplayReturns(states[j].db.cells[id], worker, epoch, again);
  }

  lemma RecoveryStep(s: System, a: Action, s': System, id: TaskId)
    requires Sound(s) && Next(s, a, s') && a.OnTask? && a.id == id && a.op.RecoverExecution? && id in s.db.cells &&
               CellTx(s.db.cells[id], a.op).Ok?
    ensures RecoverTx(s.db.cells[id], a.op.worker, a.op.epoch, a.op.now) == Ok(s'.db.cells[id])
  {
    hide RecoverTx;
    StepOnTask(s, a, s', id);
  }

  lemma ReplayReturns(c: Cell, worker: WorkerId, epoch: int, now: Time)
    requires Core(c) && c.task.payload.durable && c.task.state == Leased && c.task.token == epoch + 1 &&
               c.task.result.None?
    requires c.task.owner != "" ==> c.task.owner == worker
    requires exists k :: k in c.attempts && c.attempts[k].epoch == epoch && c.attempts[k].worker == worker
                         && c.attempts[k].status == "interrupted"
    ensures CellTx(c, RecoverExecution(worker, epoch, now)) == Ok(c)
  {
  }

  lemma RecoveredRow(c: Cell, worker: WorkerId, epoch: int, now: Time) returns (k: AttemptKey)
    requires Core(c) && RecoverTx(c, worker, epoch, now).Ok?
    ensures var d := RecoverTx(c, worker, epoch, now).value;
            && d.task.token == epoch + 1 && d.task.owner == worker && d.task.payload.durable
            && k in d.attempts && d.attempts[k].epoch == epoch && d.attempts[k].worker == worker &&
                d.attempts[k].status == "interrupted"
  {
    if RecoveryReplay(c, worker, epoch) {
      k :| k in c.attempts && c.attempts[k].epoch == epoch && c.attempts[k].worker == worker &&
          c.attempts[k].status == "interrupted";
    } else {
      k := AttemptKey(c.task.id, c.task.attempt + 1);
    }
  }

  lemma {:induction false} InterruptedRowStays(states: seq<System>, actions: seq<Action>, i: nat, j: nat, id: TaskId,
      k: AttemptKey)
    requires IsRun(states, actions) && i <= j < |states| && id in states[i].db.cells && id in states[j].db.cells
    requires k in states[i].db.cells[id].attempts &&
               states[i].db.cells[id].attempts[k].epoch < states[i].db.cells[id].task.token
    requires states[j].db.cells[id].task.token == states[i].db.cells[id].task.token &&
               Active(states[j].db.cells[id].task)
    ensures k in states[j].db.cells[id].attempts &&
              states[j].db.cells[id].attempts[k] == states[i].db.cells[id].attempts[k]
    decreases j - i
  {
    if i < j {
      RunAdvances(states, actions, i, i + 1, id);
      RunAdvances(states, actions, i + 1, j, id);
      ReachableSound(states, actions, i);
      StepOnTask(states[i], actions[i], states[i + 1], id);
      var e := EventOf(states[i], actions[i], id);
      if e.Some? && EventTx(states[i].db.cells[id], e.value).Ok? {
        OldRowsStay(states[i].db.cells[id], e.value);
      }
      InterruptedRowStays(states, actions, i + 1, j, id, k);
    }
  }

  // ----- EnqueuePrepared -----

  /** No two active tasks share a queue slot, and an issue has at most one active implementation. */
  ghost predicate UniqueSlots(db: Db) {
    forall t, u :: t in db.cells && u in db.cells && t != u ==> !Clash(db.cells[t].task, db.cells[u].task)
  }

  /** A task keeps its slot unless a pull request number is recorded for it. */
  lemma SlotChangesOnlyByCommit(c: Cell, e: CellEvent)
    requires Core(c) && EventTx(c, e).Ok?
    ensures EventTx(c, e).value.task.pr == c.task.pr
            || (e.Commits? && e.outcome.RemoteApplied? && e.outcome.pr > 0 &&
                EventTx(c, e).value.task.pr == e.outcome.pr)
  {
    hide PatchEpoch, PatchOpen, FailIntents, DropEpoch, AcceptIntents, RowShape, LeaseRow;
  }

  lemma SlotAfter(s: System, a: Action, s': System, id: TaskId)
    requires Sound(s) && Next(s, a, s') && id in s'.db.cells && Active(s'.db.cells[id].task)
    ensures id in s.db.cells ==>
              && Active(s.db.cells[id].task) && SameIdentity(s.db.cells[id].task, s'.db.cells[id].task)
              && (s'.db.cells[id].task.pr != s.db.cells[id].task.pr ==>
                    a == CommitOutcome(id) && !IndexConflict(s.db, s.db.cells[id].task.(pr := s'.db.cells[id].task.pr)))
    ensures id !in s.db.cells ==>
              a.Enqueue? && a.id == id && !IndexConflict(s.db, s'.db.cells[id].task) && s'.db.cells[id].task.id == id
  {
    if id in s.db.cells {
      StepOnTask(s, a, s', id);
      var e := EventOf(s, a, id);
      if e.Some? && EventTx(s.db.cells[id], e.value).Ok? {
        EventAdvances(s.db.cells[id], e.value);
        SlotChangesOnlyByCommit(s.db.cells[id], e.value);
      }
    } else {
      NewTasksAreFresh(s, a, s', id);
    }
  }

  lemma StepKeepsUnique(s: System, a: Action, s': System)
    requires Sound(s) && UniqueSlots(s.db) && Next(s, a, s')
    ensures UniqueSlots(s'.db)
  {
    hide Core, Next;
    forall t, u | t in s'.db.cells && u in s'.db.cells && t != u
      ensures !Clash(s'.db.cells[t].task, s'.db.cells[u].task)
    {
      if Active(s'.db.cells[t].task) && Active(s'.db.cells[u].task) {
        SlotAfter(s, a, s', t);
        SlotAfter(s, a, s', u);
      }
    }
  }

  lemma {:induction false} SlotsStayUnique(states: seq<System>, actions: seq<Action>, i: nat)
    requires IsRun(states, actions) && i < |states|
    ensures UniqueSlots(states[i].db)
  {
    if i > 0 {
      SlotsStayUnique(states, actions, i - 1);
      ReachableSound(states, actions, i - 1);
      StepKeepsUnique(states[i - 1], actions[i - 1], states[i]);
    }
  }

  /** The task an enqueue request is deduplicated against is the only one there can be. */
  lemma DuplicateIsUnique(db: Db, s: Submission, t: TaskId, u: TaskId)
    requires UniqueSlots(db) && ValidSubmission(s)
    requires t in db.cells && u in db.cells && Duplicates(s, db.cells[t].task) && Duplicates(s, db.cells[u].task)
    ensures t == u
  {
    assert t != u ==> !Clash(db.cells[t].task, db.cells[u].task);
  }

  /**
   When no duplicate is found, inserting still fails for exactly one reason: an implementation
   submitted for a pull request while another implementation of its issue is active.
   */
  lemma InsertRejectedExactly(db: Db, s: Submission, id: TaskId, now: Time)
    requires ValidSubmission(s) && id !in db.cells
    requires forall d :: d in db.cells ==> db.cells[d].task.id == d && Core(db.cells[d])
    requires forall d :: d in db.cells ==> !Duplicates(s, db.cells[d].task)
    ensures IndexConflict(db, NewTask(id, s, now)) <==>
              s.kind == Implement && s.pr > 0 && s.issue > 0 &&
              exists d :: d in db.cells && Active(db.cells[d].task) && db.cells[d].task.repo == s.repo
                          && db.cells[d].task.kind == Implement && db.cells[d].task.issue == s.issue
  {
    forall d | d in db.cells && Clash(NewTask(id, s, now), db.cells[d].task)
      ensures s.kind == Implement && s.pr > 0 && s.issue > 0 && db.cells[d].task.issue == s.issue
    {
      assert !Duplicates(s, db.cells[d].task);
    }
    forall d | d in db.cells && s.kind == Implement && s.issue > 0 && Active(db.cells[d].task) &&
        db.cells[d].task.repo == s.repo
               && db.cells[d].task.kind == Implement && db.cells[d].task.issue == s.issue
      ensures Clash(NewTask(id, s, now), db.cells[d].task)
    {
    }
  }

  /** A delivered event names the same task forever, so redelivering it never creates another one. */
  lemma {:induction false} RedeliveryIsIdempotent(states: seq<System>, actions: seq<Action>, i: nat, j: nat,
      event: EventKey)
    requires IsRun(states, actions) && i <= j < |states| && event in states[i].db.inbox
    ensures event in states[j].db.inbox && states[j].db.inbox[event] == states[i].db.inbox[event]
    ensures forall s, id, now, out ::
              (ValidSubmission(s) && s.event == event && event.externalId != "" &&
                  EnqueueTx(states[j].db, s, id, now, out)) ==>
                out == Enqueued(states[j].db, Ok(states[i].db.inbox[event]), false)
    decreases j - i
  {
    if i < j {
      RedeliveryIsIdempotent(states, actions, i, j - 1, event);
      InboxGrows(states[j - 1], actions[j - 1], states[j], event);
    }
  }

  lemma InboxGrows(s: System, a: Action, s': System, event: EventKey)
    requires Next(s, a, s') && event in s.db.inbox
    ensures event in s'.db.inbox && s'.db.inbox[event] == s.db.inbox[event]
  {
    hide EventOf, EventTx, Decides, SnapshotOf, CommitLocks;
  }

  /** What an enqueue that inserted under a snapshot saw, and left. */
  lemma InsertedUnderSnapshot(db: Db, s: Submission, id: TaskId, now: Time, out: Enqueued)
    requires EnqueueTx(db, s, id, now, out) && out.inserted && s.coordination.Snapshot?
    ensures s.coordination.tasks == Summaries(db, s.repo) && id !in db.cells
    ensures id in out.db.cells && out.db.cells[id].task == NewTask(id, s, now)
  {
    hide Summaries, Duplicates, IndexConflict;
  }

  lemma ActiveIsSummarized(db: Db, repo: string, id: TaskId)
    requires id in db.cells && Active(db.cells[id].task) && db.cells[id].task.repo == repo
    ensures exists d :: d in Summaries(db, repo) && d.id == id
  {
    var t := db.cells[id].task;
    assert ActiveSummary(id, t.issue, t.pr, t.kind, t.state, t.priority) in Summaries(db, repo);
  }

  lemma SummariesAreTasks(db: Db, repo: string)
    ensures forall d :: d in Summaries(db, repo) ==> d.id in db.cells
  {
  }

  /**
   Over a whole run, a snapshot of a repository's active tasks admits a second task only after
   the first one it admitted has closed.
   */
  lemma OneEnqueuePerSnapshot(states: seq<System>, actions: seq<Action>, i: nat, j: nat)
    requires IsRun(states, actions) && i < j < |actions|
    requires actions[i].Enqueue? && actions[i].out.inserted && actions[j].Enqueue? && actions[j].out.inserted
    requires actions[i].submission.coordination.Snapshot?
    requires actions[j].submission.coordination == actions[i].submission.coordination
    requires actions[j].submission.repo == actions[i].submission.repo
    ensures actions[i].id in states[j].db.cells && Terminal(states[j].db.cells[actions[i].id].task)
  {
    var a, b := actions[i], actions[j];
    assert Next(states[i], a, states[i + 1]) && Next(states[j], b, states[j + 1]);
    assert EnqueueTx(states[i].db, a.submission, a.id, a.now, a.out) && states[i + 1].db == a.out.db;
    assert EnqueueTx(states[j].db, b.submission, b.id, b.now, b.out);
    hide IsRun, Next, EnqueueTx, Summaries;
    InsertedUnderSnapshot(states[i].db, a.submission, a.id, a.now, a.out);
    InsertedUnderSnapshot(states[j].db, b.submission, b.id, b.now, b.out);
    RunAdvances(states, actions, i + 1, j, a.id);
    SummariesAreTasks(states[i].db, a.submission.repo);
    if Active(states[j].db.cells[a.id].task) {
      ActiveIsSummarized(states[j].db, a.submission.repo, a.id);
    }
  }

  /** At once: the task just inserted is not in the snapshot, so the same snapshot is refused on the rows it leaves. */
  lemma SnapshotIsUsedUp(db: Db, s: Submission, id: TaskId, now: Time, out: Enqueued,
                         s2: Submission, id2: TaskId, now2: Time, out2: Enqueued)
    requires EnqueueTx(db, s, id, now, out) && out.inserted && EnqueueTx(out.db, s2, id2, now2, out2)
    requires s.coordination.Snapshot? && s2.coordination == s.coordination && s2.repo == s.repo
    ensures !out2.inserted
  {
    InsertedUnderSnapshot(db, s, id, now, out);
    SummariesAreTasks(db, s.repo);
    ActiveIsSummarized(out.db, s.repo, id);
    hide Summaries, Duplicates, IndexConflict;
  }

  // ----- a lease is granted -----

  /**
   Leasing the first candidate of a claim fails only for an unknown acceptance policy or, on a
   durable worker, a bad timeout.
   */
  lemma GrantSucceedsExactly(c: Cell, w: Worker, claimId: string, now: Time)
    requires Core(c) && c.task.state == Pending && w.id != ""
    ensures GrantTx(c, w, claimId, now).Ok?
            <==> ResolvePolicy(c.task).Ok? && (w.durable ==> ValidTimeout(c.task.payload))
  {
    GrantFits(c, w, claimId, now);
    hide Core, AttemptTaken;
  }

  // ----- repeated reports -----

  /** Nothing but another report changes what a stored report is acknowledged for while its token lasts. */
  lemma EventKeepsMatching(c: Cell, e: CellEvent, worker: WorkerId, epoch: int, report: Report, failed: bool)
    requires Core(c) && MatchingReport(c.task, worker, epoch, report, failed) && EventTx(c, e).Ok? && worker != ""
    ensures var d := EventTx(c, e).value;
            || MatchingReport(d.task, worker, epoch, report, failed) || d.task.token > epoch
            || (e.Tx? && e.op.AcceptResult? && e.op.fence == epoch)
  {
    hide PatchEpoch, PatchOpen, FailIntents, DropEpoch, AcceptIntents, RowShape, LeaseRow, Budget;
    if e.Commits? || e.Finalizes? {
      hide CellTx, GrantTx;
    } else {
      hide CommitTx, FinalizeTx;
    }
  }

  /**
   A worker that repeats a report after losing the answer is acknowledged, at once and as long
   as no later report or token takes its place.
   */
  lemma {:induction false} RepeatedReportAcknowledged(states: seq<System>, actions: seq<Action>, i: nat, j: nat,
      id: TaskId, failed: bool)
    requires IsRun(states, actions) && i < j < |states|
    requires actions[i].OnTask? && actions[i].id == id && actions[i].op.AcceptResult?
    requires actions[i].op.digest == DigestOf(actions[i].op.report, failed)
    requires id in states[i].db.cells && CellTx(states[i].db.cells[id], actions[i].op).Ok?
    requires forall k :: i < k < j ==> !Replaces(actions[k], id, actions[i].op.fence)
    ensures id in states[j].db.cells
    ensures states[j].db.cells[id].task.token > actions[i].op.fence
            || MatchingReport(states[j].db.cells[id].task, actions[i].op.worker, actions[i].op.fence,
                actions[i].op.report, failed)
    decreases j
  {
    hide Core, Next, MatchingReport, CellTx;
    var op := actions[i].op;
    ReachableSound(states, actions, i);
    ReachableSound(states, actions, j - 1);
    OwnerIsNamed(states[i].db.cells[id], op);
    if i + 1 == j {
      StepOnTask(states[i], actions[i], states[j], id);
      AcceptedMatches(states[i].db.cells[id], op, failed);
    } else {
      RepeatedReportAcknowledged(states, actions, i, j - 1, id, failed);
      assert !Replaces(actions[j - 1], id, op.fence);
      StepKeepsMatching(states[j - 1], actions[j - 1], states[j], id, op.worker, op.fence, op.report, failed);
    }
  }

  lemma StepKeepsMatching(s: System, a: Action, s': System, id: TaskId, worker: WorkerId, epoch: int, report: Report,
      failed: bool)
    requires Sound(s) && Next(s, a, s') && id in s.db.cells && worker != "" && !Replaces(a, id, epoch)
    requires s.db.cells[id].task.token > epoch || MatchingReport(s.db.cells[id].task, worker, epoch, report, failed)
    ensures id in s'.db.cells
    ensures s'.db.cells[id].task.token > epoch || MatchingReport(s'.db.cells[id].task, worker, epoch, report, failed)
  {
    hide Core, Next, MatchingReport, EventTx;
    StepAdvances(s, a, s', id);
    StepOnTask(s, a, s', id);
    var c, e := s.db.cells[id], EventOf(s, a, id);
    if e.Some? && EventTx(c, e.value).Ok? && c.task.token <= epoch {
      EventKeepsMatching(c, e.value, worker, epoch, report, failed);
    }
  }

  /** A report under the same token, which may take the place of the stored one. */
  predicate Replaces(a: Action, id: TaskId, epoch: int) {
    a.OnTask? && a.id == id && a.op.AcceptResult? && a.op.fence == epoch
  }

  lemma AcceptedMatches(c: Cell, op: CellOp, failed: bool)
    requires op.AcceptResult? && op.digest == DigestOf(op.report, failed) && CellTx(c, op).Ok?
    ensures MatchingReport(CellTx(c, op).value.task, op.worker, op.fence, op.report, failed)
  {
    hide AcceptFrom, PatchEpoch;
  }

  lemma OwnerIsNamed(c: Cell, op: CellOp)
    requires op.AcceptResult? && CellTx(c, op).Ok? && Core(c)
    ensures op.worker != ""
  {
    hide AcceptFrom, PatchEpoch;
  }
}
