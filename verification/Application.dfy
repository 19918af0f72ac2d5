/** What one uninterrupted application of a report achieves, and what a failed one leaves for the next. */
module Application {
  import opened Basics
  import opened TaskModel
  import opened Transactions
  import opened Queue
  import opened Columns
  import opened Invariants
  import opened Protocol
  import opened Safety
  import opened Effects

  /** The open intents of an applicable report are exactly this queue. */
  ghost predicate Waiting(c: Cell, epoch: int, queue: seq<Intent>) {
    && Gate(c) && Applicable(c.task, epoch)
    && (forall i, j :: 0 <= i < j < |queue| ==> queue[i].key != queue[j].key)
    && (forall i :: 0 <= i < |queue| ==> queue[i].key in c.intents && Open(c.intents[queue[i].key]))
    && (forall k :: k in c.intents && Open(c.intents[k]) ==> exists i :: 0 <= i < |queue| && queue[i].key == k)
  }

  lemma SnapshotWaits(c: Cell, epoch: int, queue: seq<Intent>)
    requires Gate(c) && SnapshotAllowed(c, epoch) && SnapshotOf(c, queue)
    ensures Waiting(c, epoch, queue)
  {
  }

  /** Committing a success removes the first intent of the queue and touches no other. */
  lemma SuccessWaits(c: Cell, epoch: int, queue: seq<Intent>, outcome: Outcome)
    requires Core(c) && Waiting(c, epoch, queue) && queue != [] && Clean(outcome)
    requires CommitTx(c, epoch, queue[0].key, outcome).Ok?
    ensures var d := CommitTx(c, epoch, queue[0].key, outcome).value;
            && Core(d) && Waiting(d, epoch, queue[1..])
            && queue[0].key in d.intents && d.intents[queue[0].key].status == IntentApplied
            && forall k :: k in c.intents && k != queue[0].key ==> k in d.intents && d.intents[k] == c.intents[k]
  {
    hide Core, Gate, CommitTx;
    CommitKeepsCore(c, epoch, queue[0].key, outcome);
    CommitKeepsGate(c, epoch, queue[0].key, outcome);
    CommittedRows(c, epoch, queue[0].key, outcome);
    var d := CommitTx(c, epoch, queue[0].key, outcome).value;
    forall k | k in d.intents && Open(d.intents[k])
      ensures exists i :: 0 <= i < |queue[1..]| && queue[1..][i].key == k
    {
      var i :| 0 <= i < |queue| && queue[i].key == k;
      assert queue[1..][i - 1].key == k;
    }
  }

  lemma DrainStep(db: Db, id: TaskId, epoch: int, queue: seq<Intent>, answer: Intent -> Outcome)
    requires id in db.cells && queue != [] && CommitChecked(db, id, epoch, queue[0].key, answer(queue[0])).Ok?
    ensures var tx := CommitChecked(db, id, epoch, queue[0].key, answer(queue[0]));
            && tx == CommitTx(db.cells[id], epoch, queue[0].key, answer(queue[0]))
            && id in Put(db, id, tx).cells && Put(db, id, tx).cells[id] == tx.value
            && (Clean(answer(queue[0])) ==>
                  Drain(db, id, epoch, queue, answer) == Drain(Put(db, id, tx), id, epoch, queue[1..], answer))
  {
    hide CommitTx, PrConflict;
  }

  lemma DrainEnds(db: Db, id: TaskId, epoch: int, queue: seq<Intent>, answer: Intent -> Outcome)
    requires id in db.cells && queue != []
    ensures var tx := CommitChecked(db, id, epoch, queue[0].key, answer(queue[0]));
            && (tx.Err? ==> Drain(db, id, epoch, queue, answer) == (db, Some(tx.error)))
            && (tx.Ok? && answer(queue[0]).RemoteFailed? ==>
                Drain(db, id, epoch, queue, answer) == (Put(db, id, tx), Some(Remote)))
  {
    hide CommitChecked;
  }

  /** Recording this answer would give the task a pull request that another active task already holds. */
  predicate Conflicts(db: Db, id: TaskId, o: Outcome)
    requires id in db.cells
  {
    PrConflict(db, db.cells[id].task, o)
  }

  predicate NoConflicts(db: Db, id: TaskId, queue: seq<Intent>, answer: Intent -> Outcome)
    requires id in db.cells
  {
    forall i :: 0 <= i < |queue| ==> !Conflicts(db, id, answer(queue[i]))
  }

  predicate AllSucceed(queue: seq<Intent>, answer: Intent -> Outcome) {
    forall i :: 0 <= i < |queue| ==> Clean(answer(queue[i]))
  }

  /** The commit of a waiting intent can only be refused for its pull request. */
  lemma CommitRefusedExactly(db: Db, id: TaskId, epoch: int, queue: seq<Intent>, o: Outcome)
    requires id in db.cells && Waiting(db.cells[id], epoch, queue) && queue != []
    ensures CommitTx(db.cells[id], epoch, queue[0].key, o).Ok?
    ensures CommitChecked(db, id, epoch, queue[0].key, o)
            == if Conflicts(db, id, o) then Err(Conflict) else CommitTx(db.cells[id], epoch, queue[0].key, o)
  {
    hide PrConflict, Settling, IntentShape;
    var c := db.cells[id];
    assert Open(c.intents[queue[0].key]) && Applicable(c.task, c.intents[queue[0].key].epoch);
  }

  /** Another answer's conflict does not depend on the pull request that this success recorded. */
  lemma ConflictsStay(db: Db, id: TaskId, epoch: int, key: IntentKey, first: Outcome, o: Outcome)
    requires id in db.cells && db.cells[id].task.id == id && Clean(first)
    requires CommitTx(db.cells[id], epoch, key, first).Ok?
    ensures var tx := CommitTx(db.cells[id], epoch, key, first);
            && tx.value.task.id == id && Conflicts(Put(db, id, tx), id, o) == Conflicts(db, id, o)
  {
    var tx := CommitTx(db.cells[id], epoch, key, first);
    var after := Put(db, id, tx);
    var t, u := db.cells[id].task, tx.value.task;
    assert u == t.(pr := u.pr);
    if o.RemoteApplied? {
      assert u.(pr := o.pr) == t.(pr := o.pr);
      var v := t.(pr := o.pr);
      assert forall d :: d in db.cells && d != id ==> d in after.cells && after.cells[d] == db.cells[d];
      assert IndexConflict(after, v) == IndexConflict(db, v) by {
        SameConflicts(db, after, v);
      }
    }
  }

  lemma SameConflicts(db: Db, after: Db, t: Task)
    requires after.cells.Keys == db.cells.Keys
    requires forall d :: d in db.cells && d != t.id ==> after.cells[d] == db.cells[d]
    ensures IndexConflict(after, t) == IndexConflict(db, t)
  {
    hide Clash;
  }

  /** After a recorded success the same answers conflict as before. */
  lemma RestConflicts(db: Db, id: TaskId, epoch: int, queue: seq<Intent>, answer: Intent -> Outcome)
    requires id in db.cells && db.cells[id].task.id == id && queue != [] && AllSucceed(queue, answer)
    requires CommitTx(db.cells[id], epoch, queue[0].key, answer(queue[0])).Ok?
    ensures var tx := CommitTx(db.cells[id], epoch, queue[0].key, answer(queue[0]));
            var next := Put(db, id, tx);
            && next.cells[id] == tx.value && tx.value.task.id == id && AllSucceed(queue[1..], answer)
            && (NoConflicts(db, id, queue, answer)
                <==> !Conflicts(db, id, answer(queue[0])) && NoConflicts(next, id, queue[1..], answer))
  {
    hide CommitTx, Conflicts, Clean;
    var next := Put(db, id, CommitTx(db.cells[id], epoch, queue[0].key, answer(queue[0])));
    forall i | 0 <= i < |queue|
      ensures next.cells[id].task.id == id &&
                Conflicts(next, id, answer(queue[i])) == Conflicts(db, id, answer(queue[i]))
      ensures i > 0 ==> queue[1..][i - 1] == queue[i]
    {
      ConflictsStay(db, id, epoch, queue[0].key, answer(queue[0]), answer(queue[i]));
    }
    if NoConflicts(next, id, queue[1..], answer) && !Conflicts(db, id, answer(queue[0])) {
      forall i | 0 <= i < |queue| ensures !Conflicts(db, id, answer(queue[i])) {
        assert i > 0 ==> !Conflicts(next, id, answer(queue[1..][i - 1]));
      }
    }
  }

  /**
   When every callback succeeds, an application runs to its end exactly when no answer names a
   pull request that another active task holds; the first such answer ends it.
   */
  lemma {:induction false} DrainSucceedsExactly(db: Db, id: TaskId, epoch: int, queue: seq<Intent>,
      answer: Intent -> Outcome)
    requires id in db.cells && db.cells[id].task.id == id && Core(db.cells[id]) && Waiting(db.cells[id], epoch, queue)
    requires AllSucceed(queue, answer)
    ensures Drain(db, id, epoch, queue, answer).1 == if NoConflicts(db, id, queue, answer) then None else Some(Conflict)
    decreases |queue|
  {
    if queue != [] {
      DrainEnds(db, id, epoch, queue, answer);
      hide Core, Waiting, CommitTx, Conflicts, CommitChecked, Drain;
      CommitRefusedExactly(db, id, epoch, queue, answer(queue[0]));
      RestConflicts(db, id, epoch, queue, answer);
      hide NoConflicts;
      if Conflicts(db, id, answer(queue[0])) {
        assert !NoConflicts(db, id, queue, answer);
      } else {
        DrainStep(db, id, epoch, queue, answer);
        SuccessWaits(db.cells[id], epoch, queue, answer(queue[0]));
        DrainSucceedsExactly(Put(db, id, CommitTx(db.cells[id], epoch, queue[0].key, answer(queue[0]))), id, epoch,
            queue[1..], answer);
      }
    }
  }

  /**
   When every callback succeeds and no answer conflicts, an application leaves nothing to
   apply: the report can be finalized.
   */
  lemma {:induction false} DrainOpensGate(db: Db, id: TaskId, epoch: int, queue: seq<Intent>, answer: Intent -> Outcome)
    requires id in db.cells && db.cells[id].task.id == id && Core(db.cells[id]) && Waiting(db.cells[id], epoch, queue)
    requires AllSucceed(queue, answer) && NoConflicts(db, id, queue, answer)
    ensures var (after, err) := Drain(db, id, epoch, queue, answer);
            err.None? && id in after.cells && FinalizeGate(after.cells[id], epoch).Ok?
    decreases |queue|
  {
    if queue == [] {
      assert forall k :: k in db.cells[id].intents ==> !Open(db.cells[id].intents[k]);
    } else {
      hide Core, Waiting, CommitTx, Conflicts, CommitChecked, Drain;
      CommitRefusedExactly(db, id, epoch, queue, answer(queue[0]));
      DrainStep(db, id, epoch, queue, answer);
      SuccessWaits(db.cells[id], epoch, queue, answer(queue[0]));
      RestConflicts(db, id, epoch, queue, answer);
      DrainOpensGate(Put(db, id, CommitTx(db.cells[id], epoch, queue[0].key, answer(queue[0]))), id, epoch, queue[1..],
          answer);
    }
  }

  /** A completed application of successes changes only the task's pull request number: to the last one given. */
  lemma {:induction false} DrainRecordsNumber(db: Db, id: TaskId, epoch: int, queue: seq<Intent>,
      answer: Intent -> Outcome)
    requires id in db.cells && db.cells[id].task.id == id && Core(db.cells[id]) && Waiting(db.cells[id], epoch, queue)
    requires AllSucceed(queue, answer) && NoConflicts(db, id, queue, answer)
    ensures var after := Drain(db, id, epoch, queue, answer).0;
            && id in after.cells
            && after.cells[id].task == db.cells[id].task.(pr := after.cells[id].task.pr)
            && LastNumber(queue, answer, db.cells[id].task.pr, after.cells[id].task.pr)
    decreases |queue|
  {
    if queue != [] {
      hide Core, Waiting, CommitTx, Conflicts, CommitChecked, Drain, LastNumber;
      var c, o := db.cells[id], answer(queue[0]);
      CommitRefusedExactly(db, id, epoch, queue, o);
      DrainStep(db, id, epoch, queue, answer);
      SuccessWaits(c, epoch, queue, o);
      RestConflicts(db, id, epoch, queue, answer);
      CommitColumns(c, epoch, queue[0].key, o);
      DrainRecordsNumber(Put(db, id, CommitTx(c, epoch, queue[0].key, o)), id, epoch, queue[1..], answer);
      NumberFirst(queue, answer, c.task.pr, Drain(db, id, epoch, queue, answer).0.cells[id].task.pr);
    }
  }

  /** The same from the snapshot that ApplyEffects takes: it opens the gate exactly when no answer conflicts. */
  lemma ApplicationOpensGate(db: Db, id: TaskId, epoch: int, queue: seq<Intent>, answer: Intent -> Outcome)
    requires id in db.cells && db.cells[id].task.id == id && Core(db.cells[id]) && Gate(db.cells[id])
    requires SnapshotAllowed(db.cells[id], epoch) && SnapshotOf(db.cells[id], queue)
    requires AllSucceed(queue, answer)
    ensures var (after, err) := Drain(db, id, epoch, queue, answer);
            && (err.None? <==> NoConflicts(db, id, queue, answer))
            && (err.None? ==>
                  && id in after.cells && FinalizeGate(after.cells[id], epoch).Ok?
                  && LastNumber(queue, answer, db.cells[id].task.pr, after.cells[id].task.pr)
                  && after.cells[id].task == db.cells[id].task.(pr := after.cells[id].task.pr))
  {
    hide Core, Gate, SnapshotAllowed, SnapshotOf, Waiting, Drain, NoConflicts, FinalizeGate, AllSucceed, LastNumber;
    SnapshotWaits(db.cells[id], epoch, queue);
    DrainSucceedsExactly(db, id, epoch, queue, answer);
    if Drain(db, id, epoch, queue, answer).1.None? {
      DrainOpensGate(db, id, epoch, queue, answer);
      DrainRecordsNumber(db, id, epoch, queue, answer);
    }
  }

  /**
   Where a failed application stopped: everything before is applied, the failed intent is
   uncertain, the rest is untouched.
   */
  ghost predicate StoppedAt(before: Cell, after: Cell, queue: seq<Intent>, n: nat)
    requires n < |queue|
  {
    && queue[n].key in after.intents && after.intents[queue[n].key].status == IntentUncertain
    && (forall i :: 0 <= i < n ==> queue[i].key in after.intents && after.intents[queue[i].key].status == IntentApplied)
    && (forall i :: n < i < |queue| ==> queue[i].key in after.intents && queue[i].key in before.intents
                                        && after.intents[queue[i].key] == before.intents[queue[i].key])
    && (forall k :: k in before.intents && (forall i :: 0 <= i < |queue| ==> queue[i].key != k) ==>
          k in after.intents && after.intents[k] == before.intents[k])
  }

  /** A failed callback leaves its intent uncertain, so the whole queue is still waiting. */
  lemma FailureWaits(c: Cell, epoch: int, queue: seq<Intent>, outcome: Outcome)
    requires Core(c) && Waiting(c, epoch, queue) && queue != [] && outcome.RemoteFailed?
    requires CommitTx(c, epoch, queue[0].key, outcome).Ok?
    ensures var d := CommitTx(c, epoch, queue[0].key, outcome).value;
            Waiting(d, epoch, queue) && StoppedAt(c, d, queue, 0)
  {
    hide Core, Gate;
    CommitKeepsGate(c, epoch, queue[0].key, outcome);
  }

  lemma StoppedLater(c: Cell, d: Cell, after: Cell, queue: seq<Intent>, n: nat)
    requires 0 < n < |queue| && StoppedAt(d, after, queue[1..], n - 1)
    requires forall i, j :: 0 <= i < j < |queue| ==> queue[i].key != queue[j].key
    requires queue[0].key in d.intents && d.intents[queue[0].key].status == IntentApplied
    requires forall k :: k in c.intents && k != queue[0].key ==> k in d.intents && d.intents[k] == c.intents[k]
    requires forall i :: 0 <= i < |queue| ==> queue[i].key in c.intents
    ensures StoppedAt(c, after, queue, n)
  {
    assert forall i :: 0 <= i < |queue| - 1 ==> queue[1..][i] == queue[i + 1];
    forall i | 0 <= i < n
      ensures queue[i].key in after.intents && after.intents[queue[i].key].status == IntentApplied
    {
      if i > 0 {
        assert queue[1..][i - 1] == queue[i];
      }
    }
    forall i | n < i < |queue|
      ensures queue[i].key in after.intents && after.intents[queue[i].key] == c.intents[queue[i].key]
    {
      assert queue[1..][i - 1] == queue[i];
    }
    assert queue[1..][n - 1] == queue[n];
  }

  /**
   An application whose n-th callback is the first to fail, after answers that can be recorded,
   stops there, and the report stays applicable.
   */
  lemma {:induction false} DrainStopsAtFailure(db: Db, id: TaskId, epoch: int, queue: seq<Intent>,
      answer: Intent -> Outcome, n: nat)
    requires id in db.cells && db.cells[id].task.id == id && Core(db.cells[id]) &&
               Waiting(db.cells[id], epoch, queue) && n < |queue|
    requires forall i :: 0 <= i < n ==> Clean(answer(queue[i])) && !Conflicts(db, id, answer(queue[i]))
    requires answer(queue[n]).RemoteFailed?
    ensures var (after, err) := Drain(db, id, epoch, queue, answer);
            && err == Some(Remote) && id in after.cells && Waiting(after.cells[id], epoch, queue[n..])
            && StoppedAt(db.cells[id], after.cells[id], queue, n)
    decreases |queue|
  {
    var c := db.cells[id];
    assert n == 0 ==> !Conflicts(db, id, answer(queue[0]));
    DrainEnds(db, id, epoch, queue, answer);
    hide Core, CommitTx, CommitChecked, Waiting, StoppedAt, Conflicts, Drain;
    CommitRefusedExactly(db, id, epoch, queue, answer(queue[0]));
    DrainStep(db, id, epoch, queue, answer);
    var tx := CommitTx(c, epoch, queue[0].key, answer(queue[0]));
    if n == 0 {
      FailureWaits(c, epoch, queue, answer(queue[0]));
      assert queue[0..] == queue;
    } else {
      SuccessWaits(c, epoch, queue, answer(queue[0]));
      ConflictsStay(db, id, epoch, queue[0].key, answer(queue[0]), answer(queue[0]));
      forall i | 0 <= i < n - 1
        ensures Clean(answer(queue[1..][i])) && !Conflicts(Put(db, id, tx), id, answer(queue[1..][i]))
      {
        assert queue[1..][i] == queue[i + 1];
        ConflictsStay(db, id, epoch, queue[0].key, answer(queue[0]), answer(queue[i + 1]));
      }
      DrainStopsAtFailure(Put(db, id, tx), id, epoch, queue[1..], answer, n - 1);
      WaitingKeys(c, epoch, queue);
      StoppedLater(c, tx.value, Drain(db, id, epoch, queue, answer).0.cells[id], queue, n);
      assert queue[1..][n - 1..] == queue[n..];
    }
  }

  /** A mismatched head closes the task: what came before is applied, what follows failed. */
  ghost predicate MismatchAt(after: Cell, queue: seq<Intent>, n: nat)
    requires n < |queue|
  {
    && after.task.state == HeadMismatch
    && (forall i :: 0 <= i <= n ==> queue[i].key in after.intents
                                    && after.intents[queue[i].key].status == IntentApplied)
    && (forall i :: n < i < |queue| ==> queue[i].key in after.intents
                                        && after.intents[queue[i].key].status == IntentFailed)
  }

  lemma DrainMismatch(db: Db, id: TaskId, epoch: int, queue: seq<Intent>, answer: Intent -> Outcome)
    requires id in db.cells && queue != [] && answer(queue[0]).RemoteApplied? && answer(queue[0]).headMismatch
    requires CommitChecked(db, id, epoch, queue[0].key, answer(queue[0])).Ok?
    ensures Drain(db, id, epoch, queue, answer)
            == (Put(db, id, CommitChecked(db, id, epoch, queue[0].key, answer(queue[0]))), None)
  {
    hide CommitChecked;
  }

  /** An application whose n-th answer is the first to reveal a mismatched head ends there without an error. */
  lemma {:induction false} DrainStopsAtMismatch(db: Db, id: TaskId, epoch: int, queue: seq<Intent>,
      answer: Intent -> Outcome, n: nat)
    requires id in db.cells && db.cells[id].task.id == id && Core(db.cells[id]) &&
               Waiting(db.cells[id], epoch, queue) && n < |queue|
    requires forall i :: 0 <= i <= n ==> answer(queue[i]).RemoteApplied? && !Conflicts(db, id, answer(queue[i]))
    requires forall i :: 0 <= i <= n ==> (answer(queue[i]).headMismatch <==> i == n)
    ensures var (after, err) := Drain(db, id, epoch, queue, answer);
            err.None? && id in after.cells && MismatchAt(after.cells[id], queue, n)
            && forall k :: k in db.cells[id].intents && db.cells[id].intents[k].status == IntentApplied ==>
                 k in after.cells[id].intents && after.cells[id].intents[k].status == IntentApplied
    decreases |queue|
  {
    hide Core, CommitTx, CommitChecked, Waiting, Conflicts, Drain, MismatchAt;
    var c := db.cells[id];
    CommitRefusedExactly(db, id, epoch, queue, answer(queue[0]));
    DrainStep(db, id, epoch, queue, answer);
    var tx := CommitTx(c, epoch, queue[0].key, answer(queue[0]));
    if n == 0 {
      DrainMismatch(db, id, epoch, queue, answer);
      MismatchNow(c, epoch, queue, answer(queue[0]));
    } else {
      SuccessWaits(c, epoch, queue, answer(queue[0]));
      forall i | 0 <= i < n
        ensures answer(queue[1..][i]).RemoteApplied? && !Conflicts(Put(db, id, tx), id, answer(queue[1..][i]))
        ensures answer(queue[1..][i]).headMismatch <==> i == n - 1
      {
        assert queue[1..][i] == queue[i + 1] && !Conflicts(db, id, answer(queue[i + 1]));
        ConflictsStay(db, id, epoch, queue[0].key, answer(queue[0]), answer(queue[i + 1]));
      }
      ConflictsStay(db, id, epoch, queue[0].key, answer(queue[0]), answer(queue[0]));
      DrainStopsAtMismatch(Put(db, id, tx), id, epoch, queue[1..], answer, n - 1);
      MismatchLater(Drain(db, id, epoch, queue, answer).0.cells[id], queue, n);
    }
  }

  lemma MismatchNow(c: Cell, epoch: int, queue: seq<Intent>, o: Outcome)
    requires Waiting(c, epoch, queue) && queue != [] && o.RemoteApplied? && o.headMismatch
    requires CommitTx(c, epoch, queue[0].key, o).Ok?
    ensures var d := CommitTx(c, epoch, queue[0].key, o).value;
            && MismatchAt(d, queue, 0)
            && forall k :: k in c.intents && c.intents[k].status == IntentApplied ==>
                 k in d.intents && d.intents[k].status == IntentApplied
  {
    hide Gate, CommitTx;
    CommitColumns(c, epoch, queue[0].key, o);
    assert Open(c.intents[queue[0].key]);
  }

  lemma MismatchLater(after: Cell, queue: seq<Intent>, n: nat)
    requires 0 < n < |queue| && MismatchAt(after, queue[1..], n - 1)
    requires queue[0].key in after.intents && after.intents[queue[0].key].status == IntentApplied
    ensures MismatchAt(after, queue, n)
  {
    forall i | 0 < i < |queue|
      ensures queue[i].key in after.intents
      ensures after.intents[queue[i].key].status == if i <= n then IntentApplied else IntentFailed
    {
      assert queue[1..][i - 1] == queue[i];
    }
  }

  lemma WaitingKeys(c: Cell, epoch: int, queue: seq<Intent>)
    requires Waiting(c, epoch, queue)
    ensures forall i, j :: 0 <= i < j < |queue| ==> queue[i].key != queue[j].key
    ensures forall i :: 0 <= i < |queue| ==> queue[i].key in c.intents
  {
    hide Gate;
  }

  // ----- one finalization for each accepted report -----

  /** The report of this epoch is no longer waiting: the task is closed, has moved on, or keeps its worker. */
  predicate Settled(c: Cell, epoch: int) {
    !Applicable(c.task, epoch) && (Terminal(c.task) || c.task.token > epoch || c.task.payload.durable)
  }

  lemma FinalizeSettles(c: Cell, epoch: int, failed: bool, now: Time)
    requires FinalizeTx(c, epoch, failed, now).Ok?
    ensures Settled(FinalizeTx(c, epoch, failed, now).value, epoch)
  {
    hide AllApplied;
  }

  /** Only another report under the same token makes a settled epoch applicable again. */
  lemma SettledUntilReported(c: Cell, e: CellEvent, epoch: int)
    requires Core(c) && Settled(c, epoch) && EventTx(c, e).Ok? && !Settled(EventTx(c, e).value, epoch)
    ensures e.Tx? && e.op.AcceptResult? && e.op.fence == epoch
  {
    hide PatchEpoch, PatchOpen, FailIntents, DropEpoch, AcceptIntents, RowShape, LeaseRow, Budget;
  }

  /** The action stores a report of this epoch: it is accepted, and the lease waits for the controller from then on. */
  predicate Reported(s: System, a: Action, id: TaskId, epoch: int) {
    && a.OnTask? && a.id == id && a.op.AcceptResult? && a.op.fence == epoch
    && id in s.db.cells && CellTx(s.db.cells[id], a.op).Ok?
    && s.db.cells[id].task.lease.Some? && CellTx(s.db.cells[id], a.op).value.task.lease.None?
  }

  /** The action commits a finalization of this epoch. */
  predicate Finalized(s: System, a: Action, id: TaskId, epoch: int) {
    && id in s.db.cells && EventOf(s, a, id).Some? && EventOf(s, a, id).value.Finalizes?
    && EventOf(s, a, id).value.epoch == epoch && EventTx(s.db.cells[id], EventOf(s, a, id).value).Ok?
  }

  /** Two finalizations of one epoch in a run have another accepted report of that epoch between them. */
  lemma FinalizedOncePerReport(states: seq<System>, actions: seq<Action>, i: nat, j: nat, id: TaskId, epoch: int)
    requires IsRun(states, actions) && i < j < |actions|
    requires Finalized(states[i], actions[i], id, epoch) && Finalized(states[j], actions[j], id, epoch)
    ensures exists k :: i < k < j && Reported(states[k], actions[k], id, epoch)
  {
    var e := EventOf(states[i], actions[i], id).value;
    ReachableSound(states, actions, i);
    StepOnTask(states[i], actions[i], states[i + 1], id);
    FinalizeSettles(states[i].db.cells[id], epoch, e.failed, e.now);
    var k := ReportBetween(states, actions, i + 1, j, id, epoch);
  }

  lemma {:induction false} ReportBetween(states: seq<System>, actions: seq<Action>, i: nat, j: nat, id: TaskId,
      epoch: int)
    returns (k: nat)
    requires IsRun(states, actions) && i <= j < |actions| && id in states[i].db.cells &&
               Settled(states[i].db.cells[id], epoch)
    requires id in states[j].db.cells && Applicable(states[j].db.cells[id].task, epoch)
    ensures i <= k < j && Reported(states[k], actions[k], id, epoch)
    decreases j - i
  {
    hide Next, EventTx, Core, CellTx;
    ReachableSound(states, actions, i);
    StepAdvances(states[i], actions[i], states[i + 1], id);
    StepOnTask(states[i], actions[i], states[i + 1], id);
    if Settled(states[i + 1].db.cells[id], epoch) {
      k := ReportBetween(states, actions, i + 1, j, id, epoch);
    } else {
      var e := EventOf(states[i], actions[i], id).value;
      SettledUntilReported(states[i].db.cells[id], e, epoch);
      AcceptanceWaits(states[i].db.cells[id], e);
      k := i;
    }
  }

  /** An accepted report ends a lease. */
  lemma AcceptanceWaits(c: Cell, e: CellEvent)
    requires e.Tx? && e.op.AcceptResult? && EventTx(c, e).Ok?
    ensures CellTx(c, e.op) == EventTx(c, e) && HoldsLease(c.task, e.op.worker, e.op.fence)
    ensures EventTx(c, e).value.task.lease.None? && EventTx(c, e).value.task.token == c.task.token
  {
    hide AcceptFrom, PatchEpoch;
  }

  // ----- one report for each token -----

  /** This epoch has reported, and its lease has not been given back. */
  predicate Spent(c: Cell, epoch: int) {
    c.task.token > epoch || (c.task.token == epoch && c.task.lease.None?)
  }

  /** The action commits a finalization that retains a durable interruption of this epoch. */
  predicate RetainedAt(s: System, a: Action, id: TaskId, epoch: int) {
    && Finalized(s, a, id, epoch)
    && Retained(s.db.cells[id], epoch, EventOf(s, a, id).value.failed)
  }

  /** Only retaining a durable interruption gives a reported epoch a lease again. */
  lemma SpentUntilRetained(c: Cell, e: CellEvent, epoch: int)
    requires Core(c) && Spent(c, epoch) && EventTx(c, e).Ok? && !Spent(EventTx(c, e).value, epoch)
    ensures e.Finalizes? && e.epoch == epoch && Retained(c, epoch, e.failed)
  {
    hide PatchEpoch, PatchOpen, FailIntents, DropEpoch, AcceptIntents, RowShape, LeaseRow, Budget, Retained, Closed;
    if e.Finalizes? {
      ClosingKeepsNoLease(c, e.failed);
    }
  }

  lemma ClosingKeepsNoLease(c: Cell, failed: bool)
    requires c.task.result.Some?
    ensures Closed(c.task, c.task.result.value, failed).lease == c.task.lease
    ensures Closed(c.task, c.task.result.value, failed).token >= c.task.token
  {
  }

  lemma {:induction false} RetentionBetween(states: seq<System>, actions: seq<Action>, i: nat, j: nat, id: TaskId,
      epoch: int)
    returns (k: nat)
    requires IsRun(states, actions) && i <= j < |actions| && id in states[i].db.cells &&
               Spent(states[i].db.cells[id], epoch)
    requires id in states[j].db.cells && !Spent(states[j].db.cells[id], epoch)
    ensures i <= k < j && RetainedAt(states[k], actions[k], id, epoch)
    decreases j - i
  {
    hide Next, EventTx, Core, CellTx, Retained;
    ReachableSound(states, actions, i);
    StepAdvances(states[i], actions[i], states[i + 1], id);
    StepOnTask(states[i], actions[i], states[i + 1], id);
    if Spent(states[i + 1].db.cells[id], epoch) {
      k := RetentionBetween(states, actions, i + 1, j, id, epoch);
    } else {
      SpentUntilRetained(states[i].db.cells[id], EventOf(states[i], actions[i], id).value, epoch);
      k := i;
    }
  }

  /** Between two accepted reports of one token lies a committed retention of a durable interruption. */
  lemma ReportedOncePerRetention(states: seq<System>, actions: seq<Action>, i: nat, j: nat, id: TaskId, epoch: int)
    requires IsRun(states, actions) && i < j < |actions|
    requires Reported(states[i], actions[i], id, epoch) && Reported(states[j], actions[j], id, epoch)
    ensures exists k :: i < k < j && RetainedAt(states[k], actions[k], id, epoch)
  {
    hide Core, Next, Retained, CellTx;
    ReachableSound(states, actions, i);
    StepOnTask(states[i], actions[i], states[i + 1], id);
    AcceptanceWaits(states[i].db.cells[id], Tx(actions[i].op));
    AcceptanceWaits(states[j].db.cells[id], Tx(actions[j].op));
    var k := RetentionBetween(states, actions, i + 1, j, id, epoch);
  }

  /** So a task that is not durable reports at most once under each token. */
  lemma OneReportPerToken(states: seq<System>, actions: seq<Action>, i: nat, j: nat, id: TaskId, epoch: int)
    requires IsRun(states, actions) && i <= j < |actions|
    requires Reported(states[i], actions[i], id, epoch) && Reported(states[j], actions[j], id, epoch)
    requires !states[j].db.cells[id].task.payload.durable
    ensures i == j
  {
    if i < j {
      ReportedOncePerRetention(states, actions, i, j, id, epoch);
      var k :| i < k < j && RetainedAt(states[k], actions[k], id, epoch);
      assert states[k].db.cells[id].task.payload.durable;
      hide Reported, RetainedAt;
      RunAdvances(states, actions, k, j, id);
    }
  }
}
