/** What every transaction keeps about the rows of one task. */
module Invariants {
  import opened Basics
  import opened TaskModel
  import opened Transactions
  import opened Queue

  /** Attempts never exceed the budget, and work that can still run is strictly below it. */
  predicate Budget(t: Task) {
    && 0 <= t.attempt <= MAX_INFRASTRUCTURE_ATTEMPTS
    && (Active(t) ==> t.attempt < MAX_INFRASTRUCTURE_ATTEMPTS)
    // An expired repair spends an attempt while it stays leased; it never runs again afterwards.
    && (t.kind == Repair && !t.payload.durable && (t.state == Pending || (t.state == Leased && t.lease.Some?)) ==>
        t.attempt == 0)
  }

  /** How the lease columns determine one another. */
  predicate LeaseShape(t: Task) {
    && t.token >= 0 && t.pr >= 0 && t.issue >= 0
    && (t.lease.Some? ==> t.state == Leased && t.owner != "" && t.token >= 1)
    && (t.state == Pending ==> t.owner == "" && t.result.None?)
    && (t.state == Leased && t.lease.None? ==> t.result.Some? && t.result.value.shaped)
    // Only a retained interruption keeps a report beside a lease.
    && (t.state == Leased && t.lease.Some? && t.result.Some? ==>
        t.payload.durable && (t.kind == Implement || t.kind == Repair))
    && (t.state == Leased ==> t.token >= 1)
    // Only an expired repair is leased to nobody.
    && (t.state == Leased && t.owner == "" ==> t.result == Some(LEASE_EXPIRED_REPORT) && !t.payload.durable)
  }

  /** Attempt rows are numbered within the budget and at most one belongs to each epoch. */
  predicate RowShape(c: Cell) {
    && (forall k :: k in c.attempts ==>
         && k.task == c.task.id && 1 <= k.number <= MAX_INFRASTRUCTURE_ATTEMPTS && k.number <= c.task.attempt + 1
         && 1 <= c.attempts[k].epoch <= c.task.token)
    && (forall k, l :: k in c.attempts && l in c.attempts && c.attempts[k].epoch == c.attempts[l].epoch ==> k == l)
    && (c.task.state == Pending ==> forall k :: k in c.attempts ==> k.number <= c.task.attempt)
  }

  /** A lease, until its report is settled, has its own attempt row with the lease's token and owner. */
  predicate LeaseRow(c: Cell) {
    c.task.state == Leased && c.task.owner != "" ==>
      var key := AttemptKey(c.task.id, c.task.attempt + 1);
      key in c.attempts && c.attempts[key].epoch == c.task.token && c.attempts[key].worker == c.task.owner
  }

  predicate Core(c: Cell) {
    Budget(c.task) && LeaseShape(c.task) && RowShape(c) && LeaseRow(c)
  }

  /** Keys, markers and positions of intents agree. */
  predicate IntentShape(t: Task, i: Intent) {
    && i.key.task == t.id && i.payload.repo == t.repo && 1 <= i.epoch <= t.token
    && match i.key
       case Slot(_, epoch, index) => i.epoch == epoch && i.position == index && index >= 0 && i.payload.kind != PrCreate
       case PrKey(_, head) => i.position == -1 && i.payload.kind == PrCreate && i.payload.head == head
  }

  /** The intent gate: unsettled work belongs to the report under application, failed work to a closed task. */
  predicate Gate(c: Cell) {
    && (forall k :: k in c.intents ==> c.intents[k].key == k && IntentShape(c.task, c.intents[k]))
    && (forall k :: k in c.intents && Open(c.intents[k]) ==> Applicable(c.task, c.intents[k].epoch))
    && (forall k :: k in c.intents && c.intents[k].status == IntentFailed ==>
         c.task.state == Failed || c.task.state == Cancelled || c.task.state == HeadMismatch)
    // At most one open pull request, so positions order the open intents of a task strictly.
    && (forall k, l :: (k in c.intents && l in c.intents && Open(c.intents[k]) && Open(c.intents[l])
                        && c.intents[k].position == c.intents[l].position) ==> k == l)
  }

  // ----- consequences -----

  lemma {:induction false} DistinctNumbersBound(keys: set<AttemptKey>, task: TaskId, n: nat)
    requires forall k :: k in keys ==> k.task == task && 1 <= k.number <= n
    ensures |keys| <= n
  {
    if n == 0 {
      assert keys == {};
    } else {
      var rest := keys - {AttemptKey(task, n)};
      DistinctNumbersBound(rest, task, n - 1);
      assert keys <= rest + {AttemptKey(task, n)};
      if AttemptKey(task, n) in keys {
        assert |keys| == |rest| + 1;
      } else {
        assert keys == rest;
      }
    }
  }

  /** A task never has more attempt rows than the budget allows. */
  lemma AttemptRowsBounded(c: Cell)
    requires Core(c)
    ensures |c.attempts| <= MAX_INFRASTRUCTURE_ATTEMPTS
  {
    DistinctNumbersBound(c.attempts.Keys, c.task.id, MAX_INFRASTRUCTURE_ATTEMPTS);
    assert |c.attempts| == |c.attempts.Keys|;
  }

  /** No intent of an earlier epoch can block finalization, and a finished task has nothing left to apply. */
  lemma GateConsequences(c: Cell)
    requires Core(c) && Gate(c)
    ensures forall k :: k in c.intents && c.intents[k].status != IntentApplied && c.task.state == Leased ==>
              c.intents[k].epoch == c.task.token
    ensures c.task.state == Done || c.task.state == Pending || c.task.lease.Some? ==> AllApplied(c.intents)
  {
  }

  // ----- the transactions keep Core -----

  /** Every row is numbered and dated before the lease that is about to open. */
  predicate RowsBefore(t: Task, rows: map<AttemptKey, Attempt>) {
    && (forall k :: k in rows ==> k.task == t.id && 1 <= k.number <= t.attempt && 1 <= rows[k].epoch < t.token)
    && (forall k, l :: k in rows && l in rows && rows[k].epoch == rows[l].epoch ==> k == l)
  }

  /** A new lease never collides with an earlier attempt row, and its row is the lease's row. */
  lemma OpenAttemptFits(t: Task, rows: map<AttemptKey, Attempt>, intents: map<IntentKey, Intent>, now: Time)
    requires RowsBefore(t, rows) && 0 <= t.attempt < MAX_INFRASTRUCTURE_ATTEMPTS && t.token >= 1 && t.state == Leased
    ensures OpenAttempt(t, rows, intents, now).Ok?
    ensures var c := OpenAttempt(t, rows, intents, now).value; RowShape(c) && LeaseRow(c)
  {
    assert AttemptKey(t.id, t.attempt + 1) !in rows;
  }

  lemma PatchEpochKeepsRows(rows: map<AttemptKey, Attempt>, epoch: int, p: RowPatch)
    ensures PatchEpoch(rows, epoch, p).Keys == rows.Keys
    ensures forall k :: k in rows ==> PatchEpoch(rows, epoch, p)[k].epoch == rows[k].epoch
                                      && PatchEpoch(rows, epoch, p)[k].worker == rows[k].worker
  {
  }

  lemma ReopenFits(c: Cell, t: Task, p: RowPatch, epoch: int, now: Time)
    requires Core(c) && c.task.state == Leased
    requires t.id == c.task.id && t.attempt == c.task.attempt + 1 < MAX_INFRASTRUCTURE_ATTEMPTS
    requires t.token == c.task.token + 1 && t.state == Leased
    ensures OpenAttempt(t, PatchEpoch(c.attempts, epoch, p), c.intents, now).Ok?
    ensures var d := OpenAttempt(t, PatchEpoch(c.attempts, epoch, p), c.intents, now).value;
            d.task == t && d.intents == c.intents && RowShape(d) && LeaseRow(d)
  {
    PatchEpochKeepsRows(c.attempts, epoch, p);
    OpenAttemptFits(t, PatchEpoch(c.attempts, epoch, p), c.intents, now);
  }

  lemma HeartbeatKeepsCore(c: Cell, worker: WorkerId, fence: int, read: Time, now: Time)
    requires Core(c) && HeartbeatTx(c, worker, fence, read, now).Ok?
    ensures Core(HeartbeatTx(c, worker, fence, read, now).value)
  {
  }

  lemma ProgressKeepsCore(c: Cell, worker: WorkerId, fence: int, age: int, now: Time)
    requires Core(c) && ProgressTx(c, worker, fence, age, now).Ok?
    ensures Core(ProgressTx(c, worker, fence, age, now).value)
  {
  }

  lemma FinishResultKeepsCore(c: Cell, worker: WorkerId, fence: int, failed: bool)
    requires Core(c) && FinishResultTx(c, worker, fence, failed).Ok?
    ensures Core(FinishResultTx(c, worker, fence, failed).value)
  {
  }

  lemma RecordFailureKeepsCore(c: Cell, epoch: int, message: string)
    requires Core(c) && RecordFailureTx(c, epoch, message).Ok?
    ensures Core(RecordFailureTx(c, epoch, message).value)
  {
  }

  lemma FinishKeepsCore(c: Cell, worker: WorkerId, fence: int, failed: bool, report: Report, now: Time)
    requires Core(c) && FinishTx(c, worker, fence, failed, report, now).Ok?
    ensures Core(FinishTx(c, worker, fence, failed, report, now).value)
  {
  }

  lemma AcceptKeepsCore(c: Cell, worker: WorkerId, fence: int, report: Report, digest: ReportDigest, now: Time)
    requires Core(c) && AcceptTx(c, worker, fence, report, digest, now).Ok?
    ensures Core(AcceptTx(c, worker, fence, report, digest, now).value)
  {
  }

  lemma ReleaseKeepsCore(c: Cell, worker: WorkerId, fence: int)
    requires Core(c) && ReleaseTx(c, worker, fence).Ok?
    ensures Core(ReleaseTx(c, worker, fence).value)
  {
  }

  lemma RecoverKeepsCore(c: Cell, worker: WorkerId, epoch: int, now: Time)
    requires Core(c) && RecoverTx(c, worker, epoch, now).Ok?
    ensures Core(RecoverTx(c, worker, epoch, now).value)
  {
    if !RecoveryReplay(c, worker, epoch) {
      ReopenFits(c, Recovered(c.task, now), RecoveryPatch(c.task, now), epoch, now);
    }
  }

  lemma AdoptKeepsCore(c: Cell, worker: WorkerId, epoch: int, expected: Report, now: Time)
    requires Core(c) && AdoptTx(c, worker, epoch, expected, now).Ok?
    ensures Core(AdoptTx(c, worker, epoch, expected, now).value)
  {
    if !AdoptionReplay(c, worker, epoch) {
      ReopenFits(c, Adopted(c.task, now), AdoptionPatch(now), epoch, now);
    }
  }

  lemma ExpireKeepsCore(c: Cell, now: Time)
    requires Core(c) && ExpireTx(c, now).Ok?
    ensures Core(ExpireTx(c, now).value)
  {
  }

  lemma CancellingKeepsCore(c: Cell, now: Time)
    requires Core(c)
    ensures Core(Cancelling(c, now))
  {
  }

  lemma EndInactiveKeepsCore(c: Cell, now: Time)
    requires Core(c) && EndInactiveTx(c, now).Ok?
    ensures Core(EndInactiveTx(c, now).value)
  {
  }

  lemma FinalizeKeepsCore(c: Cell, epoch: int, failed: bool, now: Time)
    requires Core(c) && FinalizeTx(c, epoch, failed, now).Ok?
    ensures Core(FinalizeTx(c, epoch, failed, now).value)
  {
  }

  lemma CommitKeepsCore(c: Cell, epoch: int, key: IntentKey, outcome: Outcome)
    requires Core(c) && CommitTx(c, epoch, key, outcome).Ok?
    ensures Core(CommitTx(c, epoch, key, outcome).value)
  {
    hide Core, FailIntents, PatchEpoch;
    var d := CommitTx(c, epoch, key, outcome).value;
    if outcome.RemoteApplied? && outcome.headMismatch {
      MismatchKeepsCore(c, d, epoch);
    } else {
      RelabelledKeepsCore(c, d);
    }
  }

  lemma RelabelledKeepsCore(c: Cell, d: Cell)
    requires Core(c) && d.attempts == c.attempts && d.task == c.task.(pr := d.task.pr) &&
               (d.task.pr > 0 || d.task.pr == c.task.pr)
    ensures Core(d)
  {
  }

  lemma MismatchKeepsCore(c: Cell, d: Cell, epoch: int)
    requires Core(c) && Applicable(c.task, epoch) && d.task == c.task.(pr := d.task.pr, state := HeadMismatch)
    requires d.task.pr > 0 || d.task.pr == c.task.pr
    requires d.attempts == PatchEpoch(c.attempts, epoch, RowPatch(Some("head-mismatch"), None, None, None, None))
    ensures Core(d)
  {
  }

  lemma GrantKeepsCore(c: Cell, w: Worker, claimId: string, now: Time)
    requires Core(c) && c.task.state == Pending && w.id != "" && GrantTx(c, w, claimId, now).Ok?
    ensures Core(GrantTx(c, w, claimId, now).value)
  {
  }

  lemma CellTxKeepsCore(c: Cell, op: CellOp)
    requires Core(c) && CellTx(c, op).Ok?
    ensures Core(CellTx(c, op).value)
  {
    hide Core, HeartbeatTx, ProgressTx, FinishTx, AcceptTx, FinishResultTx, ReleaseTx, RecoverTx, AdoptTx, ExpireTx,
         Cancelling, EndInactiveTx, RecordFailureTx;
    match op {
      case Heartbeat(worker, fence, read, now) => HeartbeatKeepsCore(c, worker, fence, read, now);
      case ReportProgress(worker, fence, age, now) => ProgressKeepsCore(c, worker, fence, age, now);
      case Finish(worker, fence, failed, report, now) => FinishKeepsCore(c, worker, fence, failed, report, now);
      case AcceptResult(worker, fence, report, digest, now) => AcceptKeepsCore(c, worker, fence, report, digest, now);
      case FinishResult(worker, fence, failed) => FinishResultKeepsCore(c, worker, fence, failed);
      case Release(worker, fence) => ReleaseKeepsCore(c, worker, fence);
      case RecoverExecution(worker, epoch, now) => RecoverKeepsCore(c, worker, epoch, now);
      case AdoptLegacy(worker, epoch, expected, now) => AdoptKeepsCore(c, worker, epoch, expected, now);
      case Expire(now) => ExpireKeepsCore(c, now);
      case Cancel(now) => CancellingKeepsCore(c, now);
      case Supersede(repo, pr, contract, now) => CancellingKeepsCore(c, now);
      case RetireClosed(worker, fence, now) => CancellingKeepsCore(c, now);
      case EndInactive(now) => EndInactiveKeepsCore(c, now);
      case RecordFailure(epoch, message) => RecordFailureKeepsCore(c, epoch, message);
    }
  }

  // ----- the transactions keep the gate -----

  /** The intents of a report being accepted: everything open belongs to it, with at most one pull request. */
  predicate Accepting(t: Task, intents: map<IntentKey, Intent>, prHead: string) {
    && (forall k :: k in intents ==>
        intents[k].key == k && IntentShape(t, intents[k]) && intents[k].status != IntentFailed)
    && (forall k :: k in intents && Open(intents[k]) ==> intents[k].epoch == t.token && (k.PrKey? ==> k.head == prHead))
  }

  lemma AcceptOneKeeps(t: Task, report: Report, index: nat, prHead: string, e: EffectRequest,
      intents: map<IntentKey, Intent>)
    requires t.token >= 1 && Accepting(t, intents, prHead) && ValidEffect(t, report, prHead, e)
    requires prHead == "" ==> forall k :: k in intents && Open(intents[k]) ==> !k.PrKey?
    ensures var r := AcceptOne(t, index, e, intents);
            r.Ok? ==> Accepting(t, r.value, if e.kind == PrCreate then e.head else prHead)
                      && (e.kind != PrCreate && prHead == "" ==> forall k :: k in r.value && Open(r.value[k]) ==>
                          !k.PrKey?)
  {
  }

  lemma {:induction false} AcceptFromKeeps(t: Task, report: Report, index: nat, prHead: string,
      intents: map<IntentKey, Intent>)
    requires t.token >= 1 && Accepting(t, intents, prHead) && index <= |report.effects|
    requires prHead == "" ==> forall k :: k in intents && Open(intents[k]) ==> !k.PrKey?
    ensures var r := AcceptFrom(t, report, index, prHead, intents);
            r.Ok? ==> exists head :: Accepting(t, r.value, head)
    decreases |report.effects| - index
  {
    if index < |report.effects| && ValidEffect(t, report, prHead, report.effects[index]) {
      var e := report.effects[index];
      AcceptOneKeeps(t, report, index, prHead, e, intents);
      var r := AcceptOne(t, index, e, intents);
      if r.Ok? {
        AcceptFromKeeps(t, report, index + 1, if e.kind == PrCreate then e.head else prHead, r.value);
      }
    }
  }

  lemma AcceptKeepsGate(c: Cell, worker: WorkerId, fence: int, report: Report, digest: ReportDigest, now: Time)
    requires Core(c) && Gate(c) && AcceptTx(c, worker, fence, report, digest, now).Ok?
    ensures Gate(AcceptTx(c, worker, fence, report, digest, now).value)
  {
    GateConsequences(c);
    AcceptFromKeeps(c.task, report, 0, "", c.intents);
    var d := AcceptTx(c, worker, fence, report, digest, now).value;
    var head :| Accepting(c.task, d.intents, head);
    forall k, l | (k in d.intents && l in d.intents && Open(d.intents[k]) && Open(d.intents[l])
                   && d.intents[k].position == d.intents[l].position)
      ensures k == l
    {
    }
  }

  /** Settling a task with FinishResult respects the gate exactly when nothing is left to apply. */
  lemma FinishResultGate(c: Cell, worker: WorkerId, fence: int, failed: bool)
    requires Core(c) && Gate(c) && FinishResultTx(c, worker, fence, failed).Ok?
    ensures Gate(FinishResultTx(c, worker, fence, failed).value) <==> AllApplied(c.intents)
  {
    var d := FinishResultTx(c, worker, fence, failed).value;
    if AllApplied(c.intents) {
      assert Gate(d);
    } else {
      var k :| k in c.intents && c.intents[k].status != IntentApplied;
      assert Open(d.intents[k]);
    }
  }

  /** A step that leaves every intent applied, or fails the open ones of a closed task, keeps the gate. */
  lemma SettledGate(c: Cell, d: Cell)
    requires Gate(c) && d.task.id == c.task.id && d.task.repo == c.task.repo && c.task.token <= d.task.token
    requires (AllApplied(c.intents) && d.intents == c.intents)
             || (d.intents == FailIntents(c.intents)
                 && (d.task.state == Failed || d.task.state == Cancelled || d.task.state == HeadMismatch))
    ensures Gate(d)
  {
  }

  lemma CellTxKeepsGate(c: Cell, op: CellOp)
    requires Core(c) && Gate(c) && !op.FinishResult? && CellTx(c, op).Ok?
    ensures Gate(CellTx(c, op).value)
  {
    GateConsequences(c);
    var d := CellTx(c, op).value;
    if op.AcceptResult? {
      AcceptKeepsGate(c, op.worker, op.fence, op.report, op.digest, op.now);
    } else if op.RecordFailure? {
      RecordFailureKeepsGate(c, op.epoch, op.message);
    } else if op.Expire? {
      assert AllApplied(c.intents);
      assert FailIntents(c.intents) == c.intents;
      SettledGate(c, d);
    } else if d == c {
    } else {
      OtherStepsSettle(c, op);
      SettledGate(c, d);
    }
  }

  lemma RecordFailureKeepsGate(c: Cell, epoch: int, message: string)
    requires Core(c) && Gate(c) && RecordFailureTx(c, epoch, message).Ok?
    ensures Gate(RecordFailureTx(c, epoch, message).value)
  {
  }

  lemma OtherStepsSettle(c: Cell, op: CellOp)
    requires Core(c) && Gate(c) && CellTx(c, op).Ok? && CellTx(c, op).value != c
    requires !op.FinishResult? && !op.AcceptResult? && !op.RecordFailure? && !op.Expire?
    ensures var d := CellTx(c, op).value;
            && d.task.id == c.task.id && d.task.repo == c.task.repo && c.task.token <= d.task.token
            && ((AllApplied(c.intents) && d.intents == c.intents) ||
                (d.intents == FailIntents(c.intents) && d.task.state == Cancelled))
  {
    hide Gate;
    GateConsequences(c);
  }

  lemma CommitKeepsGate(c: Cell, epoch: int, key: IntentKey, outcome: Outcome)
    requires Core(c) && Gate(c) && CommitTx(c, epoch, key, outcome).Ok?
    ensures Gate(CommitTx(c, epoch, key, outcome).value)
  {
    hide Core, Gate, FailIntents, PatchEpoch, IntentShape;
    var d := CommitTx(c, epoch, key, outcome).value;
    match outcome {
      case RemoteFailed(reference) =>
        var uncertain := c.intents[key].(status := IntentUncertain, reference := reference);
        IntentSettledKeepsGate(c, key, uncertain);
      case RemoteApplied(reference, pr, headMismatch) =>
        var applied := c.intents[key].(status := IntentApplied, reference := reference);
        var settled := c.(intents := c.intents[key := applied]);
        IntentSettledKeepsGate(c, key, applied);
        if headMismatch {
          SettledGate(settled, d);
        } else {
          TaskRelabelledKeepsGate(settled, d);
        }
    }
  }

  lemma IntentSettledKeepsGate(c: Cell, key: IntentKey, i: Intent)
    requires Gate(c) && key in c.intents && Open(c.intents[key])
    requires i == c.intents[key].(status := i.status, reference := i.reference)
    requires i.status == IntentApplied || i.status == IntentUncertain
    ensures Gate(c.(intents := c.intents[key := i]))
  {
    var d := c.(intents := c.intents[key := i]);
    assert d.intents.Keys == c.intents.Keys;
    OneSettledKeepsGate(c, key, d);
  }

  /** The gate reads a task's identity, token, state, lease and result only. */
  lemma TaskRelabelledKeepsGate(c: Cell, d: Cell)
    requires Gate(c) && d.intents == c.intents && d.task == c.task.(pr := d.task.pr)
    ensures Gate(d)
  {
  }

  lemma OneSettledKeepsGate(c: Cell, key: IntentKey, d: Cell)
    requires Gate(c) && key in c.intents && Open(c.intents[key]) && d.task == c.task
    requires d.intents.Keys == c.intents.Keys && forall k :: k in c.intents && k != key ==> d.intents[k] == c.intents[k]
    requires d.intents[key] == c.intents[key].(status := d.intents[key].status, reference := d.intents[key].reference)
    requires d.intents[key].status == IntentApplied || d.intents[key].status == IntentUncertain
    ensures Gate(d)
  {
  }

  lemma FinalizeKeepsGate(c: Cell, epoch: int, failed: bool, now: Time)
    requires Core(c) && Gate(c) && FinalizeTx(c, epoch, failed, now).Ok?
    ensures Gate(FinalizeTx(c, epoch, failed, now).value)
  {
  }

  lemma GrantKeepsGate(c: Cell, w: Worker, claimId: string, now: Time)
    requires Core(c) && Gate(c) && c.task.state == Pending && GrantTx(c, w, claimId, now).Ok?
    ensures Gate(GrantTx(c, w, claimId, now).value)
  {
    GateConsequences(c);
  }
}
