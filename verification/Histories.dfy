/** Where leases, deadlines, closed tasks and intents come from, over every run. */
module Histories {
  import opened Basics
  import opened TaskModel
  import opened Transactions
  import opened Queue
  import opened Columns
  import opened Intake
  import opened Invariants
  import opened Protocol
  import opened Safety

  /** The action changes the task by this event. */
  predicate Happens(s: System, a: Action, id: TaskId, e: CellEvent) {
    id in s.db.cells && EventOf(s, a, id) == Some(e) && EventTx(s.db.cells[id], e).Ok?
  }

  lemma StepHappens(s: System, a: Action, s': System, id: TaskId)
    requires Sound(s) && Next(s, a, s') && id in s.db.cells
    ensures id in s'.db.cells
    ensures s'.db.cells[id] == s.db.cells[id]
            || exists e :: Happens(s, a, id, e) && s'.db.cells[id] == EventTx(s.db.cells[id], e).value
  {
    hide Next, EventOf, EventTx;
    StepOnTask(s, a, s', id);
    if EventOf(s, a, id).Some? && EventTx(s.db.cells[id], EventOf(s, a, id).value).Ok? {
      assert Happens(s, a, id, EventOf(s, a, id).value);
    }
  }

  // ----- how a task closes -----

  /** The events that leave a task in this closed state. */
  predicate Closing(c: Cell, e: CellEvent, state: TaskState) {
    match state
    case Done =>
      || (e.Tx? && e.op.Finish? && !e.op.failed)
      || (e.Tx? && e.op.FinishResult? && !e.op.failed)
      || (e.Finalizes? && !e.failed)
    case Failed =>
      || (e.Tx? && e.op.Finish? && e.op.failed)
      || (e.Tx? && e.op.FinishResult? && e.op.failed)
      || (e.Finalizes? && e.failed)
      || (e.Tx? && e.op.Expire? && c.task.attempt >= 2 && c.task.kind != Repair)
      || (e.Tx? && e.op.RecordFailure? && c.task.applicationAttempts >= 2)
    case Cancelled => e.Tx? && (e.op.Cancel? || e.op.Supersede? || e.op.RetireClosed? || e.op.EndInactive?)
    case HeadMismatch => e.Commits? && e.outcome.RemoteApplied? && e.outcome.headMismatch
    case _ => false
  }

  lemma TxCloses(c: Cell, op: CellOp)
    requires Core(c) && CellTx(c, op).Ok?
    ensures var d := CellTx(c, op).value;
            Terminal(d.task) && d.task.state != c.task.state ==> Closing(c, Tx(op), d.task.state)
  {
    hide PatchEpoch, PatchOpen, FailIntents, DropEpoch, AcceptIntents, RowShape, LeaseRow, Budget;
  }

  lemma EventCloses(c: Cell, e: CellEvent)
    requires Core(c) && EventTx(c, e).Ok?
    ensures var d := EventTx(c, e).value;
            Terminal(d.task) && d.task.state != c.task.state ==> Closing(c, e, d.task.state)
  {
    hide PatchEpoch, PatchOpen, FailIntents, DropEpoch, AcceptIntents, RowShape, LeaseRow, Budget, CellTx;
    if e.Tx? {
      TxCloses(c, e.op);
    }
  }

  ghost predicate ClosedBy(s: System, a: Action, id: TaskId, state: TaskState) {
    exists e :: Happens(s, a, id, e) && Closing(s.db.cells[id], e, state)
  }

  /** Whatever state a closed task is in, a step of the run put it there, and one that may. */
  lemma {:induction false} ClosedOnlyBy(states: seq<System>, actions: seq<Action>, j: nat, id: TaskId)
    requires IsRun(states, actions) && j < |states|
    requires id in states[j].db.cells && Terminal(states[j].db.cells[id].task)
    ensures exists k :: 0 <= k < j && ClosedBy(states[k], actions[k], id, states[j].db.cells[id].task.state)
  {
    hide Next, EventTx, EventOf, Closing;
    ReachableSound(states, actions, j - 1);
    if id !in states[j - 1].db.cells {
      NewIsPending(states[j - 1], actions[j - 1], states[j], id);
    } else {
      var c, d := states[j - 1].db.cells[id], states[j].db.cells[id];
      StepHappens(states[j - 1], actions[j - 1], states[j], id);
      if d.task.state == c.task.state {
        ClosedOnlyBy(states, actions, j - 1, id);
      } else {
        var e :| Happens(states[j - 1], actions[j - 1], id, e) && d == EventTx(c, e).value;
        EventCloses(c, e);
        assert ClosedBy(states[j - 1], actions[j - 1], id, d.task.state);
      }
    }
  }

  lemma NewIsPending(s: System, a: Action, s': System, id: TaskId)
    requires Next(s, a, s') && id !in s.db.cells && id in s'.db.cells
    ensures s'.db.cells[id].task.state == Pending && s'.db.cells[id].task.lease.None?
            && s'.db.cells[id].intents == map[]
  {
    NewTasksAreFresh(s, a, s', id);
  }

  // ----- how a lease ends -----

  predicate UnderLease(t: Task, token: int) {
    t.state == Leased && t.token == token && t.lease.Some?
  }

  /** The holder reports, releases or retires; the controller cancels; or the clock has reached the deadline. */
  predicate Ending(t: Task, e: CellEvent) {
    && t.lease.Some? && e.Tx?
    && match e.op
       case Finish(worker, fence, _, _, now) => worker == t.owner && fence == t.token && now < t.lease.value
       case AcceptResult(worker, fence, _, _, now) =>
         worker == t.owner && fence == t.token && (now < t.lease.value || t.payload.durable)
       case Release(worker, fence) => worker == t.owner && fence == t.token
       case RetireClosed(worker, fence, _) => worker == t.owner && fence == t.token && t.kind == Acceptance
       case Cancel(_) => true
       case Supersede(repo, pr, _, _) => t.kind == Acceptance && repo == t.repo && pr == t.pr
       case Expire(now) => t.lease.value <= now && !t.payload.durable
       case EndInactive(now) => t.lease.value <= now && t.payload.durable && t.result.Some?
       case RecoverExecution(worker, epoch, now) =>
         t.lease.value <= now && t.payload.durable && worker == t.owner && epoch == t.token
       case _ => false
  }

  lemma TxEndsLease(c: Cell, op: CellOp)
    requires Core(c) && CellTx(c, op).Ok? && UnderLease(c.task, c.task.token)
    ensures !UnderLease(CellTx(c, op).value.task, c.task.token) ==> Ending(c.task, Tx(op))
  {
    hide PatchEpoch, PatchOpen, FailIntents, DropEpoch, AcceptIntents, RowShape, LeaseRow, Budget;
  }

  lemma EventEndsLease(c: Cell, e: CellEvent)
    requires Core(c) && EventTx(c, e).Ok? && UnderLease(c.task, c.task.token)
    ensures !UnderLease(EventTx(c, e).value.task, c.task.token) ==> Ending(c.task, e)
  {
    hide PatchEpoch, PatchOpen, FailIntents, DropEpoch, AcceptIntents, RowShape, LeaseRow, Budget, CellTx, Ending;
    if e.Tx? {
      TxEndsLease(c, e.op);
    }
  }

  ghost predicate LeaseEnded(s: System, a: Action, id: TaskId) {
    exists e :: Happens(s, a, id, e) && Ending(s.db.cells[id].task, e)
  }

  /** A lease that is gone was ended by its holder, by a cancellation, or by a clock reading not before its deadline. */
  lemma {:induction false} LeaseEndsOnlyBy(states: seq<System>, actions: seq<Action>, i: nat, j: nat, id: TaskId)
    requires IsRun(states, actions) && i <= j < |states| && id in states[i].db.cells
    requires UnderLease(states[i].db.cells[id].task, states[i].db.cells[id].task.token)
    requires id in states[j].db.cells && !UnderLease(states[j].db.cells[id].task, states[i].db.cells[id].task.token)
    ensures exists k :: i <= k < j && id in states[k].db.cells
                        && UnderLease(states[k].db.cells[id].task, states[i].db.cells[id].task.token)
                        && LeaseEnded(states[k], actions[k], id)
    decreases j - i
  {
    hide Next, EventTx, EventOf, Ending;
    ReachableSound(states, actions, i);
    StepHappens(states[i], actions[i], states[i + 1], id);
    var c, d := states[i].db.cells[id], states[i + 1].db.cells[id];
    if UnderLease(d.task, c.task.token) {
      LeaseEndsOnlyBy(states, actions, i + 1, j, id);
    } else {
      var e :| Happens(states[i], actions[i], id, e) && d == EventTx(c, e).value;
      EventEndsLease(c, e);
      assert LeaseEnded(states[i], actions[i], id);
    }
  }

  /** Sweeps that read the clock before the deadline leave the lease and all rows of its task as they are. */
  lemma {:induction false} EarlySweepsSpare(states: seq<System>, actions: seq<Action>, i: nat, j: nat, id: TaskId)
    requires IsRun(states, actions) && i <= j < |states| && id in states[i].db.cells
    requires states[i].db.cells[id].task.lease.Some?
    requires forall k :: i <= k < j ==>
               || (actions[k].Sweep? && actions[k].op.Expire?
                   && actions[k].op.now < states[i].db.cells[id].task.lease.value)
               || (id in states[k].db.cells && EventOf(states[k], actions[k], id).None?)
    ensures id in states[j].db.cells && states[j].db.cells[id] == states[i].db.cells[id]
    decreases j - i
  {
    hide Next, EventTx, CellTx;
    if i < j {
      ReachableSound(states, actions, i);
      StepOnTask(states[i], actions[i], states[i + 1], id);
      if actions[i].Sweep? {
        EarlyIsRefused(states[i].db.cells[id], actions[i].op);
      }
      EarlySweepsSpare(states, actions, i + 1, j, id);
    }
  }

  lemma EarlyIsRefused(c: Cell, op: CellOp)
    ensures EventTx(c, Tx(op)) == CellTx(c, op)
    ensures op.Expire? && c.task.lease.Some? && op.now < c.task.lease.value ==> CellTx(c, op).Err?
  {
  }

  // ----- where a deadline comes from -----

  predicate Timed(t: Task) {
    t.payload.timeout.Some? && 1 <= t.payload.timeout.value <= 86400
  }

  /** The event sets the task's deadline to `deadline`. */
  predicate Setting(c: Cell, e: CellEvent, deadline: Time) {
    || (e.Grants? && !e.worker.durable && deadline == e.now + 120)
    || (e.Grants? && e.worker.durable && Timed(c.task) && deadline == e.now + c.task.payload.timeout.value + 600)
    || (e.Tx? && e.op.Heartbeat? && !c.task.payload.durable && deadline == e.op.read + 120
        && c.task.lease.Some? && e.op.now < c.task.lease.value
        && e.op.worker == c.task.owner && e.op.fence == c.task.token)
    || (e.Tx? && e.op.RecoverExecution? && Timed(c.task) && deadline == e.op.now + c.task.payload.timeout.value + 600)
    || (e.Tx? && e.op.AdoptLegacy? && Timed(c.task) && deadline == e.op.now + c.task.payload.timeout.value + 600)
    || (e.Finalizes? && e.failed && c.task.payload.durable && deadline == e.now)
  }

  lemma TxSetsDeadline(c: Cell, op: CellOp)
    requires Core(c) && CellTx(c, op).Ok?
    ensures var d := CellTx(c, op).value;
            d.task.lease.Some? && d.task.lease != c.task.lease ==> Setting(c, Tx(op), d.task.lease.value)
  {
    hide PatchEpoch, PatchOpen, FailIntents, DropEpoch, AcceptIntents, RowShape, LeaseRow, Budget;
  }

  lemma EventSetsDeadline(c: Cell, e: CellEvent)
    requires Core(c) && EventTx(c, e).Ok?
    ensures var d := EventTx(c, e).value;
            d.task.lease.Some? && d.task.lease != c.task.lease ==> Setting(c, e, d.task.lease.value)
  {
    hide PatchEpoch, PatchOpen, FailIntents, DropEpoch, AcceptIntents, RowShape, LeaseRow, Budget, CellTx;
    if e.Tx? {
      TxSetsDeadline(c, e.op);
    }
  }

  ghost predicate DeadlineSet(s: System, a: Action, id: TaskId, deadline: Time) {
    exists e :: Happens(s, a, id, e) && Setting(s.db.cells[id], e, deadline)
  }

  /**
   Every deadline in the table was set by a step of the run: 120 seconds after a clock reading
   of a grant or of the holder's heartbeat, the timeout and 600 seconds after that of a durable
   grant or recovery, or the reading at which an interruption was retained.
   */
  lemma {:induction false} DeadlineOrigin(states: seq<System>, actions: seq<Action>, j: nat, id: TaskId)
    requires IsRun(states, actions) && j < |states|
    requires id in states[j].db.cells && states[j].db.cells[id].task.lease.Some?
    ensures exists k :: 0 <= k < j && DeadlineSet(states[k], actions[k], id, states[j].db.cells[id].task.lease.value)
  {
    hide Next, EventTx, EventOf, Setting;
    ReachableSound(states, actions, j - 1);
    if id !in states[j - 1].db.cells {
      NewIsPending(states[j - 1], actions[j - 1], states[j], id);
    } else {
      var c, d := states[j - 1].db.cells[id], states[j].db.cells[id];
      StepHappens(states[j - 1], actions[j - 1], states[j], id);
      if d.task.lease == c.task.lease {
        DeadlineOrigin(states, actions, j - 1, id);
      } else {
        var e :| Happens(states[j - 1], actions[j - 1], id, e) && d == EventTx(c, e).value;
        EventSetsDeadline(c, e);
        assert DeadlineSet(states[j - 1], actions[j - 1], id, d.task.lease.value);
      }
    }
  }

  // ----- where an intent comes from -----

  /** The accepted report asks for exactly this request, and may: it aims at the task's own repository and number. */
  ghost predicate AskedFor(c: Cell, report: Report, key: IntentKey, request: EffectRequest) {
    exists i :: 0 <= i < |report.effects| && report.effects[i] == request && KeyOf(c.task, request, i) == key
                && Permitted(c.task, report, request)
  }

  lemma AcceptanceAsks(c: Cell, worker: WorkerId, fence: int, report: Report, digest: ReportDigest, now: Time,
      k: IntentKey)
    requires AcceptTx(c, worker, fence, report, digest, now).Ok?
    requires var d := AcceptTx(c, worker, fence, report, digest, now).value;
             k in d.intents && (k in c.intents ==> d.intents[k].payload != c.intents[k].payload)
    ensures AskedFor(c, report, k, AcceptTx(c, worker, fence, report, digest, now).value.intents[k].payload)
  {
    hide AcceptIntents, PatchEpoch, Permitted, Compatible, OnePullRequest;
    AcceptedExactly(c.task, report, c.intents);
    var d := AcceptTx(c, worker, fence, report, digest, now).value;
    assert Requested(c.task, report.effects, |report.effects|, k);
    var i :| 0 <= i < |report.effects| && KeyOf(c.task, report.effects[i], i) == k;
    assert Stored(c.task, report.effects[i], i, c.intents, d.intents);
    assert Acceptable(c.task, report, i, c.intents);
  }

  /** Nothing but an accepted report adds an intent or changes a request. */
  lemma TxKeepsRequests(c: Cell, op: CellOp, k: IntentKey)
    requires CellTx(c, op).Ok? && !op.AcceptResult? && k in CellTx(c, op).value.intents
    ensures k in c.intents && CellTx(c, op).value.intents[k].payload == c.intents[k].payload
  {
    hide PatchEpoch, PatchOpen, DropEpoch;
  }

  lemma EventKeepsRequests(c: Cell, e: CellEvent, k: IntentKey)
    requires EventTx(c, e).Ok? && k in EventTx(c, e).value.intents
    requires k in c.intents ==> EventTx(c, e).value.intents[k].payload != c.intents[k].payload
    ensures e.Tx? && e.op.AcceptResult?
    ensures AskedFor(c, e.op.report, k, EventTx(c, e).value.intents[k].payload)
  {
    hide PatchEpoch, PatchOpen, DropEpoch, CellTx, AskedFor;
    if e.Tx? {
      if e.op.AcceptResult? {
        AcceptIsTx(c, e.op);
        AcceptanceAsks(c, e.op.worker, e.op.fence, e.op.report, e.op.digest, e.op.now, k);
      } else {
        TxKeepsRequests(c, e.op, k);
      }
    }
  }

  lemma AcceptIsTx(c: Cell, op: CellOp)
    requires op.AcceptResult?
    ensures CellTx(c, op) == AcceptTx(c, op.worker, op.fence, op.report, op.digest, op.now)
  {
  }

  ghost predicate ReportAsked(s: System, a: Action, id: TaskId, key: IntentKey, request: EffectRequest) {
    && a.OnTask? && a.id == id && a.op.AcceptResult? && id in s.db.cells && CellTx(s.db.cells[id], a.op).Ok?
    && AskedFor(s.db.cells[id], a.op.report, key, request)
  }

  /** Every intent is an effect of a report that was accepted earlier in the run, and that the task was entitled to. */
  lemma {:induction false} IntentsAreAskedFor(states: seq<System>, actions: seq<Action>, j: nat, id: TaskId,
      k: IntentKey)
    requires IsRun(states, actions) && j < |states|
    requires id in states[j].db.cells && k in states[j].db.cells[id].intents
    ensures exists n :: 0 <= n < j
                        && ReportAsked(states[n], actions[n], id, k, states[j].db.cells[id].intents[k].payload)
  {
    hide Next, EventTx, CellTx, AskedFor;
    ReachableSound(states, actions, j - 1);
    var s, a := states[j - 1], actions[j - 1];
    if id !in s.db.cells {
      NewIsPending(s, a, states[j], id);
    } else {
      var c, d := s.db.cells[id], states[j].db.cells[id];
      StepHappens(s, a, states[j], id);
      if k in c.intents && d.intents[k].payload == c.intents[k].payload {
        IntentsAreAskedFor(states, actions, j - 1, id, k);
      } else {
        var e :| Happens(s, a, id, e) && d == EventTx(c, e).value;
        EventKeepsRequests(c, e, k);
        TxIsOnTask(s, a, id, e);
        assert ReportAsked(s, a, id, k, d.intents[k].payload);
      }
    }
  }

  lemma TxIsOnTask(s: System, a: Action, id: TaskId, e: CellEvent)
    requires Happens(s, a, id, e) && e.Tx? && e.op.AcceptResult?
    ensures a == OnTask(id, e.op) && CellTx(s.db.cells[id], e.op).Ok?
  {
    hide CellTx;
  }
}
