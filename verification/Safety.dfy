/** Safety over every run: attempt budget, lease shape, intent gate and fencing. */
module Safety {
  import opened Basics
  import opened TaskModel
  import opened Transactions
  import opened Queue
  import opened Invariants
  import opened Protocol

  ghost predicate Sound(s: System) {
    && (forall id :: id in s.db.cells ==> s.db.cells[id].task.id == id && Core(s.db.cells[id]))
    && WorkersValid(s.db)
  }

  ghost predicate Gated(s: System) {
    forall id :: id in s.db.cells ==> Gate(s.db.cells[id])
  }

  ghost predicate ActiveGated(s: System) {
    forall id :: id in s.db.cells && Active(s.db.cells[id].task) ==> Gate(s.db.cells[id])
  }

  /** A FinishResult that succeeds although some intent of the task is not applied. */
  predicate BypassesGate(s: System, a: Action) {
    && a.OnTask? && a.op.FinishResult? && a.id in s.db.cells
    && CellTx(s.db.cells[a.id], a.op).Ok? && !AllApplied(s.db.cells[a.id].intents)
  }

  // ----- one event on one task -----

  lemma EventKeepsCore(c: Cell, e: CellEvent)
    requires Core(c) && EventTx(c, e).Ok?
    ensures Core(EventTx(c, e).value)
  {
    hide Core, CellTx, GrantTx, CommitTx, FinalizeTx;
    match e {
      case Tx(op) => CellTxKeepsCore(c, op);
      case Grants(w, claimId, now) => GrantKeepsCore(c, w, claimId, now);
      case Commits(epoch, key, outcome) => CommitKeepsCore(c, epoch, key, outcome);
      case Finalizes(epoch, failed, now) => FinalizeKeepsCore(c, epoch, failed, now);
    }
  }

  lemma FinishResultIsTx(c: Cell, op: CellOp)
    requires op.FinishResult?
    ensures CellTx(c, op) == FinishResultTx(c, op.worker, op.fence, op.failed)
  {
  }

  lemma EventKeepsGate(c: Cell, e: CellEvent)
    requires Core(c) && Gate(c) && EventTx(c, e).Ok? && !(e.Tx? && e.op.FinishResult? && !AllApplied(c.intents))
    ensures Gate(EventTx(c, e).value)
  {
    hide Core, Gate, CellTx, GrantTx, CommitTx, FinalizeTx;
    match e {
      case Tx(op) =>
        if op.FinishResult? {
          FinishResultIsTx(c, op);
          FinishResultGate(c, op.worker, op.fence, op.failed);
        } else {
          CellTxKeepsGate(c, op);
        }
      case Grants(w, claimId, now) => GrantKeepsGate(c, w, claimId, now);
      case Commits(epoch, key, outcome) => CommitKeepsGate(c, epoch, key, outcome);
      case Finalizes(epoch, failed, now) => FinalizeKeepsGate(c, epoch, failed, now);
    }
  }

  /** The identity columns of a task are written once. */
  predicate SameIdentity(a: Task, b: Task) {
    && a.id == b.id && a.kind == b.kind && a.repo == b.repo && a.issue == b.issue && a.operator == b.operator
    && a.tags == b.tags && a.priority == b.priority && a.queuePosition == b.queuePosition && a.createdAt == b.createdAt
  }

  /** Tokens only grow, a lease moves to new authority only under a larger token, and closed work stays closed. */
  predicate Advances(c: Cell, d: Cell) {
    && SameIdentity(c.task, d.task)
    && c.task.token <= d.task.token
    && (c.task.payload.durable ==> d.task.payload.durable)
    && (d.task.owner != c.task.owner && d.task.owner != "" ==> c.task.token < d.task.token)
    && (Terminal(c.task) ==> Terminal(d.task))
    && (c.task.state == Cancelled ==> d == c)
  }

  lemma EventAdvances(c: Cell, e: CellEvent)
    requires Core(c) && EventTx(c, e).Ok?
    ensures Advances(c, EventTx(c, e).value)
  {
    hide PatchEpoch, PatchOpen, FailIntents, DropEpoch, AcceptIntents, RowShape;
    match e {
      case Tx(op) => TxAdvances(c, op);
      case Grants(w, claimId, now) => GrantAdvances(c, w, claimId, now);
      case Commits(epoch, key, outcome) => CommitAdvances(c, epoch, key, outcome);
      case Finalizes(epoch, failed, now) => FinalizeAdvances(c, epoch, failed, now);
    }
    hide CellTx, GrantTx, CommitTx, FinalizeTx, Advances, Core;
  }

  lemma GrantAdvances(c: Cell, w: Worker, claimId: string, now: Time)
    requires Core(c) && c.task.state == Pending && w.id != "" && GrantTx(c, w, claimId, now).Ok?
    ensures Advances(c, GrantTx(c, w, claimId, now).value)
  {
    hide PatchEpoch, PatchOpen, FailIntents, DropEpoch, AcceptIntents, RowShape;
  }

  lemma CommitAdvances(c: Cell, epoch: int, key: IntentKey, outcome: Outcome)
    requires Core(c) && CommitTx(c, epoch, key, outcome).Ok?
    ensures Advances(c, CommitTx(c, epoch, key, outcome).value)
  {
    hide PatchEpoch, PatchOpen, FailIntents, DropEpoch, AcceptIntents, RowShape, LeaseRow;
  }

  lemma FinalizeAdvances(c: Cell, epoch: int, failed: bool, now: Time)
    requires Core(c) && FinalizeTx(c, epoch, failed, now).Ok?
    ensures Advances(c, FinalizeTx(c, epoch, failed, now).value)
  {
    hide PatchEpoch, PatchOpen, FailIntents, DropEpoch, AcceptIntents, RowShape, LeaseRow;
  }

  lemma TxAdvances(c: Cell, op: CellOp)
    requires Core(c) && CellTx(c, op).Ok?
    ensures Advances(c, CellTx(c, op).value)
  {
    hide PatchEpoch, PatchOpen, FailIntents, DropEpoch, AcceptIntents, RowShape;
  }

  // ----- every step of every run -----

  lemma StepKeepsSound(s: System, a: Action, s': System)
    requires Sound(s) && Next(s, a, s')
    ensures Sound(s')
  {
    forall id | id in s'.db.cells
      ensures s'.db.cells[id].task.id == id && Core(s'.db.cells[id])
    {
      if id in s.db.cells {
        StepOnTask(s, a, s', id);
        var e := EventOf(s, a, id);
        if e.Some? && EventTx(s.db.cells[id], e.value).Ok? {
          EventKeepsCore(s.db.cells[id], e.value);
          EventAdvances(s.db.cells[id], e.value);
        }
      } else {
        NewTasksAreFresh(s, a, s', id);
      }
    }
    WorkersStayWellFormed(s, a, s');
  }

  lemma WorkersStayWellFormed(s: System, a: Action, s': System)
    requires Sound(s) && Next(s, a, s')
    ensures WorkersValid(s'.db)
  {
    hide Core;
    if !a.Register? {
      WorkersKept(s, a, s');
    }
  }

  lemma WorkersKept(s: System, a: Action, s': System)
    requires Next(s, a, s') && !a.Register?
    ensures s'.db.workers == s.db.workers
  {
    hide CommitLocks, CellTx, GrantTx, CommitTx, FinalizeTx, PrConflict, SnapshotAllowed, SnapshotOf, FinalizeGate,
         Reports, Decides, Duplicates, IndexConflict, SweepCells, Summaries, NewTask;
  }

  lemma StepKeepsGated(s: System, a: Action, s': System)
    requires Sound(s) && Gated(s) && Next(s, a, s') && !BypassesGate(s, a)
    ensures Gated(s')
  {
    forall id | id in s'.db.cells
      ensures Gate(s'.db.cells[id])
    {
      if id in s.db.cells {
        StepOnTask(s, a, s', id);
        var e := EventOf(s, a, id);
        if e.Some? && EventTx(s.db.cells[id], e.value).Ok? {
          EventKeepsGate(s.db.cells[id], e.value);
        }
      } else {
        NewTasksAreFresh(s, a, s', id);
      }
    }
  }

  /** Attempt budget, attempt rows and lease rows hold in every reachable state. */
  lemma {:induction false} ReachableSound(states: seq<System>, actions: seq<Action>, i: nat)
    requires IsRun(states, actions) && i < |states|
    ensures Sound(states[i])
  {
    if i > 0 {
      ReachableSound(states, actions, i - 1);
      StepKeepsSound(states[i - 1], actions[i - 1], states[i]);
    }
  }

  /** The intent gate holds in every state reachable without a FinishResult over unapplied intents. */
  lemma {:induction false} ReachableGated(states: seq<System>, actions: seq<Action>, i: nat)
    requires IsRun(states, actions) && i < |states|
    requires forall j :: 0 <= j < i ==> !BypassesGate(states[j], actions[j])
    ensures Gated(states[i])
  {
    if i > 0 {
      ReachableGated(states, actions, i - 1);
      ReachableSound(states, actions, i - 1);
      StepKeepsGated(states[i - 1], actions[i - 1], states[i]);
    }
  }

  lemma NoIntentsIsGated(c: Cell)
    requires c.intents == map[]
    ensures Gate(c)
  {
  }

  lemma StepKeepsActiveGated(s: System, a: Action, s': System)
    requires Sound(s) && ActiveGated(s) && Next(s, a, s')
    ensures ActiveGated(s')
  {
    hide Next, EventTx, EventOf, Core, Gate;
    forall id | id in s'.db.cells && Active(s'.db.cells[id].task)
      ensures Gate(s'.db.cells[id])
    {
      if id in s.db.cells {
        StepOnTask(s, a, s', id);
        var e := EventOf(s, a, id);
        if e.Some? && EventTx(s.db.cells[id], e.value).Ok? {
          ActiveKeepsGate(s.db.cells[id], e.value);
        }
      } else {
        NewTasksAreFresh(s, a, s', id);
        NoIntentsIsGated(s'.db.cells[id]);
      }
    }
  }

  /** What leaves a task active keeps its gate: FinishResult closes the task, and nothing reopens one. */
  lemma ActiveKeepsGate(c: Cell, e: CellEvent)
    requires Core(c) && EventTx(c, e).Ok? && Active(EventTx(c, e).value.task) && (Active(c.task) ==> Gate(c))
    ensures Gate(EventTx(c, e).value)
  {
    hide Core, Gate, EventTx;
    EventAdvances(c, e);
    if e.Tx? && e.op.FinishResult? {
      FinishCloses(c, e);
    } else {
      EventKeepsGate(c, e);
    }
  }

  lemma FinishCloses(c: Cell, e: CellEvent)
    requires e.Tx? && e.op.FinishResult? && EventTx(c, e).Ok?
    ensures Terminal(EventTx(c, e).value.task)
  {
  }

  /** In every reachable state each task that is not closed meets the intent gate, whatever FinishResult closed. */
  lemma {:induction false} ActiveTasksGated(states: seq<System>, actions: seq<Action>, i: nat)
    requires IsRun(states, actions) && i < |states|
    ensures ActiveGated(states[i])
  {
    if i > 0 {
      ActiveTasksGated(states, actions, i - 1);
      ReachableSound(states, actions, i - 1);
      StepKeepsActiveGated(states[i - 1], actions[i - 1], states[i]);
    }
  }

  // ----- fencing over runs -----

  lemma StepAdvances(s: System, a: Action, s': System, id: TaskId)
    requires Sound(s) && Next(s, a, s') && id in s.db.cells
    ensures id in s'.db.cells && Advances(s.db.cells[id], s'.db.cells[id])
  {
    hide Next, EventTx, EventOf, Core;
    StepOnTask(s, a, s', id);
    var e := EventOf(s, a, id);
    if e.Some? && EventTx(s.db.cells[id], e.value).Ok? {
      EventAdvances(s.db.cells[id], e.value);
    }
  }

  lemma AdvancesReflexive(c: Cell)
    ensures Advances(c, c)
  {
  }

  lemma AdvancesTransitive(c: Cell, d: Cell, e: Cell)
    requires Advances(c, d) && Advances(d, e)
    ensures Advances(c, e)
  {
  }

  /**
   Between any two states of a run a task advances: identity, durable flag, closure and tokens
   are never taken back.
   */
  lemma {:induction false} RunAdvances(states: seq<System>, actions: seq<Action>, i: nat, j: nat, id: TaskId)
    requires IsRun(states, actions) && i <= j < |states| && id in states[i].db.cells
    ensures id in states[j].db.cells && Advances(states[i].db.cells[id], states[j].db.cells[id])
    decreases j - i
  {
    hide Next, Sound, Advances;
    if i < j {
      RunAdvances(states, actions, i, j - 1, id);
      ReachableSound(states, actions, j - 1);
      StepAdvances(states[j - 1], actions[j - 1], states[j], id);
      AdvancesTransitive(states[i].db.cells[id], states[j - 1].db.cells[id], states[j].db.cells[id]);
    } else {
      AdvancesReflexive(states[i].db.cells[id]);
    }
  }

  lemma GrantSetsOwner(c: Cell, e: CellEvent)
    requires e.Grants? && EventTx(c, e).Ok?
    ensures EventTx(c, e).value.task.owner == e.worker.id
  {
    hide AttemptTaken;
  }

  /** Over a whole run, one token of a task belongs to at most one worker. */
  lemma OneWorkerPerToken(states: seq<System>, actions: seq<Action>, i: nat, j: nat, id: TaskId)
    requires IsRun(states, actions) && i <= j < |states| && id in states[i].db.cells
    ensures id in states[j].db.cells
    ensures var t, u := states[i].db.cells[id].task, states[j].db.cells[id].task;
            t.token == u.token && t.owner != "" && u.owner != "" ==> t.owner == u.owner
  {
    RunAdvances(states, actions, i, j, id);
  }

  /** The token a worker or applier call presents. */
  function Presented(e: CellEvent): Option<int> {
    match e
    case Tx(Heartbeat(_, fence, _, _)) => Some(fence)
    case Tx(ReportProgress(_, fence, _, _)) => Some(fence)
    case Tx(Finish(_, fence, _, _, _)) => Some(fence)
    case Tx(AcceptResult(_, fence, _, _, _)) => Some(fence)
    case Tx(FinishResult(_, fence, _)) => Some(fence)
    case Tx(Release(_, fence)) => Some(fence)
    case Tx(RecoverExecution(_, epoch, _)) => Some(epoch)
    case Tx(AdoptLegacy(_, epoch, _, _)) => Some(epoch)
    case Tx(RetireClosed(_, fence, _)) => Some(fence)
    case Tx(RecordFailure(epoch, _)) => Some(epoch)
    case Commits(epoch, _, _) => Some(epoch)
    case Finalizes(epoch, _, _) => Some(epoch)
    case _ => None
  }

  /** A call with a token the task has moved past is refused, except that recovery replays its own success unchanged. */
  lemma StaleCallRefused(c: Cell, e: CellEvent)
    requires Presented(e).Some? && Presented(e).value < c.task.token
    ensures EventTx(c, e).Err?
            || (EventTx(c, e) == Ok(c) && c.task.token == Presented(e).value + 1 &&
                (e.op.RecoverExecution? || e.op.AdoptLegacy?))
  {
  }

  /**
   Once a later token was issued, or the task was cancelled, calls under the old token change
   nothing, for the rest of the run.
   */
  lemma OldTokenIsPowerless(states: seq<System>, actions: seq<Action>, i: nat, k: nat, j: nat, id: TaskId, e: CellEvent)
    requires IsRun(states, actions) && i <= k <= j < |states| && id in states[i].db.cells && id in states[k].db.cells
    requires Presented(e) == Some(states[i].db.cells[id].task.token)
    requires states[k].db.cells[id].task.token > states[i].db.cells[id].task.token
             || states[k].db.cells[id].task.state == Cancelled
    ensures id in states[j].db.cells && After(states[j].db.cells[id], Some(e)) == states[j].db.cells[id]
  {
    RunAdvances(states, actions, k, j, id);
    ReachableSound(states, actions, j);
    var c := states[j].db.cells[id];
    if c.task.state == Cancelled {
      if EventTx(c, e).Ok? {
        EventAdvances(c, e);
      }
    } else {
      StaleCallRefused(c, e);
    }
  }

  // ----- the attempt budget -----

  /** A live lease has exactly one attempt row of its token; it carries the next number and the lease's owner. */
  lemma LiveLeaseHasOneRow(c: Cell)
    requires Core(c) && c.task.lease.Some?
    ensures forall k :: k in c.attempts && c.attempts[k].epoch == c.task.token <==>
              k == AttemptKey(c.task.id, c.task.attempt + 1)
    ensures c.attempts[AttemptKey(c.task.id, c.task.attempt + 1)].worker == c.task.owner
  {
  }

  /**
   Opening an attempt never hits the unique keys of task_attempts, whatever releases, expiries
   and recoveries came before.
   */
  lemma AttemptsNeverCollide(c: Cell, e: CellEvent)
    requires Core(c)
    ensures EventTx(c, e) != Err(Conflict)
  {
    hide Core, PatchEpoch, PatchOpen, FailIntents, DropEpoch, AcceptFrom, AttemptTaken;
    match e {
      case Grants(w, claimId, now) =>
        if c.task.state == Pending && w.id != "" {
          GrantFits(c, w, claimId, now);
        }
      case Tx(op) => TxNeverCollides(c, op);
      case Commits(_, _, _) =>
      case Finalizes(_, _, _) =>
    }
    hide CellTx, GrantTx;
  }

  lemma TxNeverCollides(c: Cell, op: CellOp)
    requires Core(c)
    ensures CellTx(c, op) != Err(Conflict)
  {
    hide Core, PatchEpoch, PatchOpen, FailIntents, DropEpoch, AcceptFrom, AttemptTaken;
    match op {
      case RecoverExecution(worker, epoch, now) =>
        if RecoveryAllowed(c.task, worker, epoch, now) && ValidTimeout(c.task.payload) {
          ReopenFits(c, Recovered(c.task, now), RecoveryPatch(c.task, now), epoch, now);
        }
      case AdoptLegacy(worker, epoch, expected, now) =>
        if Applicable(c.task, epoch) && c.task.attempt < MAX_INFRASTRUCTURE_ATTEMPTS - 1 &&
            ValidTimeout(c.task.payload) {
          ReopenFits(c, Adopted(c.task, now), AdoptionPatch(now), epoch, now);
        }
      case AcceptResult(worker, fence, report, digest, now) =>
        AcceptErrorsAreInvalid(c.task, report, 0, "", c.intents);
      case _ =>
    }
  }

  lemma GrantFits(c: Cell, w: Worker, claimId: string, now: Time)
    requires Core(c) && c.task.state == Pending && w.id != ""
    ensures GrantTx(c, w, claimId, now) != Err(Conflict)
  {
    assert AttemptKey(c.task.id, c.task.attempt + 1) !in c.attempts;
  }
}
