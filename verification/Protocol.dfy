/**
 The controller and its workers as a state machine. Every store transaction is one atomic
 step; ApplyEffects and FinalizeApplication are split around their remote calls, so any
 other step, including a crash of the controller, may come in between.
 */
module Protocol {
  import opened Basics
  import opened TaskModel
  import opened Transactions
  import opened Queue
  import opened Invariants

  /** Progress of the remote call for the first queued intent. */
  datatype Call =
    | Ready
    /** The marker was looked up and not found; the write may follow. */
    | Absent
    | Answered(outcome: Outcome)

  /** The per-task application lock and what its holder is doing. */
  datatype Lock =
    | Applying(epoch: int, queue: seq<Intent>, call: Call)
    | Finalizing(epoch: int, failed: bool)

  datatype Accepted = Accepted(task: TaskId, token: int, worker: WorkerId)

  /** `remote` is the forge's log of writes; `reports` remembers which worker's reports were accepted. */
  datatype System = System(
    db: Db,
    locks: map<TaskId, Lock>,
    remote: seq<Marker>,
    reports: set<Accepted>)

  datatype Action =
    | OnTask(id: TaskId, op: CellOp)
    | Sweep(op: CellOp)
    | Claim(worker: WorkerId, claimId: Option<string>, limits: Limits, now: Time, decision: Decision)
    | Enqueue(submission: Submission, id: TaskId, now: Time, out: Enqueued)
    | Register(newWorker: Worker)
    | StartApply(id: TaskId, epoch: int, queue: seq<Intent>)
    | LookUp(id: TaskId, reachable: bool, outcome: Outcome)
    | Send(id: TaskId, lands: bool, outcome: Outcome)
    | CommitOutcome(id: TaskId)
    | StartFinalize(id: TaskId, epoch: int, failed: bool)
    | EndFinalize(id: TaskId, completed: bool, now: Time)
    | Crash

  /** The transactions that scan the whole table. */
  predicate IsSweep(op: CellOp) {
    op.Expire? || op.Supersede? || op.EndInactive?
  }

  // ----- what a step does to one task -----

  datatype CellEvent =
    | Tx(op: CellOp)
    | Grants(worker: Worker, claimId: string, now: Time)
    | Commits(epoch: int, key: IntentKey, outcome: Outcome)
    | Finalizes(epoch: int, failed: bool, now: Time)

  function EventTx(c: Cell, e: CellEvent): Result<Cell> {
    match e
    case Tx(op) => CellTx(c, op)
    case Grants(w, claimId, now) => if c.task.state == Pending && w.id != "" then GrantTx(c, w, claimId, now)
        else Err(NoTask)
    case Commits(epoch, key, outcome) => CommitTx(c, epoch, key, outcome)
    case Finalizes(epoch, failed, now) => FinalizeTx(c, epoch, failed, now)
  }

  function After(c: Cell, e: Option<CellEvent>): Cell {
    if e.Some? && EventTx(c, e.value).Ok? then EventTx(c, e.value).value else c
  }

  predicate MidCall(s: System, id: TaskId) {
    id in s.locks && s.locks[id].Applying? && s.locks[id].queue != []
  }

  function Head(s: System, id: TaskId): Intent
    requires MidCall(s, id)
  {
    s.locks[id].queue[0]
  }

  /** The event an action causes on a task, if any. */
  function EventOf(s: System, a: Action, id: TaskId): Option<CellEvent>
    requires id in s.db.cells
  {
    match a
    case OnTask(task, op) => if task == id && !IsSweep(op) then Some(Tx(op)) else None
    case Sweep(op) => if IsSweep(op) then Some(Tx(op)) else None
    case Claim(worker, claimId, _, now, decision) =>
      if decision == Grant(id) && worker in s.db.workers
      then Some(Grants(s.db.workers[worker], if claimId.Some? then claimId.value else "", now)) else None
    case CommitOutcome(task) =>
      if task == id && MidCall(s, id) && s.locks[id].call.Answered? &&
          !PrConflict(s.db, s.db.cells[id].task, s.locks[id].call.outcome)
      then Some(Commits(s.locks[id].epoch, Head(s, id).key, s.locks[id].call.outcome)) else None
    case EndFinalize(task, completed, now) =>
      if task == id && completed && id in s.locks && s.locks[id].Finalizing?
      then Some(Finalizes(s.locks[id].epoch, s.locks[id].failed, now)) else None
    case _ => None
  }

  // ----- locks, the forge and the history -----

  function Unlock(s: System, id: TaskId): map<TaskId, Lock> {
    map t | t in s.locks && t != id :: s.locks[t]
  }

  /** What the callback does: look the marker up, write only if it is absent, and succeed only once it is there. */
  function RemoteStep(s: System, a: Action): System
    requires a.LookUp? || a.Send?
  {
    if !MidCall(s, a.id) then s
    else
      var lock := s.locks[a.id];
      var marker := MarkerOf(Head(s, a.id));
      if a.LookUp? && lock.call.Ready? then
        s.(locks := s.locks[a.id := lock.(call :=
          if !a.reachable then Answered(RemoteFailed("")) else if marker in s.remote then Answered(a.outcome)
              else Absent)])
      else if a.Send? && lock.call.Absent? then
        s.(remote := if a.lands then s.remote + [marker] else s.remote,
           locks := s.locks[a.id := lock.(call := Answered(if a.lands then a.outcome else RemoteFailed("")))])
      else s
  }

  /** The rows after committing the answer of the call in progress. */
  function CommitDb(s: System, id: TaskId): Db {
    if !MidCall(s, id) || !s.locks[id].call.Answered? || id !in s.db.cells then s.db
    else Put(s.db, id, CommitChecked(s.db, id, s.locks[id].epoch, Head(s, id).key, s.locks[id].call.outcome))
  }

  /** The applier goes on to the next intent only after a committed success. */
  function CommitLocks(s: System, id: TaskId): map<TaskId, Lock> {
    if !MidCall(s, id) || !s.locks[id].call.Answered? then s.locks
    else
      var lock := s.locks[id];
      if && id in s.db.cells
         && EventOf(s, CommitOutcome(id), id).Some?
         && EventTx(s.db.cells[id], EventOf(s, CommitOutcome(id), id).value).Ok?
         && lock.call.outcome.RemoteApplied? && !lock.call.outcome.headMismatch && |lock.queue| > 1
      then s.locks[id := Applying(lock.epoch, lock.queue[1..], Ready)]
      else Unlock(s, id)
  }

  predicate ValidClaim(a: Action)
    requires a.Claim?
  {
    a.claimId.None? || ValidClaimId(a.claimId.value)
  }

  function Reports(s: System, a: Action): set<Accepted> {
    if && a.OnTask? && a.op.AcceptResult? && a.id in s.db.cells && CellTx(s.db.cells[a.id], a.op).Ok?
    then s.reports + {Accepted(a.id, a.op.fence, a.op.worker)}
    else s.reports
  }

  ghost predicate Next(s: System, a: Action, s': System) {
    match a
    case OnTask(id, op) =>
      if id in s.db.cells && !IsSweep(op)
      then s' == s.(db := Put(s.db, id, CellTx(s.db.cells[id], op)), reports := Reports(s, a))
      else s' == s
    case Sweep(op) => s' == if IsSweep(op) then s.(db := s.db.(cells := SweepCells(s.db.cells, op))) else s
    case Claim(worker, claimId, limits, now, decision) =>
      && (if ValidClaim(a) then Decides(s.db, worker, if claimId.Some? then claimId.value else "", limits, decision)
          else decision == Refuse(Invalid))
      && s' == s.(db := ClaimEffect(s.db, worker, if claimId.Some? then claimId.value else "", decision, now))
    case Enqueue(submission, id, now, out) => EnqueueTx(s.db, submission, id, now, out) && s' == s.(db := out.db)
    case Register(w) =>
      if w.id == "" || w.maxParallel < 1 then s' == s
      else
        var paused := if w.id in s.db.workers then s.db.workers[w.id].paused else w.paused;
        s' == s.(db := s.db.(workers := s.db.workers[w.id := w.(paused := paused)]))
    case StartApply(id, epoch, queue) =>
      if id in s.db.cells && id !in s.locks && SnapshotAllowed(s.db.cells[id], epoch) then
        SnapshotOf(s.db.cells[id], queue)
        && s' == if queue == [] then s else s.(locks := s.locks[id := Applying(epoch, queue, Ready)])
      else s' == s
    case LookUp(_, _, _) => s' == RemoteStep(s, a)
    case Send(_, _, _) => s' == RemoteStep(s, a)
    case CommitOutcome(id) => s' == s.(db := CommitDb(s, id), locks := CommitLocks(s, id))
    case StartFinalize(id, epoch, failed) =>
      if id in s.db.cells && id !in s.locks && FinalizeGate(s.db.cells[id], epoch).Ok?
      then s' == s.(locks := s.locks[id := Finalizing(epoch, failed)])
      else s' == s
    case EndFinalize(id, completed, now) =>
      if id in s.locks && s.locks[id].Finalizing? && id in s.db.cells then
        s' == s.(db := if completed
            then Put(s.db, id, FinalizeTx(s.db.cells[id], s.locks[id].epoch, s.locks[id].failed, now)) else s.db,
                 locks := Unlock(s, id))
      else s' == s
    case Crash => s' == s.(locks := map[])
  }

  /** Workers are stored under their own nonempty identifiers and may run at least one task. */
  predicate WorkersValid(db: Db) {
    forall w :: w in db.workers ==> db.workers[w].id == w != "" && db.workers[w].maxParallel >= 1
  }

  predicate Initial(s: System) {
    && s.db.cells == map[] && s.db.inbox == map[] && s.locks == map[] && s.remote == [] && s.reports == {}
    && WorkersValid(s.db)
  }

  /** A run of the system from an empty store. */
  ghost predicate IsRun(states: seq<System>, actions: seq<Action>) {
    && |states| == |actions| + 1 && Initial(states[0])
    && forall i :: 0 <= i < |actions| ==> Next(states[i], actions[i], states[i + 1])
  }

  /** Every step is either an event on each existing task, or leaves all tasks alone; only enqueueing adds a task. */
  lemma StepOnTask(s: System, a: Action, s': System, id: TaskId)
    requires WorkersValid(s.db) && Next(s, a, s') && id in s.db.cells
    ensures id in s'.db.cells && s'.db.cells[id] == After(s.db.cells[id], EventOf(s, a, id))
  {
    hide Next, After, EventOf;
    if a.Claim? {
      ClaimOnTask(s, a, s', id);
    } else if a.CommitOutcome? || a.EndFinalize? {
      ApplierOnTask(s, a, s', id);
    } else {
      OtherOnTask(s, a, s', id);
    }
  }

  lemma ClaimOnTask(s: System, a: Action, s': System, id: TaskId)
    requires WorkersValid(s.db) && Next(s, a, s') && id in s.db.cells && a.Claim?
    ensures id in s'.db.cells && s'.db.cells[id] == After(s.db.cells[id], EventOf(s, a, id))
  {
    hide GrantTx, Skipped, HeldUnder, LeasedIds, LeasedBy;
    assert a.decision == Grant(id) ==> Candidate(s.db, a.limits, s.db.workers[a.worker], id);
  }

  lemma ApplierOnTask(s: System, a: Action, s': System, id: TaskId)
    requires Next(s, a, s') && id in s.db.cells && (a.CommitOutcome? || a.EndFinalize?)
    ensures id in s'.db.cells && s'.db.cells[id] == After(s.db.cells[id], EventOf(s, a, id))
  {
    hide CommitTx, FinalizeTx, PrConflict, CommitLocks;
  }

  lemma OtherOnTask(s: System, a: Action, s': System, id: TaskId)
    requires Next(s, a, s') && id in s.db.cells && !a.Claim? && !a.CommitOutcome? && !a.EndFinalize?
    ensures id in s'.db.cells && s'.db.cells[id] == After(s.db.cells[id], EventOf(s, a, id))
  {
    hide CellTx, SnapshotOf, SnapshotAllowed, Reports, Duplicates, IndexConflict;
  }

  lemma NewTasksAreFresh(s: System, a: Action, s': System, id: TaskId)
    requires Next(s, a, s') && id !in s.db.cells && id in s'.db.cells
    ensures a.Enqueue? && a.id == id && ValidSubmission(a.submission)
    ensures s'.db.cells[id] == Cell(NewTask(id, a.submission, a.now), map[], map[])
    ensures !IndexConflict(s.db, s'.db.cells[id].task)
  {
  }
}
