/**
 The effect of each store transaction on the rows of one task, as a function of the rows
 it found. A refused transaction returns the error and leaves the rows alone.
 */
module Transactions {
  import opened Basics
  import opened TaskModel

  // ----- SQL-shaped helpers -----

  /** The columns an UPDATE of attempt rows assigns. */
  datatype RowPatch = RowPatch(
    status: Option<string>,
    kind: Option<AttemptKind>,
    endedAt: Option<Time>,
    errorKind: Option<string>,
    digest: Option<ReportDigest>)

  function Patched(row: Attempt, p: RowPatch): Attempt {
    row.(
      status := if p.status.Some? then p.status.value else row.status,
      kind := if p.kind.Some? then p.kind.value else row.kind,
      endedAt := if p.endedAt.Some? then p.endedAt else row.endedAt,
      errorKind := if p.errorKind.Some? then p.errorKind.value else row.errorKind,
      digest := if p.digest.Some? then p.digest.value else row.digest)
  }

  /** UPDATE task_attempts ... WHERE lease_epoch = epoch */
  function PatchEpoch(rows: map<AttemptKey, Attempt>, epoch: int, p: RowPatch): map<AttemptKey, Attempt> {
    map k | k in rows :: if rows[k].epoch == epoch then Patched(rows[k], p) else rows[k]
  }

  /** UPDATE task_attempts ... WHERE ended_at IS NULL */
  function PatchOpen(rows: map<AttemptKey, Attempt>, p: RowPatch): map<AttemptKey, Attempt> {
    map k | k in rows :: if rows[k].endedAt.None? then Patched(rows[k], p) else rows[k]
  }

  /** DELETE FROM task_attempts WHERE lease_epoch = epoch */
  function DropEpoch(rows: map<AttemptKey, Attempt>, epoch: int): map<AttemptKey, Attempt> {
    map k | k in rows && rows[k].epoch != epoch :: rows[k]
  }

  /** The primary key (task, number) or the unique key (task, epoch) already has a row. */
  predicate AttemptTaken(rows: map<AttemptKey, Attempt>, key: AttemptKey, epoch: int) {
    key in rows || exists k :: k in rows && rows[k].epoch == epoch
  }

  function FailIntents(intents: map<IntentKey, Intent>): map<IntentKey, Intent> {
    map k | k in intents :: if Open(intents[k]) then intents[k].(status := IntentFailed) else intents[k]
  }

  predicate AllApplied(intents: map<IntentKey, Intent>) {
    forall k :: k in intents ==> intents[k].status == IntentApplied
  }

  function RunningAttempt(worker: WorkerId, epoch: int, now: Time): Attempt {
    Attempt(epoch, worker, Product, "running", now, None, "", NoDigest)
  }

  /** INSERT the attempt row that opens the task's current lease. */
  function OpenAttempt(task: Task, rows: map<AttemptKey, Attempt>, intents: map<IntentKey, Intent>,
      now: Time): Result<Cell> {
    var key := AttemptKey(task.id, task.attempt + 1);
    if AttemptTaken(rows, key, task.token) then Err(Conflict)
    else Ok(Cell(task, rows[key := RunningAttempt(task.owner, task.token, now)], intents))
  }

  predicate ValidTimeout(p: Payload) {
    p.timeout.Some? && 1 <= p.timeout.value <= MAX_TIMEOUT
  }

  // ----- predicates on reports -----

  predicate InterruptedResult(r: Report) {
    r.shaped && r.status == "failed" && r.infraKind == "execution-interrupted"
  }

  predicate RecoverableReport(r: Report) {
    InterruptedResult(r) && r.effects == [] && r.session != ""
  }

  const INACTIVE_ISSUE_ERROR := "coordination context changed: coordination issue is closed or owner-skipped"

  predicate InactiveIssueReport(r: Report) {
    && r.shaped && r.error == INACTIVE_ISSUE_ERROR && r.effects == []
    && ((r.status == "failed" && r.infraKind == "execution-interrupted")
        || (r.status == "blocked" && r.infraKind == "coordination-changed"))
  }

  /** Infrastructure failures consume an attempt; "no-change" is a product outcome. */
  predicate InfraFailure(r: Report) {
    r.infraKind != "" && r.infraKind != "no-change"
  }

  const LEASE_EXPIRED_REPORT := Report(
    true, "failed", "lease-expired", "worker lease expired before a result was accepted", [], "", "", "", "")

  const LEGACY_CANCELLED := "Offload execution: canceled"

  /** A replayed report is acknowledged only for the exact owner, epoch and content. */
  predicate MatchingReport(t: Task, worker: WorkerId, epoch: int, report: Report, failed: bool) {
    t.result.Some? && t.digest == DigestOf(report, failed) && t.owner == worker && t.token == epoch
  }

  // ----- accepting a report's effects -----

  predicate ValidEffect(t: Task, report: Report, prHead: string, e: EffectRequest) {
    && e.repo == t.repo
    && match e.kind
       case UnknownEffect => false
       case PrCreate =>
         (prHead == "" || prHead == e.head) && e.head != "" && e.base != "" && e.title != "" && report.headSha != ""
       case _ => e.number > 0 && (e.number == t.issue || e.number == t.pr)
  }

  function EffectKey(t: Task, index: int, e: EffectRequest): IntentKey {
    if e.kind == PrCreate then PrKey(t.id, e.head) else Slot(t.id, t.token, index)
  }

  function NewIntent(t: Task, index: int, e: EffectRequest): Intent {
    var key := EffectKey(t, index, e);
    Intent(key, t.token, if e.kind == PrCreate then -1 else index, e,
           if e.runId == "" then Derived(key) else Assigned(e.runId), IntentPending, "")
  }

  /** The payload digest covers the request and its marker. */
  predicate SameDigest(a: Intent, b: Intent) {
    a.payload == b.payload && a.runId == b.runId
  }

  function AcceptOne(t: Task, index: int, e: EffectRequest,
      intents: map<IntentKey, Intent>): Result<map<IntentKey, Intent>> {
    var i := NewIntent(t, index, e);
    if i.key !in intents then Ok(intents[i.key := i])
    else
      var existing := intents[i.key];
      if e.kind == PrCreate && existing.epoch < t.token then
        Ok(intents[i.key := existing.(epoch := i.epoch, payload := i.payload, runId := i.runId,
            status := IntentPending)])
      else if !SameDigest(existing, i) then Err(Invalid)
      else Ok(intents)
  }

  function AcceptFrom(t: Task, report: Report, index: nat, prHead: string,
      intents: map<IntentKey, Intent>): Result<map<IntentKey, Intent>>
    requires index <= |report.effects|
    decreases |report.effects| - index
  {
    if index == |report.effects| then Ok(intents)
    else
      var e := report.effects[index];
      if !ValidEffect(t, report, prHead, e) then Err(Invalid)
      else
        match AcceptOne(t, index, e, intents)
        case Err(error) => Err(error)
        case Ok(next) => AcceptFrom(t, report, index + 1, if e.kind == PrCreate then e.head else prHead, next)
  }

  function AcceptIntents(t: Task, report: Report, intents: map<IntentKey, Intent>): Result<map<IntentKey, Intent>> {
    if !report.shaped || |report.effects| > MAX_EFFECTS then Err(Invalid)
    else AcceptFrom(t, report, 0, "", intents)
  }

  lemma AcceptFromNext(t: Task, report: Report, index: nat, prHead: string, intents: map<IntentKey, Intent>)
    requires index < |report.effects|
    ensures var e := report.effects[index];
            var r := AcceptOne(t, index, e, intents);
            AcceptFrom(t, report, index, prHead, intents)
            == if !ValidEffect(t, report, prHead, e) then Err(Invalid)
               else if r.Err? then r
               else AcceptFrom(t, report, index + 1, if e.kind == PrCreate then e.head else prHead, r.value)
  {
    hide AcceptOne, ValidEffect;
  }

  lemma AcceptFromEnd(t: Task, report: Report, prHead: string, intents: map<IntentKey, Intent>)
    ensures AcceptFrom(t, report, |report.effects|, prHead, intents) == Ok(intents)
  {
  }

  lemma {:induction false} AcceptErrorsAreInvalid(t: Task, report: Report, index: nat, prHead: string,
      intents: map<IntentKey, Intent>)
    requires index <= |report.effects|
    ensures AcceptFrom(t, report, index, prHead, intents).Err? ==>
              AcceptFrom(t, report, index, prHead, intents) == Err(Invalid)
    decreases |report.effects| - index
  {
    if index < |report.effects| && ValidEffect(t, report, prHead, report.effects[index]) {
      var e := report.effects[index];
      var r := AcceptOne(t, index, e, intents);
      if r.Ok? {
        AcceptErrorsAreInvalid(t, report, index + 1, if e.kind == PrCreate then e.head else prHead, r.value);
      }
    }
  }

  /** A report that cannot be accepted is always refused as invalid. */
  lemma RefusedIsInvalid(t: Task, report: Report, intents: map<IntentKey, Intent>)
    ensures AcceptIntents(t, report, intents).Err? ==> AcceptIntents(t, report, intents) == Err(Invalid)
  {
    if report.shaped && |report.effects| <= MAX_EFFECTS {
      AcceptErrorsAreInvalid(t, report, 0, "", intents);
    }
  }

  // ----- the transactions on one task -----

  datatype CellOp =
    | Heartbeat(worker: WorkerId, fence: int, read: Time, now: Time)
    | ReportProgress(worker: WorkerId, fence: int, age: int, now: Time)
    | Finish(worker: WorkerId, fence: int, failed: bool, report: Report, now: Time)
    | AcceptResult(worker: WorkerId, fence: int, report: Report, digest: ReportDigest, now: Time)
    | FinishResult(worker: WorkerId, fence: int, failed: bool)
    | Release(worker: WorkerId, fence: int)
    | RecoverExecution(worker: WorkerId, epoch: int, now: Time)
    | AdoptLegacy(worker: WorkerId, epoch: int, expected: Report, now: Time)
    | Expire(now: Time)
    | Cancel(now: Time)
    | Supersede(repo: string, pr: int, contract: string, now: Time)
    | RetireClosed(worker: WorkerId, fence: int, now: Time)
    | EndInactive(now: Time)
    | RecordFailure(epoch: int, message: string)

  function HeartbeatTx(c: Cell, worker: WorkerId, fence: int, read: Time, now: Time): Result<Cell> {
    if HoldsLease(c.task, worker, fence) && c.task.lease.value > now
    then Ok(c.(task := c.task.(lease := if c.task.payload.durable then c.task.lease else Some(read + LEASE_TTL))))
    else Err(StaleLease)
  }

  function ProgressTx(c: Cell, worker: WorkerId, fence: int, age: int, now: Time): Result<Cell> {
    if age < 0 || age > MAX_TIMEOUT then Err(Invalid)
    else if HoldsLease(c.task, worker, fence) && c.task.lease.value > now
    then
      var last := c.task.lastEvent;
      var eventAt := now - age;
      Ok(c.(task := c.task.(lastEvent := if last.None? || last.value < eventAt then Some(eventAt) else last)))
    else Err(StaleLease)
  }

  function FinishTx(c: Cell, worker: WorkerId, fence: int, failed: bool, report: Report, now: Time): Result<Cell> {
    if HoldsLease(c.task, worker, fence) && c.task.lease.value > now
    then Ok(c.(
        task := c.task.(state := if failed then Failed else Done, result := Some(report), lease := None),
        attempts := PatchEpoch(c.attempts, fence,
          RowPatch(Some(if failed then "failed" else "done"), None, Some(now), None, None))))
    else Err(StaleLease)
  }

  function AcceptTx(c: Cell, worker: WorkerId, fence: int, report: Report, digest: ReportDigest,
      now: Time): Result<Cell> {
    if !HoldsLease(c.task, worker, fence) || (c.task.lease.value <= now && !c.task.payload.durable) then Err(StaleLease)
    else
      match AcceptIntents(c.task, report, c.intents)
      case Err(error) => Err(error)
      case Ok(intents) =>
        Ok(Cell(
          c.task.(result := Some(report), lease := None, digest := if digest == NoDigest then c.task.digest
              else digest),
          PatchEpoch(c.attempts, fence,
            RowPatch(Some(report.status), Some(if InfraFailure(report) then Infra else Product), Some(now),
              Some(report.infraKind), if digest == NoDigest then None else Some(digest))),
          intents))
  }

  function FinishResultTx(c: Cell, worker: WorkerId, fence: int, failed: bool): Result<Cell> {
    if c.task.owner == worker && Applicable(c.task, fence)
    then Ok(c.(task := c.task.(state := if failed then Failed else Done)))
    else Err(StaleLease)
  }

  function ReleaseTx(c: Cell, worker: WorkerId, fence: int): Result<Cell> {
    if HoldsLease(c.task, worker, fence) && c.task.result.None?
    then Ok(c.(
        task := c.task.(state := Pending, owner := "", lease := None),
        attempts := DropEpoch(c.attempts, fence)))
    else Err(StaleLease)
  }

  predicate RecoveryReplay(c: Cell, worker: WorkerId, epoch: int) {
    && c.task.payload.durable && c.task.state == Leased && c.task.owner == worker
    && c.task.token == epoch + 1 && c.task.result.None?
    && exists k :: k in c.attempts && c.attempts[k].epoch == epoch && c.attempts[k].worker == worker
                   && c.attempts[k].status == "interrupted"
  }

  /** The old authority has ended without a report, or with a finalized interruption that can resume. */
  predicate RecoveryAllowed(t: Task, worker: WorkerId, epoch: int, now: Time) {
    && t.payload.durable && HoldsLease(t, worker, epoch) && t.lease.value <= now
    && (t.result.Some? ==> RecoverableReport(t.result.value) && t.digest != NoDigest)
    && t.attempt < MAX_INFRASTRUCTURE_ATTEMPTS - 1
    && (t.kind == Implement || t.kind == Repair)
  }

  /** The same worker holds the task again, one attempt and one token later. */
  function Recovered(t: Task, now: Time): Task
    requires t.payload.timeout.Some?
  {
    t.(attempt := t.attempt + 1, lastEvent := None, token := t.token + 1, result := None, digest := NoDigest,
       lease := Some(now + t.payload.timeout.value + DURABLE_REPORT_GRACE))
  }

  function RecoveryPatch(t: Task, now: Time): RowPatch {
    if t.result.Some? then RowPatch(Some("interrupted"), Some(Infra), None, None, None)
    else RowPatch(Some("interrupted"), Some(Infra), Some(now), Some("executor-interrupted"), None)
  }

  function RecoverTx(c: Cell, worker: WorkerId, epoch: int, now: Time): Result<Cell> {
    var t := c.task;
    if RecoveryReplay(c, worker, epoch) then Ok(c)
    else if !RecoveryAllowed(t, worker, epoch, now) then Err(StaleLease)
    else if !ValidTimeout(t.payload) then Err(Invalid)
    else OpenAttempt(Recovered(t, now), PatchEpoch(c.attempts, epoch, RecoveryPatch(t, now)), c.intents, now)
  }

  predicate AdoptionReplay(c: Cell, worker: WorkerId, epoch: int) {
    && c.task.payload.durable && c.task.owner == worker && c.task.token == epoch + 1
    && c.task.state == Leased && c.task.result.None?
    && exists k :: k in c.attempts && c.attempts[k].epoch == epoch && c.attempts[k].errorKind == "legacy-interruption"
  }

  function Adopted(t: Task, now: Time): Task
    requires t.payload.timeout.Some?
  {
    t.(payload := t.payload.(durable := true, legacyRecovery := true),
       lease := Some(now + t.payload.timeout.value + DURABLE_REPORT_GRACE),
       attempt := t.attempt + 1, token := t.token + 1, result := None, digest := NoDigest,
       applicationError := "", applicationAttempts := 0)
  }

  function AdoptionPatch(now: Time): RowPatch {
    RowPatch(Some("interrupted"), Some(Infra), Some(now), Some("legacy-interruption"), None)
  }

  function AdoptTx(c: Cell, worker: WorkerId, epoch: int, expected: Report, now: Time): Result<Cell> {
    var t := c.task;
    if AdoptionReplay(c, worker, epoch) then Ok(c)
    else if t.owner != worker || !Applicable(t, epoch) || t.payload.durable ||
        t.attempt >= MAX_INFRASTRUCTURE_ATTEMPTS - 1
    then Err(StaleLease)
    else if t.result.value != expected then Err(Invalid)
    else if !expected.shaped || expected.status != "failed" || expected.error != LEGACY_CANCELLED ||
        expected.effects != []
    then Err(Invalid)
    else if c.intents != map[] then Err(Invalid)
    else if !ValidTimeout(t.payload) then Err(Invalid)
    else OpenAttempt(Adopted(t, now), PatchEpoch(c.attempts, epoch, AdoptionPatch(now)), c.intents, now)
  }

  predicate Expires(t: Task, now: Time) {
    t.state == Leased && t.lease.Some? && t.lease.value <= now && !t.payload.durable
  }

  /** A row that is not due is not part of the sweep. */
  function ExpireTx(c: Cell, now: Time): Result<Cell> {
    var t := c.task;
    if !Expires(t, now) then Err(NotFound)
    else
      var requeued := t.(attempt := t.attempt + 1, owner := "", lease := None,
                         state := if t.attempt + 1 >= MAX_INFRASTRUCTURE_ATTEMPTS then Failed else Pending);
      Ok(Cell(
        if t.kind == Repair then requeued.(state := Leased, result := Some(LEASE_EXPIRED_REPORT)) else requeued,
        PatchEpoch(c.attempts, t.token,
          RowPatch(Some("expired"), Some(Infra), Some(now), Some("lease-expired"), None)),
        FailIntents(c.intents)))
  }

  function Cancelling(c: Cell, now: Time): Cell {
    Cell(
      c.task.(state := Cancelled, token := c.task.token + 1, lease := None),
      PatchOpen(c.attempts, RowPatch(Some("cancelled"), None, Some(now), None, None)),
      FailIntents(c.intents))
  }

  function CancelTx(c: Cell, now: Time): Result<Cell> {
    if c.task.state == Cancelled then Ok(c) else Ok(Cancelling(c, now))
  }

  function SupersedeTx(c: Cell, repo: string, pr: int, contract: string, now: Time): Result<Cell> {
    var t := c.task;
    if t.repo != repo || t.pr != pr || t.kind != Acceptance || !Active(t) || t.payload.contract == Some(contract)
    then Err(NotFound)
    else Ok(Cancelling(c, now))
  }

  function RetireTx(c: Cell, worker: WorkerId, fence: int, now: Time): Result<Cell> {
    if c.task.kind != Acceptance || !HoldsLease(c.task, worker, fence) || c.task.result.Some? then Err(StaleLease)
    else Ok(Cancelling(c, now))
  }

  function EndInactiveTx(c: Cell, now: Time): Result<Cell> {
    var t := c.task;
    if && t.state == Leased && (t.kind == Implement || t.kind == Repair)
       && t.lease.Some? && t.lease.value <= now
       && t.result.Some? && InactiveIssueReport(t.result.value) && t.payload.durable
       && AllApplied(c.intents)
    then Ok(c.(
        task := t.(state := Cancelled, lease := None),
        attempts := PatchOpen(c.attempts, RowPatch(Some("cancelled"), None, Some(now), None, None))))
    else Err(NotFound)
  }

  function RecordFailureTx(c: Cell, epoch: int, message: string): Result<Cell> {
    var t := c.task;
    if t.state != Leased || t.token != epoch || t.lease.Some? then Err(StaleLease)
    else
      var poisoned := t.applicationAttempts + 1 >= MAX_APPLICATION_ATTEMPTS;
      Ok(c.(
        task := t.(applicationAttempts := t.applicationAttempts + 1, applicationError := message,
                   state := if poisoned then Failed else t.state),
        intents := if poisoned then FailIntents(c.intents) else c.intents))
  }

  function CellTx(c: Cell, op: CellOp): Result<Cell> {
    match op
    case Heartbeat(worker, fence, read, now) => HeartbeatTx(c, worker, fence, read, now)
    case ReportProgress(worker, fence, age, now) => ProgressTx(c, worker, fence, age, now)
    case Finish(worker, fence, failed, report, now) => FinishTx(c, worker, fence, failed, report, now)
    case AcceptResult(worker, fence, report, digest, now) => AcceptTx(c, worker, fence, report, digest, now)
    case FinishResult(worker, fence, failed) => FinishResultTx(c, worker, fence, failed)
    case Release(worker, fence) => ReleaseTx(c, worker, fence)
    case RecoverExecution(worker, epoch, now) => RecoverTx(c, worker, epoch, now)
    case AdoptLegacy(worker, epoch, expected, now) => AdoptTx(c, worker, epoch, expected, now)
    case Expire(now) => ExpireTx(c, now)
    case Cancel(now) => CancelTx(c, now)
    case Supersede(repo, pr, contract, now) => SupersedeTx(c, repo, pr, contract, now)
    case RetireClosed(worker, fence, now) => RetireTx(c, worker, fence, now)
    case EndInactive(now) => EndInactiveTx(c, now)
    case RecordFailure(epoch, message) => RecordFailureTx(c, epoch, message)
  }

  /** The sweep after it has visited these tasks. */
  function SweepSome(cells: map<TaskId, Cell>, op: CellOp, visited: set<TaskId>): map<TaskId, Cell> {
    map id | id in cells :: if id in visited && CellTx(cells[id], op).Ok? then CellTx(cells[id], op).value
        else cells[id]
  }

  /** A transaction that scans the table applies to every task for which it is due, whatever the order of the scan. */
  function SweepCells(cells: map<TaskId, Cell>, op: CellOp): map<TaskId, Cell> {
    SweepSome(cells, op, cells.Keys)
  }

  lemma SweepNone(cells: map<TaskId, Cell>, op: CellOp)
    ensures SweepSome(cells, op, {}) == cells
  {
  }

  lemma SweepOne(cells: map<TaskId, Cell>, op: CellOp, visited: set<TaskId>, id: TaskId)
    requires id in cells && id !in visited
    ensures SweepSome(cells, op, visited)[id] == cells[id]
    ensures SweepSome(cells, op, visited + {id})
            == if CellTx(cells[id], op).Ok? then SweepSome(cells, op, visited)[id := CellTx(cells[id], op).value]
               else SweepSome(cells, op, visited)
  {
    hide CellTx;
  }

  lemma SweepRest(cells: map<TaskId, Cell>, op: CellOp, visited: set<TaskId>)
    requires forall id :: id in cells && id !in visited ==> CellTx(cells[id], op).Err?
    ensures SweepSome(cells, op, visited) == SweepCells(cells, op)
  {
    hide CellTx;
  }

  // ----- applying effects and finalizing (split around remote calls) -----

  /** What the controller's callback reported for one intent. */
  datatype Outcome =
    | RemoteFailed(reference: string)
    | RemoteApplied(reference: string, pr: int, headMismatch: bool)

  /** The transaction that opens ApplyEffects: the report is current and has durable intents. */
  predicate SnapshotAllowed(c: Cell, epoch: int) {
    && Applicable(c.task, epoch)
    && (c.task.result.value.effects == [] || exists k :: k in c.intents && c.intents[k].epoch == epoch)
    && forall k :: k in c.intents && Open(c.intents[k]) ==> c.intents[k].epoch == epoch
  }

  /** The query of open intents, ordered by position. */
  predicate SnapshotOf(c: Cell, queue: seq<Intent>) {
    && (forall i :: 0 <= i < |queue| ==>
        queue[i].key in c.intents && c.intents[queue[i].key] == queue[i] && Open(queue[i]))
    && (forall i, j :: 0 <= i < j < |queue| ==> queue[i].position <= queue[j].position && queue[i].key != queue[j].key)
    && (forall k :: k in c.intents && Open(c.intents[k]) ==> exists i :: 0 <= i < |queue| && queue[i].key == k)
  }

  /** The rows after a success: the intent is applied, and a mismatched head closes the task. */
  function Settling(c: Cell, t: Task, key: IntentKey, applied: Intent, epoch: int, headMismatch: bool): Cell {
    var intents := c.intents[key := applied];
    if headMismatch
    then Cell(t.(state := HeadMismatch),
              PatchEpoch(c.attempts, epoch, RowPatch(Some("head-mismatch"), None, None, None, None)),
              FailIntents(intents))
    else Cell(t, c.attempts, intents)
  }

  /** The transaction that records one outcome. A pull request number may move the task to another queue slot. */
  function CommitTx(c: Cell, epoch: int, key: IntentKey, outcome: Outcome): Result<Cell> {
    if !Applicable(c.task, epoch) then Err(StaleLease)
    else if key !in c.intents then Err(NotFound)
    else if c.intents[key].epoch != epoch || !Open(c.intents[key]) then Err(StaleLease)
    else
      match outcome
      case RemoteFailed(reference) =>
        Ok(c.(intents := c.intents[key := c.intents[key].(status := IntentUncertain, reference := reference)]))
      case RemoteApplied(reference, pr, headMismatch) =>
        Ok(Settling(c, if pr > 0 then c.task.(pr := pr) else c.task, key,
                    c.intents[key].(status := IntentApplied, reference := reference), epoch, headMismatch))
  }

  /** The check both finalization transactions make. */
  function FinalizeGate(c: Cell, epoch: int): Result<Cell> {
    if !Applicable(c.task, epoch) then Err(StaleLease)
    else if !AllApplied(c.intents) then Err(Invalid)
    else Ok(c)
  }

  /** A durable development task keeps its worker after an interruption. */
  predicate Retained(c: Cell, epoch: int, failed: bool) {
    && c.task.result.Some?
    && failed && c.task.payload.durable && (c.task.kind == Implement || c.task.kind == Repair)
    && var r := c.task.result.value;
       InterruptedResult(r)
       || ((r.infraKind == "launch" || r.infraKind == "coordination-changed")
           && exists k :: k in c.attempts && c.attempts[k].epoch == epoch - 1 && c.attempts[k].status == "interrupted")
  }

  /** The same snapshot would be rejected again, so the work returns to scheduling instead. */
  predicate Reassess(r: Report) {
    r.infraKind == "coordination-changed" ||
        (r.infraKind == "launch" && r.status == "blocked" && r.nextOwner == "scheduling")
  }

  /** Closed with its outcome, or queued again when an infrastructure failure leaves attempts. */
  function Closed(t: Task, r: Report, failed: bool): Task {
    var closed := t.(state := if failed then Failed else Done, applicationError := "",
                     attempt := if InfraFailure(r) then t.attempt + 1 else t.attempt);
    if InfraFailure(r) && closed.attempt < MAX_INFRASTRUCTURE_ATTEMPTS && t.kind != Repair && !Reassess(r)
    then closed.(state := Pending, result := None, digest := NoDigest, owner := "", token := t.token + 1)
    else closed
  }

  function FinalizeTx(c: Cell, epoch: int, failed: bool, now: Time): Result<Cell> {
    var gate := FinalizeGate(c, epoch);
    if gate.Err? then gate
    else if !c.task.result.value.shaped then Err(Invalid)
    else if Retained(c, epoch, failed) then Ok(c.(task := c.task.(lease := Some(now), applicationError := "")))
    else Ok(c.(task := Closed(c.task, c.task.result.value, failed)))
  }
}
