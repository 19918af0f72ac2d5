/**
 The rows of the coordinator's store. JSON columns are records of the fields the
 coordinator reads; SHA-256 identities are represented by what they hash, which makes
 them injective.
 */
module TaskModel {
  import opened Basics

  type TaskId = string
  type WorkerId = string
  /** A reading of the controller's clock, in seconds. Readings need not increase. */
  type Time = int

  const LEASE_TTL: Time := 120
  const DURABLE_REPORT_GRACE: Time := 600
  const MAX_INFRASTRUCTURE_ATTEMPTS := 3
  const MAX_APPLICATION_ATTEMPTS := 3
  const MAX_EFFECTS := 100
  const MAX_TIMEOUT := 86400

  datatype Kind = Implement | Repair | Acceptance | Reply

  datatype TaskState = Pending | Leased | Done | Failed | Cancelled | HeadMismatch

  /** The acceptance_worker member of a payload; `Malformed` also covers a payload that is not an object. */
  datatype Policy = Unset | Named(name: string) | Malformed

  datatype Payload = Payload(
    durable: bool,
    timeout: Option<int>,
    claimId: string,
    policy: Policy,
    developmentWorker: string,
    contract: Option<string>,
    legacyRecovery: bool,
    rest: string)

  datatype EffectKind = PrCreate | IssueComment | PrComment | AddLabel | RemoveLabel | CloseIssue | UnknownEffect

  datatype EffectRequest = EffectRequest(
    kind: EffectKind,
    repo: string,
    number: int,
    body: string,
    runId: string,
    labels: seq<string>,
    head: string,
    base: string,
    title: string)

  /** A worker's report; `shaped` is false for valid JSON that does not decode into the report structure. */
  datatype Report = Report(
    shaped: bool,
    status: string,
    infraKind: string,
    error: string,
    effects: seq<EffectRequest>,
    headSha: string,
    session: string,
    nextOwner: string,
    rest: string)

  datatype ReportDigest = NoDigest | DigestOf(report: Report, failed: bool)

  datatype Task = Task(
    id: TaskId,
    kind: Kind,
    repo: string,
    issue: int,
    pr: int,
    operator: string,
    payload: Payload,
    tags: seq<string>,
    priority: int,
    queuePosition: int,
    createdAt: Time,
    state: TaskState,
    attempt: int,
    owner: WorkerId,
    lease: Option<Time>,
    lastEvent: Option<Time>,
    token: int,
    result: Option<Report>,
    digest: ReportDigest,
    applicationAttempts: int,
    applicationError: string)

  datatype Worker = Worker(
    id: WorkerId,
    durable: bool,
    paused: bool,
    tags: seq<string>,
    runUntagged: bool,
    maxParallel: int,
    roles: seq<string>)

  datatype AttemptKey = AttemptKey(task: TaskId, number: int)
  datatype AttemptKind = Product | Infra

  datatype Attempt = Attempt(
    epoch: int,
    worker: WorkerId,
    kind: AttemptKind,
    status: string,
    startedAt: Time,
    endedAt: Option<Time>,
    errorKind: string,
    digest: ReportDigest)

  /** An intent's primary key hashes "task/token/index", or "task/pr/head" for a pull request. */
  datatype IntentKey =
    | Slot(task: TaskId, epoch: int, index: int)
    | PrKey(task: TaskId, head: string)

  datatype IntentStatus = IntentPending | IntentUncertain | IntentApplied | IntentFailed

  /** What the remote forge recognises a write by: a run identifier, or the head branch of a pull request. */
  datatype Marker = Assigned(runId: string) | Derived(key: IntentKey) | PullRequest(repo: string, head: string)

  datatype Intent = Intent(
    key: IntentKey,
    epoch: int,
    position: int,
    payload: EffectRequest,
    runId: Marker,
    status: IntentStatus,
    reference: string)

  /** Everything stored about one task: its row, its attempt rows and its effect intents. */
  datatype Cell = Cell(
    task: Task,
    attempts: map<AttemptKey, Attempt>,
    intents: map<IntentKey, Intent>)

  datatype EventKey = EventKey(source: string, externalId: string)

  datatype Db = Db(
    cells: map<TaskId, Cell>,
    workers: map<WorkerId, Worker>,
    inbox: map<EventKey, TaskId>)

  predicate Active(t: Task) { t.state == Pending || t.state == Leased }

  predicate Terminal(t: Task) { !Active(t) }

  predicate Open(i: Intent) { i.status == IntentPending || i.status == IntentUncertain }

  /** The identity under which applying this intent can be recognised on the forge. */
  function MarkerOf(i: Intent): Marker {
    if i.payload.kind == PrCreate then PullRequest(i.payload.repo, i.payload.head) else i.runId
  }

  /** The stored report is waiting for the controller at this epoch (`applicationTask`, `PendingResults`). */
  predicate Applicable(t: Task, epoch: int) {
    t.token == epoch && t.state == Leased && t.lease.None? && t.result.Some?
  }

  /** The worker holds the task's lease under this token; expiry is checked separately. */
  predicate HoldsLease(t: Task, worker: WorkerId, fence: int) {
    t.owner == worker && t.token == fence && t.state == Leased && t.lease.Some?
  }
}
