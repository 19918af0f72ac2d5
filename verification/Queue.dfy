/** Claiming and enqueueing: the two transactions that look at more than one task. */
module Queue {
  import opened Basics
  import opened TaskModel
  import opened Transactions

  // ----- the queue order -----

  predicate LexLess(a: string, b: string) {
    b != [] && (a == [] || a[0] < b[0] || (a[0] == b[0] && LexLess(a[1..], b[1..])))
  }

  lemma {:induction false} LexTotal(a: string, b: string)
    ensures LexLess(a, b) || a == b || LexLess(b, a)
    ensures !(LexLess(a, b) && LexLess(b, a))
    ensures !LexLess(a, a)
  {
    if a != [] && b != [] {
      LexTotal(a[1..], b[1..]);
      if a[0] == b[0] && a[1..] == b[1..] {
        assert a == [a[0]] + a[1..] == b;
      }
    }
    if a != [] {
      LexIrreflexive(a[1..]);
    }
  }

  lemma {:induction false} LexIrreflexive(a: string)
    ensures !LexLess(a, a)
  {
    if a != [] {
      LexIrreflexive(a[1..]);
    }
  }

  lemma {:induction false} LexTransitive(a: string, b: string, c: string)
    requires LexLess(a, b) && LexLess(b, c)
    ensures LexLess(a, c)
  {
    if a != [] && a[0] == b[0] && b[0] == c[0] {
      LexTransitive(a[1..], b[1..], c[1..]);
    }
  }

  /** ORDER BY priority, queue_position, created_at, id */
  predicate Precedes(a: Task, b: Task) {
    a.priority < b.priority || (a.priority == b.priority &&
    (a.queuePosition < b.queuePosition || (a.queuePosition == b.queuePosition &&
    (a.createdAt < b.createdAt || (a.createdAt == b.createdAt && LexLess(a.id, b.id))))))
  }

  lemma PrecedesIsStrictOrder(a: Task, b: Task, c: Task)
    ensures a.id != b.id ==> Precedes(a, b) || Precedes(b, a)
    ensures !(Precedes(a, b) && Precedes(b, a))
    ensures Precedes(a, b) && Precedes(b, c) ==> Precedes(a, c)
  {
    LexTotal(a.id, b.id);
    if LexLess(a.id, b.id) && LexLess(b.id, c.id) {
      LexTransitive(a.id, b.id, c.id);
    }
  }

  /** A nonempty set of queued tasks has a first one. */
  lemma {:induction false} FirstExists(cells: map<TaskId, Cell>, ids: set<TaskId>) returns (first: TaskId)
    requires ids != {} && forall id :: id in ids ==> id in cells && cells[id].task.id == id
    ensures first in ids && forall other :: other in ids && other != first ==>
              Precedes(cells[first].task, cells[other].task)
  {
    var id :| id in ids;
    if ids == {id} {
      first := id;
    } else {
      var rest := FirstExists(cells, ids - {id});
      PrecedesIsStrictOrder(cells[id].task, cells[rest].task, cells[rest].task);
      first := if Precedes(cells[id].task, cells[rest].task) then id else rest;
      forall other | other in ids && other != first
        ensures Precedes(cells[first].task, cells[other].task)
      {
        PrecedesIsStrictOrder(cells[id].task, cells[rest].task, cells[other].task);
      }
    }
  }

  lemma {:induction false} LeastIdExists(ids: set<string>) returns (least: string)
    requires ids != {}
    ensures least in ids && forall other :: other in ids && other != least ==> LexLess(least, other)
  {
    var id :| id in ids;
    if ids == {id} {
      least := id;
    } else {
      var rest := LeastIdExists(ids - {id});
      LexTotal(id, rest);
      least := if LexLess(id, rest) then id else rest;
      forall other | other in ids && other != least
        ensures LexLess(least, other)
      {
        if least == id && other != rest {
          LexTransitive(id, rest, other);
        }
      }
    }
  }

  // ----- capacity -----

  /** Limits the platform configures; absent limits are (0, no repositories). */
  datatype Limits = Limits(total: int, repos: map<string, int>)

  function LeasedIds(db: Db): set<TaskId> {
    set id | id in db.cells && db.cells[id].task.state == Leased
  }

  function LeasedInRepo(db: Db, repo: string): set<TaskId> {
    set id | id in db.cells && db.cells[id].task.state == Leased && db.cells[id].task.repo == repo
  }

  function LeasedBy(db: Db, worker: WorkerId): set<TaskId> {
    set id | id in db.cells && db.cells[id].task.state == Leased && db.cells[id].task.owner == worker
  }

  predicate RepoFull(db: Db, limits: Limits, repo: string) {
    repo in limits.repos && limits.repos[repo] > 0 && |LeasedInRepo(db, repo)| >= limits.repos[repo]
  }

  // ----- routing -----

  predicate Eligible(tags: seq<string>, w: Worker) {
    if tags == [] then w.runUntagged else forall t :: t in tags ==> t in w.tags
  }

  predicate AcceptanceAllowed(t: Task, w: Worker) {
    if t.kind != Acceptance then w.roles == [] || "operator" in w.roles
    else
      && "acceptance" in w.roles && Eligible(t.tags, w)
      && (t.payload.policy == Unset || t.payload.policy == Named("") || t.payload.policy == Named("any")
          || t.payload.policy == Named("different"))
      && t.payload.developmentWorker != "" && t.payload.developmentWorker != w.id
  }

  /** Queued reviews without a policy get the independent default. */
  function ResolvePolicy(t: Task): Result<Task> {
    if t.kind != Acceptance then Ok(t)
    else
      match t.payload.policy
      case Malformed => Err(Invalid)
      case Unset => Ok(t.(payload := t.payload.(policy := Named("different"))))
      case Named(name) =>
        if name == "" then Ok(t.(payload := t.payload.(policy := Named("different"))))
        else if name == "any" || name == "different" then Ok(t) else Err(Invalid)
  }

  /** The claim walk steps over this task; a task it stops at is leased or ends the walk with an error. */
  predicate Skipped(db: Db, limits: Limits, w: Worker, t: Task) {
    || RepoFull(db, limits, t.repo)
    || (var r := ResolvePolicy(t); r.Ok? && !(Eligible(r.value.tags, w) && AcceptanceAllowed(r.value, w)))
  }

  predicate Candidate(db: Db, limits: Limits, w: Worker, id: TaskId) {
    id in db.cells && db.cells[id].task.state == Pending && !Skipped(db, limits, w, db.cells[id].task)
  }

  /** The first candidate in queue order. */
  ghost predicate FirstCandidate(db: Db, limits: Limits, w: Worker, id: TaskId) {
    && Candidate(db, limits, w, id)
    && forall other :: Candidate(db, limits, w, other) && other != id ==>
        Precedes(db.cells[id].task, db.cells[other].task)
  }

  // ----- granting -----

  function GrantTx(c: Cell, w: Worker, claimId: string, now: Time): Result<Cell> {
    match ResolvePolicy(c.task)
    case Err(error) => Err(error)
    case Ok(t) =>
      if w.durable && !ValidTimeout(t.payload) then Err(Invalid)
      else
        var payload := if w.durable
                       then t.payload.(durable := true, claimId := if claimId != "" then claimId else t.payload.claimId)
                       else t.payload;
        var lease := if w.durable then now + t.payload.timeout.value + DURABLE_REPORT_GRACE else now + LEASE_TTL;
        OpenAttempt(
          t.(payload := payload, state := Leased, owner := w.id, lease := Some(lease), lastEvent := None,
              token := t.token + 1),
          c.attempts, c.intents, now)
  }

  predicate ClaimIdChar(ch: char) {
    ('a' <= ch <= 'z') || ('A' <= ch <= 'Z') || ('0' <= ch <= '9') || ch == '-'
  }

  predicate ValidClaimId(id: string) {
    1 <= |id| <= 80 && forall i :: 0 <= i < |id| ==> ClaimIdChar(id[i])
  }

  /** The tasks a repeated claim request finds. */
  function HeldUnder(db: Db, worker: WorkerId, claimId: string): set<TaskId> {
    set id | id in db.cells && db.cells[id].task.owner == worker && db.cells[id].task.payload.claimId == claimId
  }

  datatype Decision =
    | Replay(id: TaskId)
    | Grant(id: TaskId)
    | Refuse(error: Error)

  /** The checks before the walk, in the order the transaction makes them. */
  function Refusal(db: Db, worker: WorkerId, claimId: string, limits: Limits): Option<Error> {
    if limits.total > 0 && |LeasedIds(db)| >= limits.total then Some(NoTask)
    else if worker !in db.workers then Some(NotFound)
    else if claimId != "" && !db.workers[worker].durable then Some(Invalid)
    else if db.workers[worker].paused then Some(NoTask)
    else if |LeasedBy(db, worker)| >= db.workers[worker].maxParallel then Some(NoTask)
    else None
  }

  /** A claim either replays, refuses, or grants the first candidate of the whole queue. */
  ghost predicate Decides(db: Db, worker: WorkerId, claimId: string, limits: Limits, d: Decision) {
    var held := HeldUnder(db, worker, claimId);
    if claimId != "" && held != {} then
      exists id :: id in held && (forall other :: other in held && other != id ==> LexLess(id, other))
                   && d == if db.cells[id].task.state == Leased && db.cells[id].task.result.None? then Replay(id)
                       else Refuse(NoTask)
    else if Refusal(db, worker, claimId, limits).Some? then
      d == Refuse(Refusal(db, worker, claimId, limits).value)
    else if exists id :: Candidate(db, limits, db.workers[worker], id) then
      d.Grant? && FirstCandidate(db, limits, db.workers[worker], d.id)
    else
      d == Refuse(NoTask)
  }

  function Put(db: Db, id: TaskId, r: Result<Cell>): Db {
    if r.Ok? then db.(cells := db.cells[id := r.value]) else db
  }

  lemma PutNothing(db: Db, id: TaskId, error: Error)
    ensures Put(db, id, Err(error)) == db
  {
  }

  lemma PutTwice(db: Db, id: TaskId, c: Cell, r: Result<Cell>)
    requires r.Ok?
    ensures Put(Put(db, id, Ok(c)), id, r) == Put(db, id, r)
    ensures id in Put(db, id, Ok(c)).cells && Put(db, id, Ok(c)).cells[id] == c
  {
    assert db.cells[id := c][id := r.value] == db.cells[id := r.value];
  }

  /** The rows after a claim that reached this decision. */
  function ClaimEffect(db: Db, worker: WorkerId, claimId: string, d: Decision, now: Time): Db {
    if d.Grant? && d.id in db.cells && worker in db.workers
    then Put(db, d.id, GrantTx(db.cells[d.id], db.workers[worker], claimId, now))
    else db
  }

  // ----- enqueueing -----

  datatype ActiveSummary = ActiveSummary(id: TaskId, issue: int, pr: int, kind: Kind, state: TaskState, priority: int)

  /**
   The coordination snapshot a prepared payload may carry; `wellFormed` covers version,
   repository, issue and operation.
   */
  datatype Coordination = NoSnapshot | Snapshot(wellFormed: bool, tasks: set<ActiveSummary>)

  datatype Submission = Submission(
    kind: Kind, repo: string, issue: int, pr: int, operator: string, payload: Payload, coordination: Coordination,
    tags: seq<string>, priority: int, queuePosition: int, event: EventKey)

  predicate ValidSubmission(s: Submission) {
    && s.repo != "" && s.issue >= 0 && s.pr >= 0 && (s.issue > 0 || s.pr > 0) && s.operator != ""
    && (s.event.externalId != "" ==> s.event.source != "")
  }

  function NewTask(id: TaskId, s: Submission, now: Time): Task {
    Task(id, s.kind, s.repo, s.issue, s.pr, s.operator, s.payload, s.tags, s.priority, s.queuePosition, now,
         Pending, 0, "", None, None, 0, None, NoDigest, 0, "")
  }

  function Summaries(db: Db, repo: string): set<ActiveSummary> {
    set id | id in db.cells && Active(db.cells[id].task) && db.cells[id].task.repo == repo ::
      var t := db.cells[id].task; ActiveSummary(id, t.issue, t.pr, t.kind, t.state, t.priority)
  }

  /** The active task an enqueue request would duplicate. */
  predicate Duplicates(s: Submission, t: Task) {
    && Active(t) && t.repo == s.repo && t.kind == s.kind
    && if s.pr > 0 then t.pr == s.pr else (t.pr == 0 || t.kind == Implement) && t.issue == s.issue
  }

  /** The unique index coordinator_active_task. */
  predicate SameSlot(a: Task, b: Task) {
    && a.repo == b.repo && a.kind == b.kind && (a.pr > 0 <==> b.pr > 0)
    && if a.pr > 0 then a.pr == b.pr else a.issue == b.issue
  }

  /** The unique index coordinator_active_implementation. */
  predicate SameImplementation(a: Task, b: Task) {
    a.repo == b.repo && a.kind == Implement && b.kind == Implement && a.issue > 0 && a.issue == b.issue
  }

  predicate Clash(a: Task, b: Task) {
    Active(a) && Active(b) && (SameSlot(a, b) || SameImplementation(a, b))
  }

  /** Writing this row would break a unique index. */
  predicate IndexConflict(db: Db, t: Task) {
    exists id :: id in db.cells && id != t.id && Clash(t, db.cells[id].task)
  }

  /** Recording a pull request number would put two active tasks into one queue slot; the transaction fails. */
  predicate PrConflict(db: Db, t: Task, outcome: Outcome) {
    outcome.RemoteApplied? && outcome.pr > 0 && IndexConflict(db, t.(pr := outcome.pr))
  }

  /** Recording an outcome, with the unique index enforced. */
  function CommitChecked(db: Db, id: TaskId, epoch: int, key: IntentKey, outcome: Outcome): Result<Cell>
    requires id in db.cells
  {
    var tx := CommitTx(db.cells[id], epoch, key, outcome);
    if tx.Ok? && PrConflict(db, db.cells[id].task, outcome) then Err(Conflict) else tx
  }

  /**
   An application that nothing interrupts: the callback answers for each queued intent in turn,
   each answer is committed before the next, and the first failure or head mismatch ends it.
   */
  function Drain(db: Db, id: TaskId, epoch: int, queue: seq<Intent>, answer: Intent -> Outcome): (Db, Option<Error>)
    requires id in db.cells
    decreases |queue|
  {
    if queue == [] then (db, None)
    else
      var outcome := answer(queue[0]);
      var tx := CommitChecked(db, id, epoch, queue[0].key, outcome);
      if tx.Err? then (db, Some(tx.error))
      else if outcome.RemoteFailed? then (Put(db, id, tx), Some(Remote))
      else if outcome.headMismatch then (Put(db, id, tx), None)
      else Drain(Put(db, id, tx), id, epoch, queue[1..], answer)
  }

  datatype Enqueued = Enqueued(db: Db, result: Result<TaskId>, inserted: bool)

  function Remember(db: Db, event: EventKey, id: TaskId): Db {
    if event.externalId == "" then db else db.(inbox := db.inbox[event := id])
  }

  /** The write transaction of EnqueuePrepared, for a prepared payload and a fresh identifier. */
  ghost predicate EnqueueTx(db: Db, s: Submission, id: TaskId, now: Time, out: Enqueued) {
    if !ValidSubmission(s) then out == Enqueued(db, Err(Invalid), false)
    else if s.event.externalId != "" && s.event in db.inbox then
      out == Enqueued(db, Ok(db.inbox[s.event]), false)
    else if exists d :: d in db.cells && Duplicates(s, db.cells[d].task) then
      exists d :: d in db.cells && Duplicates(s, db.cells[d].task) &&
          out == Enqueued(Remember(db, s.event, d), Ok(d), false)
    else if s.coordination.Snapshot? && !s.coordination.wellFormed then out == Enqueued(db, Err(Invalid), false)
    else if s.coordination.Snapshot? && s.coordination.tasks != Summaries(db, s.repo) then
      out == Enqueued(db, Err(CoordinationChanged), false)
    else if id in db.cells || IndexConflict(db, NewTask(id, s, now)) then out == Enqueued(db, Err(NotFound), false)
    else
      out == Enqueued(
        Remember(db.(cells := db.cells[id := Cell(NewTask(id, s, now), map[], map[])]), s.event, id), Ok(id), true)
  }
}
