/** The coordinator's store: three tables, changed in place by one method per transaction. */
module Store {
  import opened Basics
  import opened TaskModel
  import opened Transactions
  import opened Queue
  import opened Columns
  import opened Intake

  function RowsOf(attempts: map<AttemptKey, Attempt>, id: TaskId): map<AttemptKey, Attempt> {
    map k | k in attempts && k.task == id :: attempts[k]
  }

  function IntentsOf(intents: map<IntentKey, Intent>, id: TaskId): map<IntentKey, Intent> {
    map k | k in intents && k.task == id :: intents[k]
  }

  /** All rows of the three tables, grouped by the task they belong to. */
  function CellsIn(tasks: map<TaskId, Task>, attempts: map<AttemptKey, Attempt>,
      intents: map<IntentKey, Intent>): map<TaskId, Cell> {
    map id | id in tasks :: Cell(tasks[id], RowsOf(attempts, id), IntentsOf(intents, id))
  }

  lemma CellAt(tasks: map<TaskId, Task>, attempts: map<AttemptKey, Attempt>, intents: map<IntentKey, Intent>,
      id: TaskId)
    ensures id in CellsIn(tasks, attempts, intents) <==> id in tasks
    ensures id in tasks ==>
              CellsIn(tasks, attempts, intents)[id] == Cell(tasks[id], RowsOf(attempts, id), IntentsOf(intents, id))
  {
  }

  lemma IntentAt(intents: map<IntentKey, Intent>, id: TaskId, key: IntentKey)
    requires key.task == id
    ensures key in IntentsOf(intents, id) <==> key in intents
    ensures key in intents ==> IntentsOf(intents, id)[key] == intents[key]
  {
  }

  lemma TaskOfCell(tasks: map<TaskId, Task>, attempts: map<AttemptKey, Attempt>, intents: map<IntentKey, Intent>)
    ensures CellsIn(tasks, attempts, intents).Keys == tasks.Keys
    ensures forall id :: id in tasks ==> CellsIn(tasks, attempts, intents)[id].task == tasks[id]
  {
  }

  lemma IntentsOfCell(tasks: map<TaskId, Task>, attempts: map<AttemptKey, Attempt>, intents: map<IntentKey, Intent>,
      id: TaskId)
    requires id in tasks
    ensures AllApplied(CellsIn(tasks, attempts, intents)[id].intents) <==>
              forall k :: k in intents && k.task == id ==> intents[k].status == IntentApplied
  {
    var rows := IntentsOf(intents, id);
    assert forall k :: k in rows <==> k in intents && k.task == id;
  }

  lemma AttemptsOfOneTask(tasks: map<TaskId, Task>, before: map<AttemptKey, Attempt>, after: map<AttemptKey, Attempt>,
                          intents: map<IntentKey, Intent>, id: TaskId)
    requires id in tasks && forall k: AttemptKey :: k.task != id ==>
               (k in after <==> k in before) && (k in after ==> after[k] == before[k])
    ensures CellsIn(tasks, after, intents)
            == CellsIn(tasks, before, intents)[id := Cell(tasks[id], RowsOf(after, id), IntentsOf(intents, id))]
  {
    forall other | other in tasks && other != id
      ensures RowsOf(after, other) == RowsOf(before, other)
    {
    }
  }

  lemma IntentsOfOneTask(tasks: map<TaskId, Task>, attempts: map<AttemptKey, Attempt>, before: map<IntentKey, Intent>,
                         after: map<IntentKey, Intent>, id: TaskId)
    requires id in tasks && forall k: IntentKey :: k.task != id ==>
               (k in after <==> k in before) && (k in after ==> after[k] == before[k])
    ensures CellsIn(tasks, attempts, after)
            == CellsIn(tasks, attempts, before)[id := Cell(tasks[id], RowsOf(attempts, id), IntentsOf(after, id))]
  {
    forall other | other in tasks && other != id
      ensures IntentsOf(after, other) == IntentsOf(before, other)
    {
    }
  }

  lemma SummariesInTables(tasks: map<TaskId, Task>, attempts: map<AttemptKey, Attempt>, intents: map<IntentKey, Intent>,
      db: Db, repo: string)
    requires db.cells == CellsIn(tasks, attempts, intents)
    ensures Summaries(db, repo) == set d | d in tasks && Active(tasks[d]) && tasks[d].repo == repo ::
              ActiveSummary(d, tasks[d].issue, tasks[d].pr, tasks[d].kind, tasks[d].state, tasks[d].priority)
  {
    TaskOfCell(tasks, attempts, intents);
    hide CellsIn;
    var rows := set d | d in tasks && Active(tasks[d]) && tasks[d].repo == repo ::
      ActiveSummary(d, tasks[d].issue, tasks[d].pr, tasks[d].kind, tasks[d].state, tasks[d].priority);
    forall x
      ensures x in Summaries(db, repo) <==> x in rows
    {
      assert x in Summaries(db, repo) <==>
          (x.id in db.cells && Active(db.cells[x.id].task) && db.cells[x.id].task.repo == repo
           && x == ActiveSummary(x.id, db.cells[x.id].task.issue, db.cells[x.id].task.pr, db.cells[x.id].task.kind,
                     db.cells[x.id].task.state, db.cells[x.id].task.priority));
    }
  }

  lemma ConflictInTables(tasks: map<TaskId, Task>, attempts: map<AttemptKey, Attempt>, intents: map<IntentKey, Intent>,
      db: Db, t: Task)
    requires db.cells == CellsIn(tasks, attempts, intents)
    ensures IndexConflict(db, t) <==> exists d :: d in tasks && d != t.id && Clash(t, tasks[d])
  {
    if IndexConflict(db, t) {
      var d :| d in db.cells && d != t.id && Clash(t, db.cells[d].task);
      assert d in tasks && Clash(t, tasks[d]);
    }
    if d :| d in tasks && d != t.id && Clash(t, tasks[d]) {
      assert d in db.cells && Clash(t, db.cells[d].task);
    }
  }

  lemma HeldInTables(db: Db, worker: WorkerId, claimId: string)
    ensures forall id :: id in HeldUnder(db, worker, claimId) ==> id in db.cells
  {
  }

  lemma NotRefused(db: Db, worker: WorkerId, requested: string, limits: Limits)
    requires Refusal(db, worker, requested, limits).None?
    ensures worker in db.workers
  {
  }

  lemma {:induction false} LeastPosition(intents: map<IntentKey, Intent>, keys: set<IntentKey>)
    returns (least: IntentKey)
    requires keys != {} && forall k :: k in keys ==> k in intents
    ensures least in keys && forall other :: other in keys ==> intents[least].position <= intents[other].position
  {
    var k :| k in keys;
    if keys == {k} {
      least := k;
    } else {
      var rest := LeastPosition(intents, keys - {k});
      least := if intents[k].position <= intents[rest].position then k else rest;
    }
  }

  /** ORDER BY position over the rows of these keys. */
  method OrderByPosition(intents: map<IntentKey, Intent>, keys: set<IntentKey>) returns (queue: seq<Intent>)
    requires forall k :: k in keys ==> k in intents && intents[k].key == k
    ensures forall i :: 0 <= i < |queue| ==> queue[i].key in keys && intents[queue[i].key] == queue[i]
    ensures forall i, j :: 0 <= i < j < |queue| ==>
              queue[i].position <= queue[j].position && queue[i].key != queue[j].key
    ensures forall k :: k in keys ==> exists i :: 0 <= i < |queue| && queue[i].key == k
  {
    var remaining := keys;
    queue := [];
    while remaining != {}
      invariant remaining <= keys
      invariant forall i :: 0 <= i < |queue| ==>
                  queue[i].key in keys && queue[i].key !in remaining && intents[queue[i].key] == queue[i]
      invariant forall i, k :: 0 <= i < |queue| && k in remaining ==> queue[i].position <= intents[k].position
      invariant forall i, j :: 0 <= i < j < |queue| ==>
                  queue[i].position <= queue[j].position && queue[i].key != queue[j].key
      invariant forall k :: k in keys && k !in remaining ==> intents[k] in queue
    {
      ghost var least := LeastPosition(intents, remaining);
      var k :| k in remaining && forall other :: other in remaining ==> intents[k].position <= intents[other].position;
      queue := queue + [intents[k]];
      remaining := remaining - {k};
    }
    forall k | k in keys
      ensures exists i :: 0 <= i < |queue| && queue[i].key == k
    {
      var i :| 0 <= i < |queue| && queue[i] == intents[k];
      assert queue[i].key == k;
    }
  }

  lemma SnapshotInTable(c: Cell, intents: map<IntentKey, Intent>, id: TaskId, queue: seq<Intent>)
    requires c.intents == IntentsOf(intents, id)
    requires forall i :: 0 <= i < |queue| ==>
               var k := queue[i].key; k in intents && k.task == id && Open(intents[k]) && intents[k] == queue[i]
    requires forall i, j :: 0 <= i < j < |queue| ==>
               queue[i].position <= queue[j].position && queue[i].key != queue[j].key
    requires forall k :: k in intents && k.task == id && Open(intents[k]) ==>
               exists i :: 0 <= i < |queue| && queue[i].key == k
    ensures SnapshotOf(c, queue)
  {
  }

  /** What committing an answer does, once the intent is known to be waiting for it. */
  lemma CommitCases(db: Db, id: TaskId, epoch: int, key: IntentKey, outcome: Outcome)
    requires id in db.cells && Applicable(db.cells[id].task, epoch) && key in db.cells[id].intents
    requires db.cells[id].intents[key].epoch == epoch && Open(db.cells[id].intents[key])
    ensures var c, i := db.cells[id], db.cells[id].intents[key];
            CommitChecked(db, id, epoch, key, outcome)
            == if PrConflict(db, c.task, outcome) then Err(Conflict)
               else if outcome.RemoteFailed? then Ok(c.(intents := c.intents[key := i.(status := IntentUncertain,
                   reference := outcome.reference)]))
               else Ok(Settling(c, if outcome.pr > 0 then c.task.(pr := outcome.pr) else c.task, key,
                                i.(status := IntentApplied, reference := outcome.reference), epoch,
                                    outcome.headMismatch))
  {
    hide Settling;
  }

  /** An applied intent is not failed with the open ones. */
  lemma AppliedIsKept(intents: map<IntentKey, Intent>, id: TaskId, rows: map<IntentKey, Intent>, i: Intent)
    requires IntentsOf(intents, id) == FailIntents(rows) && i.key in rows && rows[i.key] == i
    ensures i.status == IntentApplied ==> i.key in intents && intents[i.key] == i
  {
    assert i.key in FailIntents(rows);
  }

  lemma AnswerConflicts(db: Db, t: Task, outcome: Outcome)
    ensures PrConflict(db, t, outcome) <==>
              outcome.RemoteApplied? && outcome.pr > 0 && IndexConflict(db, t.(pr := outcome.pr))
  {
  }

  lemma CommitRefusals(db: Db, id: TaskId, epoch: int, key: IntentKey, outcome: Outcome)
    requires id in db.cells
    ensures var c := db.cells[id];
            && (!Applicable(c.task, epoch) ==> CommitChecked(db, id, epoch, key, outcome) == Err(StaleLease))
            && (Applicable(c.task, epoch) && key !in c.intents ==>
                  CommitChecked(db, id, epoch, key, outcome) == Err(NotFound))
            && (Applicable(c.task, epoch) && key in c.intents
                && (c.intents[key].epoch != epoch || !Open(c.intents[key])) ==>
                  CommitChecked(db, id, epoch, key, outcome) == Err(StaleLease))
  {
    hide Settling, PrConflict;
  }

  lemma DrainNext(db: Db, id: TaskId, epoch: int, queue: seq<Intent>, answer: Intent -> Outcome)
    requires id in db.cells
    ensures queue == [] ==> Drain(db, id, epoch, queue, answer) == (db, None)
    ensures queue != [] ==>
              var outcome, tx := answer(queue[0]), CommitChecked(db, id, epoch, queue[0].key, answer(queue[0]));
              var next := Put(db, id, tx);
              Drain(db, id, epoch, queue, answer)
              == if tx.Err? then (next, Some(tx.error))
                 else if outcome.RemoteFailed? then (next, Some(Remote))
                 else if outcome.headMismatch then (next, None)
                 else Drain(next, id, epoch, queue[1..], answer)
  {
    hide CommitChecked;
  }

  lemma SnapshotKeys(c: Cell, queue: seq<Intent>, id: TaskId, intents: map<IntentKey, Intent>)
    requires SnapshotOf(c, queue) && c.intents == IntentsOf(intents, id)
    ensures forall i :: 0 <= i < |queue| ==> queue[i].key.task == id
  {
  }

  lemma FinalizeCases(c: Cell, epoch: int, failed: bool, now: Time)
    requires FinalizeGate(c, epoch).Ok? && c.task.result.value.shaped
    ensures FinalizeTx(c, epoch, failed, now) == Ok(c.(task :=
              if Retained(c, epoch, failed) then c.task.(lease := Some(now), applicationError := "")
              else Closed(c.task, c.task.result.value, failed)))
  {
  }

  lemma GateRefuses(c: Cell, epoch: int, failed: bool, now: Time)
    ensures var gate := FinalizeGate(c, epoch);
            && (gate.Err? ==>
                FinalizeTx(c, epoch, failed, now) == Err(gate.error)
                && (gate.error == StaleLease || gate.error == Invalid))
            && (gate.Ok? ==> c.task.result.Some? && c.task.state == Leased)
            && (gate.Ok? && !c.task.result.value.shaped ==> FinalizeTx(c, epoch, failed, now) == Err(Invalid))
  {
  }

  lemma NewTaskId(id: TaskId, s: Submission, now: Time)
    ensures NewTask(id, s, now).id == id
  {
  }

  lemma CandidateIsPending(db: Db, limits: Limits, w: Worker, id: TaskId)
    requires FirstCandidate(db, limits, w, id)
    ensures Candidate(db, limits, w, id) && id in db.cells
  {
  }

  lemma PutRefused(db: Db, id: TaskId, tx: Result<Cell>)
    ensures tx.Err? ==> Put(db, id, tx) == db
  {
  }

  /** Visiting one more task of a sweep. */
  lemma SweepNext(db: Db, op: CellOp, all: set<TaskId>, remaining: set<TaskId>, id: TaskId)
    requires remaining <= all <= db.cells.Keys && id in remaining
    ensures var here := db.(cells := SweepSome(db.cells, op, all - remaining));
            && here.cells[id] == db.cells[id]
            && db.(cells := SweepSome(db.cells, op, all - (remaining - {id}))) ==
                Put(here, id, CellTx(db.cells[id], op))
  {
    hide CellTx, SweepSome;
    SweepOne(db.cells, op, all - remaining, id);
    assert all - (remaining - {id}) == (all - remaining) + {id};
  }

  lemma SweepStarts(db: Db, op: CellOp, all: set<TaskId>)
    ensures db.(cells := SweepSome(db.cells, op, all - all)) == db
  {
    assert all - all == {};
    SweepNone(db.cells, op);
  }

  lemma SweepEnds(db: Db, op: CellOp, all: set<TaskId>)
    requires forall id :: id in db.cells && id !in all ==> CellTx(db.cells[id], op).Err?
    ensures db.(cells := SweepSome(db.cells, op, all - {})) == db.(cells := SweepCells(db.cells, op))
  {
    assert all - {} == all;
    SweepRest(db.cells, op, all);
  }

  /** A task that the scan for closed issues considers. */
  predicate MayEnd(t: Task, now: Time) {
    && t.state == Leased && (t.kind == Implement || t.kind == Repair)
    && t.lease.Some? && t.lease.value <= now && t.result.Some?
    && t.result.value.error == INACTIVE_ISSUE_ERROR
  }

  lemma EndsOnlyCandidates(c: Cell, now: Time)
    ensures CellTx(c, EndInactive(now)) == EndInactiveTx(c, now)
    ensures EndInactiveTx(c, now).Ok? ==> MayEnd(c.task, now)
  {
  }

  predicate MaySupersede(t: Task, repo: string, pr: int) {
    t.repo == repo && t.pr == pr && t.kind == Acceptance && Active(t)
  }

  lemma SupersedesOnlyCandidates(c: Cell, repo: string, pr: int, contract: string, now: Time)
    ensures var tx := CellTx(c, Supersede(repo, pr, contract, now));
            if MaySupersede(c.task, repo, pr) && c.task.payload.contract != Some(contract)
                then tx == Ok(Cancelling(c, now)) else tx.Err?
  {
  }

  lemma ExpiresExactly(c: Cell, now: Time)
    ensures CellTx(c, Expire(now)).Ok? <==> Expires(c.task, now)
    ensures CellTx(c, Expire(now)) == ExpireTx(c, now)
  {
  }

  lemma ExpiresColumns(tasks: map<TaskId, Task>, now: Time)
    ensures forall id :: id in tasks ==>
              (Expires(tasks[id], now) <==>
                tasks[id].state == Leased && !tasks[id].payload.durable
                && tasks[id].lease.Some? && tasks[id].lease.value <= now)
  {
  }

  /** Only intents of this task were written. */
  ghost predicate OthersKept(before: map<IntentKey, Intent>, after: map<IntentKey, Intent>, id: TaskId) {
    forall k: IntentKey :: k.task != id ==> (k in after <==> k in before) && (k in after ==> after[k] == before[k])
  }

  /** The transaction committed these rows, or was rolled back with this error. */
  predicate Commits(before: Db, after: Db, id: TaskId, tx: Result<Cell>, err: Option<Error>) {
    after == Put(before, id, tx) && err == if tx.Ok? then None else Some(tx.error)
  }

  class Store {
    var tasks: map<TaskId, Task>
    var attempts: map<AttemptKey, Attempt>
    var intents: map<IntentKey, Intent>
    var workers: map<WorkerId, Worker>
    var inbox: map<EventKey, TaskId>

    /** Foreign keys hold. */
    ghost predicate Valid()
      reads this
    {
      && (forall id :: id in tasks ==> tasks[id].id == id)
      && (forall k :: k in attempts ==> k.task in tasks)
      && (forall k :: k in intents ==> k.task in tasks && intents[k].key == k)
      && (forall w :: w in workers ==> workers[w].id == w)
    }

    ghost function Contents(): Db
      reads this
    {
      Db(CellsIn(tasks, attempts, intents), workers, inbox)
    }

    constructor ()
      ensures Valid() && Contents() == Db(map[], map[], map[])
    {
      tasks, attempts, intents, workers, inbox := map[], map[], map[], map[], map[];
    }

    // ----- SQL statements on the rows of one task -----

    method SaveTask(t: Task)
      requires Valid() && t.id in tasks
      modifies this`tasks
      ensures Valid() && tasks == old(tasks)[t.id := t]
      ensures Contents() == Put(old(Contents()), t.id, Ok(old(Contents()).cells[t.id].(task := t)))
    {
      tasks := tasks[t.id := t];
    }

    method UpdateEpochRows(id: TaskId, epoch: int, p: RowPatch)
      requires Valid() && id in tasks
      modifies this`attempts
      ensures Valid()
      ensures var c := old(Contents()).cells[id];
                Contents() == Put(old(Contents()), id, Ok(c.(attempts := PatchEpoch(c.attempts, epoch, p))))
    {
      attempts := map k | k in attempts :: if k.task == id && attempts[k].epoch == epoch then Patched(attempts[k], p)
          else attempts[k];
      AttemptsOfOneTask(tasks, old(attempts), attempts, intents, id);
      assert RowsOf(attempts, id) == PatchEpoch(RowsOf(old(attempts), id), epoch, p);
    }

    method UpdateOpenRows(id: TaskId, p: RowPatch)
      requires Valid() && id in tasks
      modifies this`attempts
      ensures Valid()
      ensures var c := old(Contents()).cells[id];
                Contents() == Put(old(Contents()), id, Ok(c.(attempts := PatchOpen(c.attempts, p))))
    {
      attempts := map k | k in attempts :: if k.task == id && attempts[k].endedAt.None? then Patched(attempts[k], p)
          else attempts[k];
      AttemptsOfOneTask(tasks, old(attempts), attempts, intents, id);
      assert RowsOf(attempts, id) == PatchOpen(RowsOf(old(attempts), id), p);
    }

    method DeleteEpochRows(id: TaskId, epoch: int)
      requires Valid() && id in tasks
      modifies this`attempts
      ensures Valid()
      ensures var c := old(Contents()).cells[id];
                Contents() == Put(old(Contents()), id, Ok(c.(attempts := DropEpoch(c.attempts, epoch))))
    {
      attempts := map k | k in attempts && !(k.task == id && attempts[k].epoch == epoch) :: attempts[k];
      AttemptsOfOneTask(tasks, old(attempts), attempts, intents, id);
      assert RowsOf(attempts, id) == DropEpoch(RowsOf(old(attempts), id), epoch);
    }

    method FailOpenIntents(id: TaskId)
      requires Valid() && id in tasks
      modifies this`intents
      ensures Valid()
      ensures var c := old(Contents()).cells[id];
                Contents() == Put(old(Contents()), id, Ok(c.(intents := FailIntents(c.intents))))
    {
      intents := map k | k in intents :: if k.task == id && Open(intents[k]) then intents[k].(status := IntentFailed)
          else intents[k];
      IntentsOfOneTask(tasks, attempts, old(intents), intents, id);
      assert IntentsOf(intents, id) == FailIntents(IntentsOf(old(intents), id));
    }

    method SaveIntent(i: Intent)
      requires Valid() && i.key.task in tasks
      modifies this`intents
      ensures Valid()
      ensures var c := old(Contents()).cells[i.key.task];
                Contents() == Put(old(Contents()), i.key.task, Ok(c.(intents := c.intents[i.key := i])))
      ensures intents == old(intents)[i.key := i]
    {
      intents := intents[i.key := i];
      IntentsOfOneTask(tasks, attempts, old(intents), intents, i.key.task);
      assert IntentsOf(intents, i.key.task) == IntentsOf(old(intents), i.key.task)[i.key := i];
    }

    /** INSERT with the primary key (task, number) and the unique key (task, epoch) enforced by the schema. */
    method InsertAttempt(key: AttemptKey, row: Attempt) returns (ok: bool)
      requires Valid() && key.task in tasks
      modifies this`attempts
      ensures Valid()
      ensures var c := old(Contents()).cells[key.task];
              && ok == !AttemptTaken(c.attempts, key, row.epoch)
              && Contents() == if ok then Put(old(Contents()), key.task, Ok(c.(attempts := c.attempts[key := row])))
                  else old(Contents())
    {
      ok := key !in attempts && forall k :: k in attempts && k.task == key.task ==> attempts[k].epoch != row.epoch;
      ghost var rows := RowsOf(attempts, key.task);
      assert forall k :: k in rows <==> k in attempts && k.task == key.task;
      if ok {
        attempts := attempts[key := row];
        AttemptsOfOneTask(tasks, old(attempts), attempts, intents, key.task);
        assert RowsOf(attempts, key.task) == rows[key := row];
      }
    }

    // ----- worker transactions on a lease -----

    /** UPDATE ... WHERE the lease is live; a report may still arrive late when the execution is durable. */
    method LeaseUpdate(id: TaskId, worker: WorkerId, fence: int, reporting: bool, now: Time, update: Task)
      returns (err: Option<Error>)
      requires Valid() && update.id == id
      modifies this`tasks
      ensures Valid()
      ensures err.Some? ==> err == Some(StaleLease) && tasks == old(tasks)
      ensures err.None? ==> tasks == old(tasks)[id := update]
      ensures err.None? <==> id in old(tasks) && HoldsLease(old(tasks)[id], worker, fence)
                             && (old(tasks)[id].lease.value > now || (reporting && old(tasks)[id].payload.durable))
      ensures err.None? ==> Contents() == Put(old(Contents()), id, Ok(old(Contents()).cells[id].(task := update)))
    {
      if id !in tasks {
        return Some(StaleLease);
      }
      var current := tasks[id];
      if current.owner != worker || current.token != fence || current.state != Leased || current.lease.None? {
        return Some(StaleLease);
      }
      if !(current.lease.value > now || (reporting && current.payload.durable)) {
        return Some(StaleLease);
      }
      SaveTask(update);
      return None;
    }

    /** The clock is read once for the new deadline and again, under the lock, for the check. */
    method Heartbeat(id: TaskId, worker: WorkerId, fence: int, read: Time, now: Time) returns (err: Option<Error>)
      requires Valid()
      modifies this
      ensures Valid()
      ensures id in old(tasks) ==> Commits(old(Contents()), Contents(), id,
                HeartbeatTx(old(Contents()).cells[id], worker, fence, read, now), err)
      ensures id !in old(tasks) ==> Contents() == old(Contents()) && err == Some(StaleLease)
    {
      if id !in tasks {
        return Some(StaleLease);
      }
      var t := tasks[id];
      err := LeaseUpdate(id, worker, fence, false, now,
          t.(lease := if t.payload.durable then t.lease else Some(read + LEASE_TTL)));
    }

    method ReportProgress(id: TaskId, worker: WorkerId, fence: int, age: int, now: Time) returns (err: Option<Error>)
      requires Valid()
      modifies this
      ensures Valid()
      ensures id in old(tasks) ==> Commits(old(Contents()), Contents(), id,
                ProgressTx(old(Contents()).cells[id], worker, fence, age, now), err)
      ensures id !in old(tasks) ==>
                Contents() == old(Contents())
                && err == Some(if age < 0 || age > MAX_TIMEOUT then Invalid else StaleLease)
    {
      if age < 0 || age > MAX_TIMEOUT {
        return Some(Invalid);
      }
      if id !in tasks {
        return Some(StaleLease);
      }
      var t := tasks[id];
      var eventAt := now - age;
      err := LeaseUpdate(id, worker, fence, false, now,
                         t.(lastEvent := if t.lastEvent.None? || t.lastEvent.value < eventAt then Some(eventAt)
                             else t.lastEvent));
    }

    /** Complete and Fail. */
    method Finish(id: TaskId, worker: WorkerId, fence: int, failed: bool, report: Report, now: Time)
      returns (err: Option<Error>)
      requires Valid()
      modifies this
      ensures Valid()
      ensures id in old(tasks) ==> Commits(old(Contents()), Contents(), id,
                FinishTx(old(Contents()).cells[id], worker, fence, failed, report, now), err)
      ensures id !in old(tasks) ==> Contents() == old(Contents()) && err == Some(StaleLease)
    {
      hide CellsIn, RowsOf, IntentsOf, PatchEpoch, Put;
      if id !in tasks {
        return Some(StaleLease);
      }
      CellAt(tasks, attempts, intents, id);
      ghost var db, c := Contents(), Contents().cells[id];
      var finished := tasks[id].(state := if failed then Failed else Done, result := Some(report), lease := None);
      var patch := RowPatch(Some(if failed then "failed" else "done"), None, Some(now), None, None);
      err := LeaseUpdate(id, worker, fence, false, now, finished);
      PutNothing(db, id, StaleLease);
      PutTwice(db, id, c.(task := finished),
          Ok(c.(task := finished, attempts := PatchEpoch(c.attempts, fence, patch))));
      if err.None? {
        UpdateEpochRows(id, fence, patch);
      }
    }

    /** Insert one intent per requested effect, or find the one already there. */
    method AcceptIntents(t: Task, report: Report) returns (ok: bool)
      requires Valid() && t.id in tasks
      modifies this`intents
      ensures Valid()
      ensures var c := old(Contents()).cells[t.id];
              var r := Transactions.AcceptIntents(t, report, c.intents);
              ok == r.Ok? && (ok ==> Contents() == Put(old(Contents()), t.id, Ok(c.(intents := r.value))))
      ensures ok <==> report.shaped && |report.effects| <= 100
                      && forall i :: 0 <= i < |report.effects| ==>
                           Acceptable(t, report, i, IntentsOf(old(intents), t.id))
      ensures ok ==> StoredUpTo(t, report.effects, |report.effects|, IntentsOf(old(intents), t.id),
                       IntentsOf(intents, t.id))
    {
      CellAt(tasks, attempts, intents, t.id);
      AcceptedExactly(t, report, IntentsOf(intents, t.id));
      hide Acceptable, StoredUpTo, ValidEffect, Permitted, AcceptFrom, AcceptOne, CellsIn, RowsOf, IntentsOf;
      if !report.shaped || |report.effects| > MAX_EFFECTS {
        return false;
      }
      var prHead := "";
      ghost var start := IntentsOf(intents, t.id);
      for i := 0 to |report.effects|
        invariant Valid() && OthersKept(old(intents), intents, t.id)
        invariant AcceptFrom(t, report, i, prHead, IntentsOf(intents, t.id)) == AcceptFrom(t, report, 0, "", start)
      {
        var e := report.effects[i];
        AcceptFromNext(t, report, i, prHead, IntentsOf(intents, t.id));
        ok := CheckEffect(t, report, prHead, e);
        if !ok {
          return;
        }
        ok := AcceptEffect(t, i, e);
        if !ok {
          return;
        }
        if e.kind == PrCreate {
          prHead := e.head;
        }
      }
      AcceptFromEnd(t, report, prHead, IntentsOf(intents, t.id));
      IntentsOfOneTask(tasks, attempts, old(intents), intents, t.id);
      return true;
    }

    /** The validation of one requested effect. */
    method CheckEffect(t: Task, report: Report, prHead: string, e: EffectRequest) returns (ok: bool)
      ensures ok == ValidEffect(t, report, prHead, e)
      ensures ok <==> Permitted(t, report, e) && (e.kind == PrCreate ==> prHead in {"", e.head})
    {
      if e.repo != t.repo {
        return false;
      }
      match e.kind {
        case UnknownEffect => return false;
        case PrCreate =>
          if prHead != "" && prHead != e.head {
            return false;
          }
          return e.head != "" && e.base != "" && e.title != "" && report.headSha != "";
        case _ =>
          return e.number > 0 && (e.number == t.issue || e.number == t.pr);
      }
    }

    /** INSERT ... ON CONFLICT DO NOTHING, then look at the row that was already there. */
    method AcceptEffect(t: Task, index: int, e: EffectRequest) returns (ok: bool)
      requires Valid() && t.id in tasks
      modifies this`intents
      ensures Valid() && OthersKept(old(intents), intents, t.id)
      ensures var r := AcceptOne(t, index, e, IntentsOf(old(intents), t.id));
                ok == r.Ok? && (ok ==> IntentsOf(intents, t.id) == r.value)
    {
      var intent := NewIntent(t, index, e);
      ghost var rows := IntentsOf(intents, t.id);
      assert intent.key in intents <==> intent.key in rows;
      if intent.key !in intents {
        intents := intents[intent.key := intent];
        assert IntentsOf(intents, t.id) == rows[intent.key := intent];
        return true;
      }
      var existing := intents[intent.key];
      if e.kind == PrCreate && existing.epoch < t.token {
        var renewed := existing.(epoch := intent.epoch, payload := intent.payload, runId := intent.runId,
            status := IntentPending);
        intents := intents[intent.key := renewed];
        assert IntentsOf(intents, t.id) == rows[intent.key := renewed];
        return true;
      }
      return SameDigest(existing, intent);
    }

    method AcceptResult(id: TaskId, worker: WorkerId, fence: int, report: Report, digest: ReportDigest, now: Time)
      returns (err: Option<Error>)
      requires Valid()
      modifies this
      ensures Valid()
      ensures id in old(tasks) ==> Commits(old(Contents()), Contents(), id,
                AcceptTx(old(Contents()).cells[id], worker, fence, report, digest, now), err)
      ensures id !in old(tasks) ==> Contents() == old(Contents()) && err == Some(StaleLease)
      ensures err.Some? ==> tasks == old(tasks) && attempts == old(attempts) && intents == old(intents)
      ensures err.None? <==>
                && id in old(tasks) && HoldsLease(old(tasks)[id], worker, fence)
                && (now < old(tasks)[id].lease.value || old(tasks)[id].payload.durable)
                && report.shaped && |report.effects| <= 100
                && forall i :: 0 <= i < |report.effects| ==>
                     Acceptable(old(tasks)[id], report, i, IntentsOf(old(intents), id))
      ensures err.None? ==>
                && tasks == old(tasks)[id := old(tasks)[id].(result := Some(report), lease := None,
                              digest := if digest.DigestOf? then digest else old(tasks)[id].digest)]
                && StoredUpTo(old(tasks)[id], report.effects, |report.effects|, IntentsOf(old(intents), id),
                     IntentsOf(intents, id))
    {
      hide CellsIn, RowsOf, IntentsOf, PatchEpoch, Put, Transactions.AcceptIntents, Acceptable, StoredUpTo,
           InfraFailure;
      if id !in tasks {
        return Some(StaleLease);
      }
      CellAt(tasks, attempts, intents, id);
      ghost var db, c := Contents(), Contents().cells[id];
      var savedTasks, savedIntents := tasks, intents;
      var current := tasks[id];
      var digested := if digest == NoDigest then current.digest else digest;
      var accepted := current.(result := Some(report), lease := None, digest := digested);
      err := LeaseUpdate(id, worker, fence, true, now, accepted);
      PutNothing(db, id, StaleLease);
      PutNothing(db, id, Invalid);
      if err.Some? {
        return;
      }
      c := c.(task := accepted);
      PutTwice(db, id, c, Ok(c));
      var ok := AcceptIntents(current, report);
      ghost var r := Transactions.AcceptIntents(current, report, c.intents);
      if !ok {
        // Roll the transaction back.
        RefusedIsInvalid(current, report, c.intents);
        tasks, intents := savedTasks, savedIntents;
        return Some(Invalid);
      }
      PutTwice(db, id, c, Ok(c.(intents := r.value)));
      c := c.(intents := r.value);
      var patch := RowPatch(Some(report.status), Some(if InfraFailure(report) then Infra else Product), Some(now),
                            Some(report.infraKind), if digest == NoDigest then None else Some(digest));
      PutTwice(db, id, c, Ok(c.(attempts := PatchEpoch(c.attempts, fence, patch))));
      UpdateEpochRows(id, fence, patch);
    }

    method Release(id: TaskId, worker: WorkerId, fence: int) returns (err: Option<Error>)
      requires Valid()
      modifies this
      ensures Valid()
      ensures id in old(tasks) ==>
                Commits(old(Contents()), Contents(), id, ReleaseTx(old(Contents()).cells[id], worker, fence), err)
      ensures id !in old(tasks) ==> Contents() == old(Contents()) && err == Some(StaleLease)
    {
      hide CellsIn, RowsOf, IntentsOf, DropEpoch, Put;
      if id !in tasks {
        return Some(StaleLease);
      }
      CellAt(tasks, attempts, intents, id);
      ghost var db, c := Contents(), Contents().cells[id];
      PutNothing(db, id, StaleLease);
      var t := tasks[id];
      if t.state != Leased || t.owner != worker || t.token != fence || t.lease.None? || t.result.Some? {
        return Some(StaleLease);
      }
      var next := t.(state := Pending, owner := "", lease := None);
      SaveTask(next);
      c := c.(task := next);
      PutTwice(db, id, c, Ok(c.(attempts := DropEpoch(c.attempts, fence))));
      DeleteEpochRows(id, fence);
      return None;
    }

    method RecoverExecution(id: TaskId, worker: WorkerId, epoch: int, now: Time) returns (err: Option<Error>)
      requires Valid()
      modifies this
      ensures Valid()
      ensures id in old(tasks) ==>
                Commits(old(Contents()), Contents(), id, RecoverTx(old(Contents()).cells[id], worker, epoch, now), err)
      ensures id !in old(tasks) ==> Contents() == old(Contents()) && err == Some(NotFound)
    {
      if id !in tasks {
        return Some(NotFound);
      }
      var t := tasks[id];
      ghost var c := Contents().cells[id];
      if t.payload.durable && t.state == Leased && t.owner == worker && t.token == epoch + 1 && t.result.None? {
        assert forall k :: k in c.attempts <==> k in attempts && k.task == id;
        if exists k :: k in attempts && k.task == id && attempts[k].epoch == epoch && attempts[k].worker == worker
                       && attempts[k].status == "interrupted" {
          return None;
        }
      }
      if !RecoveryAllowed(t, worker, epoch, now) {
        return Some(StaleLease);
      }
      if !ValidTimeout(t.payload) {
        return Some(Invalid);
      }
      err := Reopen(t, Recovered(t, now), epoch, RecoveryPatch(t, now), now);
    }

    /** Save the newly leased task and insert its attempt row. */
    method OpenLease(next: Task, now: Time) returns (ok: bool)
      requires Valid() && next.id in tasks
      modifies this`tasks, this`attempts
      ensures Valid() && (!ok ==> tasks == old(tasks) && attempts == old(attempts))
      ensures var c := old(Contents()).cells[next.id];
              var tx := OpenAttempt(next, c.attempts, c.intents, now);
              && ok == tx.Ok? && (tx.Err? ==> tx.error == Conflict)
              && Contents() == Put(old(Contents()), next.id, tx)
    {
      hide CellsIn, RowsOf, IntentsOf, AttemptTaken, Put;
      CellAt(tasks, attempts, intents, next.id);
      ghost var db, c := Contents(), Contents().cells[next.id];
      var savedTasks, savedAttempts := tasks, attempts;
      var key, row := AttemptKey(next.id, next.attempt + 1), RunningAttempt(next.owner, next.token, now);
      PutNothing(db, next.id, Conflict);
      PutTwice(db, next.id, c.(task := next), Ok(Cell(next, c.attempts[key := row], c.intents)));
      SaveTask(next);
      ok := InsertAttempt(key, row);
      if !ok {
        tasks, attempts := savedTasks, savedAttempts;
      }
    }

    /** End the old epoch's row and reauthorize the task under a new one. */
    method Reopen(t: Task, next: Task, epoch: int, ended: RowPatch, now: Time) returns (err: Option<Error>)
      requires Valid() && t.id in tasks && tasks[t.id] == t && next.id == t.id
      modifies this
      ensures Valid()
      ensures var c := old(Contents()).cells[t.id];
              Commits(old(Contents()), Contents(), t.id,
                  OpenAttempt(next, PatchEpoch(c.attempts, epoch, ended), c.intents, now), err)
    {
      hide CellsIn, RowsOf, IntentsOf, PatchEpoch, OpenAttempt, Put;
      CellAt(tasks, attempts, intents, t.id);
      ghost var db, c := Contents(), Contents().cells[t.id];
      var savedAttempts := attempts;
      UpdateEpochRows(t.id, epoch, ended);
      c := c.(attempts := PatchEpoch(c.attempts, epoch, ended));
      PutTwice(db, t.id, c, Ok(c));
      ghost var tx := OpenAttempt(next, c.attempts, c.intents, now);
      if tx.Ok? {
        PutTwice(db, t.id, c, tx);
      }
      var ok := OpenLease(next, now);
      if !ok {
        attempts := savedAttempts;
        PutNothing(db, t.id, Conflict);
        return Some(Conflict);
      }
      return None;
    }

    method AdoptLegacyInterruption(id: TaskId, worker: WorkerId, epoch: int, expected: Report, now: Time)
      returns (err: Option<Error>)
      requires Valid()
      modifies this
      ensures Valid()
      ensures id in old(tasks) ==> Commits(old(Contents()), Contents(), id,
                AdoptTx(old(Contents()).cells[id], worker, epoch, expected, now), err)
      ensures id !in old(tasks) ==> Contents() == old(Contents()) && err == Some(NotFound)
    {
      if id !in tasks {
        return Some(NotFound);
      }
      var t := tasks[id];
      ghost var c := Contents().cells[id];
      assert forall k :: k in c.attempts <==> k in attempts && k.task == id;
      assert forall k :: k in c.intents <==> k in intents && k.task == id;
      if t.payload.durable && t.owner == worker && t.token == epoch + 1 && t.state == Leased && t.result.None? {
        if exists k :: k in attempts && k.task == id && attempts[k].epoch == epoch &&
            attempts[k].errorKind == "legacy-interruption" {
          return None;
        }
      }
      if t.owner != worker || !Applicable(t, epoch) || t.payload.durable ||
          t.attempt >= MAX_INFRASTRUCTURE_ATTEMPTS - 1 {
        return Some(StaleLease);
      }
      var report := t.result.value;
      if report != expected {
        return Some(Invalid);
      }
      if !report.shaped || report.status != "failed" || report.error != LEGACY_CANCELLED || report.effects != [] {
        return Some(Invalid);
      }
      if exists k :: k in intents && k.task == id {
        return Some(Invalid);
      }
      if !ValidTimeout(t.payload) {
        return Some(Invalid);
      }
      err := Reopen(t, Adopted(t, now), epoch, AdoptionPatch(now), now);
    }

    // ----- closing tasks -----

    /** The statements every cancellation runs. */
    method CancelRows(id: TaskId, now: Time)
      requires Valid() && id in tasks
      modifies this
      ensures Valid() && tasks.Keys == old(tasks).Keys
      ensures Contents() == Put(old(Contents()), id, Ok(Cancelling(old(Contents()).cells[id], now)))
    {
      hide CellsIn, RowsOf, IntentsOf, PatchOpen, FailIntents, Put;
      CellAt(tasks, attempts, intents, id);
      ghost var db, c := Contents(), Contents().cells[id];
      var cancelled := tasks[id].(state := Cancelled, token := tasks[id].token + 1, lease := None);
      SaveTask(cancelled);
      c := c.(task := cancelled);
      PutTwice(db, id, c, Ok(c.(intents := FailIntents(c.intents))));
      FailOpenIntents(id);
      c := c.(intents := FailIntents(c.intents));
      var patch := RowPatch(Some("cancelled"), None, Some(now), None, None);
      PutTwice(db, id, c, Ok(c.(attempts := PatchOpen(c.attempts, patch))));
      UpdateOpenRows(id, patch);
    }

    method Cancel(id: TaskId, now: Time) returns (err: Option<Error>)
      requires Valid()
      modifies this
      ensures Valid()
      ensures id in old(tasks) ==>
                Commits(old(Contents()), Contents(), id, CancelTx(old(Contents()).cells[id], now), err)
      ensures id !in old(tasks) ==> Contents() == old(Contents()) && err == Some(NotFound)
    {
      if id !in tasks {
        return Some(NotFound);
      }
      if tasks[id].state == Cancelled {
        return None;
      }
      CancelRows(id, now);
      return None;
    }

    method RetireClosedAcceptance(id: TaskId, worker: WorkerId, fence: int, now: Time) returns (err: Option<Error>)
      requires Valid()
      modifies this
      ensures Valid()
      ensures id in old(tasks) ==>
                Commits(old(Contents()), Contents(), id, RetireTx(old(Contents()).cells[id], worker, fence, now), err)
      ensures id !in old(tasks) ==> Contents() == old(Contents()) && err == Some(NotFound)
    {
      if id !in tasks {
        return Some(NotFound);
      }
      var t := tasks[id];
      if t.kind != Acceptance || t.state != Leased || t.owner != worker || t.token != fence || t.result.Some? ||
          t.lease.None? {
        return Some(StaleLease);
      }
      CancelRows(id, now);
      return None;
    }

    method FinishResult(id: TaskId, worker: WorkerId, fence: int, failed: bool) returns (err: Option<Error>)
      requires Valid()
      modifies this
      ensures Valid()
      ensures id in old(tasks) ==> Commits(old(Contents()), Contents(), id,
                FinishResultTx(old(Contents()).cells[id], worker, fence, failed), err)
      ensures id !in old(tasks) ==> Contents() == old(Contents()) && err == Some(StaleLease)
    {
      if id !in tasks || tasks[id].owner != worker || !Applicable(tasks[id], fence) {
        return Some(StaleLease);
      }
      SaveTask(tasks[id].(state := if failed then Failed else Done));
      return None;
    }

    method RecordApplicationFailure(id: TaskId, epoch: int, message: string) returns (err: Option<Error>)
      requires Valid()
      modifies this
      ensures Valid()
      ensures id in old(tasks) ==> Commits(old(Contents()), Contents(), id,
                RecordFailureTx(old(Contents()).cells[id], epoch, message), err)
      ensures id !in old(tasks) ==> Contents() == old(Contents()) && err == Some(NotFound)
    {
      hide CellsIn, RowsOf, IntentsOf, FailIntents, Put;
      if id !in tasks {
        return Some(NotFound);
      }
      CellAt(tasks, attempts, intents, id);
      ghost var db, c := Contents(), Contents().cells[id];
      PutNothing(db, id, StaleLease);
      var t := tasks[id];
      if t.state != Leased || t.token != epoch || t.lease.Some? {
        return Some(StaleLease);
      }
      var next := t.(applicationAttempts := t.applicationAttempts + 1, applicationError := message);
      if next.applicationAttempts >= MAX_APPLICATION_ATTEMPTS {
        next := next.(state := Failed);
        c := c.(intents := FailIntents(c.intents));
        PutTwice(db, id, c, Ok(c.(task := next)));
        FailOpenIntents(id);
      }
      SaveTask(next);
      return None;
    }

    // ----- scans -----

    method ExpireLeases(now: Time) returns (expired: set<TaskId>)
      requires Valid()
      modifies this
      ensures Valid()
      ensures Contents() == old(Contents()).(cells := SweepCells(old(Contents()).cells, Expire(now)))
      ensures expired == set id | id in old(tasks) && Expires(old(tasks)[id], now)
      ensures tasks.Keys == old(tasks).Keys
      ensures forall id :: id in expired <==>
                id in old(tasks) && old(tasks)[id].state == Leased && !old(tasks)[id].payload.durable
                && old(tasks)[id].lease.Some? && old(tasks)[id].lease.value <= now
      ensures forall id :: id in old(tasks) ==>
                if id in expired
                then tasks[id].lease.None? && tasks[id].owner == "" && tasks[id].attempt == old(tasks)[id].attempt + 1
                else tasks[id] == old(tasks)[id]
      ensures forall id :: (id in tasks && tasks[id].state == Leased && tasks[id].lease.Some?
                            && !tasks[id].payload.durable) ==> now < tasks[id].lease.value
    {
      hide CellsIn, RowsOf, IntentsOf, SweepSome, ExpireTx, CellTx, Put, SweepCells, Expires;
      ExpiresColumns(tasks, now);
      TaskOfCell(tasks, attempts, intents);
      var due := set id | id in tasks && tasks[id].state == Leased && tasks[id].lease.Some? &&
          tasks[id].lease.value <= now;
      ghost var db, op := Contents(), Expire(now);
      var remaining := due;
      expired := {};
      SweepStarts(db, op, due);
      while remaining != {}
        invariant Valid() && remaining <= due && tasks.Keys == old(tasks).Keys
        invariant Contents() == db.(cells := SweepSome(db.cells, op, due - remaining))
        invariant forall id :: id in expired <==> id in due && id !in remaining && Expires(old(tasks)[id], now)
      {
        var id :| id in remaining;
        SweepNext(db, op, due, remaining, id);
        TaskOfCell(tasks, attempts, intents);
        ExpiresExactly(db.cells[id], now);
        PutRefused(Contents(), id, CellTx(db.cells[id], op));
        // Durable execution is quarantined, never blindly requeued after a partition.
        if !tasks[id].payload.durable {
          ExpireOne(id, now);
          expired := expired + {id};
        }
        remaining := remaining - {id};
      }
      forall id | id in db.cells && id !in due
        ensures CellTx(db.cells[id], op).Err?
      {
        ExpiresExactly(db.cells[id], now);
      }
      SweepEnds(db, op, due);
      TaskOfCell(tasks, attempts, intents);
      SweepColumns(db.cells, now);
    }

    method ExpireOne(id: TaskId, now: Time)
      requires Valid() && id in tasks && Expires(tasks[id], now)
      modifies this
      ensures Valid() && tasks.Keys == old(tasks).Keys
      ensures ExpireTx(old(Contents()).cells[id], now).Ok?
      ensures Contents() == Put(old(Contents()), id, ExpireTx(old(Contents()).cells[id], now))
    {
      hide CellsIn, RowsOf, IntentsOf, PatchEpoch, FailIntents, Put;
      CellAt(tasks, attempts, intents, id);
      ghost var db, c := Contents(), Contents().cells[id];
      var t := tasks[id];
      var patch := RowPatch(Some("expired"), Some(Infra), Some(now), Some("lease-expired"), None);
      UpdateEpochRows(id, t.token, patch);
      c := c.(attempts := PatchEpoch(c.attempts, t.token, patch));
      t := t.(attempt := t.attempt + 1, state := Pending, owner := "", lease := None);
      if t.attempt >= MAX_INFRASTRUCTURE_ATTEMPTS {
        t := t.(state := Failed);
      }
      if t.kind == Repair {
        // The shared ledger reconciles the expiry before the repair is rescheduled.
        t := t.(state := Leased, result := Some(LEASE_EXPIRED_REPORT));
      }
      PutTwice(db, id, c, Ok(c.(task := t)));
      SaveTask(t);
      c := c.(task := t);
      PutTwice(db, id, c, Ok(c.(intents := FailIntents(c.intents))));
      FailOpenIntents(id);
    }

    method CancelSupersededAcceptance(repo: string, pr: int, contract: string, now: Time)
      requires Valid()
      modifies this
      ensures Valid()
      ensures Contents() ==
                old(Contents()).(cells := SweepCells(old(Contents()).cells, Supersede(repo, pr, contract, now)))
    {
      hide CellsIn, RowsOf, IntentsOf, SweepSome, Cancelling, CellTx, Put, SweepCells;
      TaskOfCell(tasks, attempts, intents);
      var candidates := set id | id in tasks && tasks[id].repo == repo && tasks[id].pr == pr &&
          tasks[id].kind == Acceptance && Active(tasks[id]);
      ghost var db, op := Contents(), Supersede(repo, pr, contract, now);
      var remaining := candidates;
      SweepStarts(db, op, candidates);
      while remaining != {}
        invariant Valid() && remaining <= candidates && tasks.Keys == old(tasks).Keys
        invariant Contents() == db.(cells := SweepSome(db.cells, op, candidates - remaining))
      {
        var id :| id in remaining;
        TaskOfCell(tasks, attempts, intents);
        SweepNext(db, op, candidates, remaining, id);
        SupersedesOnlyCandidates(db.cells[id], repo, pr, contract, now);
        PutRefused(Contents(), id, CellTx(db.cells[id], op));
        if tasks[id].payload.contract != Some(contract) {
          CancelRows(id, now);
        }
        remaining := remaining - {id};
      }
      forall id | id in db.cells && id !in candidates
        ensures CellTx(db.cells[id], op).Err?
      {
        SupersedesOnlyCandidates(db.cells[id], repo, pr, contract, now);
      }
      SweepEnds(db, op, candidates);
    }

    method EndInactiveInterruptions(now: Time) returns (ended: set<TaskId>)
      requires Valid()
      modifies this
      ensures Valid()
      ensures Contents() == old(Contents()).(cells := SweepCells(old(Contents()).cells, EndInactive(now)))
      ensures forall id :: id in ended <==> id in old(tasks) && EndInactiveTx(old(Contents()).cells[id], now).Ok?
    {
      hide CellsIn, RowsOf, IntentsOf, SweepSome, CellTx, EndInactiveTx, Put, SweepCells;
      TaskOfCell(tasks, attempts, intents);
      var candidates := set id | id in tasks && tasks[id].state == Leased &&
          (tasks[id].kind == Implement || tasks[id].kind == Repair)
                                 && tasks[id].lease.Some? && tasks[id].lease.value <= now && tasks[id].result.Some?
                                 && tasks[id].result.value.error == INACTIVE_ISSUE_ERROR;
      assert forall id :: id in candidates <==> id in tasks && MayEnd(tasks[id], now);
      hide MayEnd;
      ghost var db, op := Contents(), EndInactive(now);
      var remaining := candidates;
      ended := {};
      SweepStarts(db, op, candidates);
      while remaining != {}
        invariant Valid() && remaining <= candidates && tasks.Keys == old(tasks).Keys
        invariant Contents() == db.(cells := SweepSome(db.cells, op, candidates - remaining))
        invariant forall id :: id in ended <==>
                    id in candidates && id !in remaining && EndInactiveTx(db.cells[id], now).Ok?
      {
        var id :| id in remaining;
        SweepNext(db, op, candidates, remaining, id);
        TaskOfCell(tasks, attempts, intents);
        EndsOnlyCandidates(db.cells[id], now);
        PutRefused(Contents(), id, CellTx(db.cells[id], op));
        var done := EndIfInactive(id, now);
        if done {
          ended := ended + {id};
        }
        remaining := remaining - {id};
      }
      forall id | id in db.cells
        ensures id !in candidates ==> CellTx(db.cells[id], op).Err?
        ensures EndInactiveTx(db.cells[id], now).Ok? ==> id in candidates
      {
        EndsOnlyCandidates(db.cells[id], now);
      }
      SweepEnds(db, op, candidates);
    }

    method EndIfInactive(id: TaskId, now: Time) returns (done: bool)
      requires Valid() && id in tasks && MayEnd(tasks[id], now)
      modifies this
      ensures Valid() && tasks.Keys == old(tasks).Keys
      ensures done == EndInactiveTx(old(Contents()).cells[id], now).Ok?
      ensures Contents() == if done then Put(old(Contents()), id, EndInactiveTx(old(Contents()).cells[id], now))
                else old(Contents())
    {
      TaskOfCell(tasks, attempts, intents);
      IntentsOfCell(tasks, attempts, intents, id);
      hide CellsIn, RowsOf, IntentsOf, AllApplied, PatchOpen;
      var t := tasks[id];
      done := t.payload.durable && InactiveIssueReport(t.result.value)
              && forall k :: k in intents && k.task == id ==> intents[k].status == IntentApplied;
      if done {
        EndOne(id, now);
      }
    }

    method EndOne(id: TaskId, now: Time)
      requires Valid() && id in tasks && EndInactiveTx(Contents().cells[id], now).Ok?
      modifies this
      ensures Valid() && tasks.Keys == old(tasks).Keys
      ensures Contents() == Put(old(Contents()), id, EndInactiveTx(old(Contents()).cells[id], now))
    {
      hide CellsIn, RowsOf, IntentsOf, PatchOpen;
      CellAt(tasks, attempts, intents, id);
      SaveTask(tasks[id].(state := Cancelled, lease := None));
      UpdateOpenRows(id, RowPatch(Some("cancelled"), None, Some(now), None, None));
    }

    // ----- claiming -----

    method CheckRepo(repo: string, limits: Limits) returns (full: bool)
      requires Valid()
      ensures full == RepoFull(Contents(), limits, repo)
    {
      if repo !in limits.repos || limits.repos[repo] <= 0 {
        return false;
      }
      TaskOfCell(tasks, attempts, intents);
      hide CellsIn;
      var leased := set id | id in tasks && tasks[id].state == Leased && tasks[id].repo == repo;
      assert leased == LeasedInRepo(Contents(), repo);
      return |leased| >= limits.repos[repo];
    }

    /** Walk the queue one row at a time, stepping over tasks this worker may not take. */
    method Walk(w: Worker, limits: Limits) returns (found: Option<TaskId>)
      requires Valid()
      ensures found.Some? ==> FirstCandidate(Contents(), limits, w, found.value)
      ensures found.None? <==> !exists id :: Candidate(Contents(), limits, w, id)
      ensures found.Some? ==> FirstInQueue(Contents(), limits, w, found.value)
    {
      hide CellsIn, Eligible, AcceptanceAllowed, Precedes, RepoFull, ResolvePolicy, FirstInQueue;
      TaskOfCell(tasks, attempts, intents);
      ghost var db := Contents();
      var pending := set id | id in tasks && tasks[id].state == Pending;
      var skipped: set<TaskId> := {};
      while true
        invariant skipped <= pending && Contents() == db
        invariant forall id :: id in skipped ==> Skipped(db, limits, w, tasks[id])
        decreases pending - skipped
      {
        if pending - skipped == {} {
          assert forall id :: id in pending ==> id in skipped;
          return None;
        }
        ghost var first := FirstExists(db.cells, pending - skipped);
        var id :| id in pending - skipped && forall other :: other in pending - skipped && other != id ==>
            Precedes(tasks[id], tasks[other]);
        var t := tasks[id];
        var full := CheckRepo(t.repo, limits);
        if full {
          skipped := skipped + {id};
          continue;
        }
        var resolved := ResolvePolicy(t);
        if resolved.Ok? && (!Eligible(resolved.value.tags, w) || !AcceptanceAllowed(resolved.value, w)) {
          skipped := skipped + {id};
          continue;
        }
        assert Candidate(db, limits, w, id);
        FirstColumns(db, limits, w, id);
        return Some(id);
      }
    }

    /** Lease the task to the worker, or fail on a payload it cannot be leased with. */
    method GrantLease(id: TaskId, w: Worker, claimId: string, now: Time) returns (err: Option<Error>)
      requires Valid() && id in tasks
      modifies this
      ensures Valid() && workers == old(workers)
      ensures Commits(old(Contents()), Contents(), id, GrantTx(old(Contents()).cells[id], w, claimId, now), err)
    {
      hide CellsIn, RowsOf, IntentsOf, OpenAttempt;
      CellAt(tasks, attempts, intents, id);
      var resolved := ResolvePolicy(tasks[id]);
      if resolved.Err? {
        return Some(Invalid);
      }
      var t := resolved.value;
      var lease := now + LEASE_TTL;
      if w.durable {
        if !ValidTimeout(t.payload) {
          return Some(Invalid);
        }
        lease := now + t.payload.timeout.value + DURABLE_REPORT_GRACE;
        t := t.(payload := t.payload.(durable := true, claimId := if claimId != "" then claimId
            else t.payload.claimId));
      }
      var ok := OpenLease(t.(state := Leased, owner := w.id, lease := Some(lease), lastEvent := None,
          token := t.token + 1), now);
      return if ok then None else Some(Conflict);
    }

    /** The checks before the walk. */
    method CheckCapacity(worker: WorkerId, requested: string, limits: Limits) returns (refusal: Option<Error>)
      requires Valid()
      ensures refusal == Refusal(Contents(), worker, requested, limits)
    {
      TaskOfCell(tasks, attempts, intents);
      hide CellsIn;
      ghost var db := Contents();
      var leased := set id | id in tasks && tasks[id].state == Leased;
      assert leased == LeasedIds(db);
      if limits.total > 0 && |leased| >= limits.total {
        return Some(NoTask);
      }
      if worker !in workers {
        return Some(NotFound);
      }
      var w := workers[worker];
      if requested != "" && !w.durable {
        return Some(Invalid);
      }
      if w.paused {
        return Some(NoTask);
      }
      var owned := set id | id in tasks && tasks[id].state == Leased && tasks[id].owner == worker;
      assert owned == LeasedBy(db, worker);
      return if |owned| >= w.maxParallel then Some(NoTask) else None;
    }

    /** The task an earlier request with this identifier was given, if any. */
    method FindClaimed(worker: WorkerId, requested: string) returns (found: Option<TaskId>)
      requires Valid()
      ensures found.None? <==> HeldUnder(Contents(), worker, requested) == {}
      ensures found.Some? ==> found.value in HeldUnder(Contents(), worker, requested)
                              && forall other :: (other in HeldUnder(Contents(), worker, requested)
                                                  && other != found.value) ==>
                                   LexLess(found.value, other)
    {
      TaskOfCell(tasks, attempts, intents);
      hide CellsIn;
      var held := set id | id in tasks && tasks[id].owner == worker && tasks[id].payload.claimId == requested;
      assert held == HeldUnder(Contents(), worker, requested);
      if held == {} {
        return None;
      }
      ghost var least := LeastIdExists(held);
      var id :| id in held && forall other :: other in held && other != id ==> LexLess(id, other);
      return Some(id);
    }

    /** Claim (no identifier) and ClaimWithID. */
    method Claim(worker: WorkerId, claimId: Option<string>, limits: Limits, now: Time)
      returns (decision: Decision, err: Option<Error>)
      requires Valid()
      modifies this
      ensures Valid()
      ensures claimId.Some? && !ValidClaimId(claimId.value) ==> decision == Refuse(Invalid)
      ensures claimId.None? || ValidClaimId(claimId.value) ==>
                Decides(old(Contents()), worker, if claimId.Some? then claimId.value else "", limits, decision)
      ensures Contents() ==
                ClaimEffect(old(Contents()), worker, if claimId.Some? then claimId.value else "", decision, now)
      ensures decision.Replay? ==> err.None?
      ensures decision.Refuse? ==> err == Some(decision.error)
      ensures decision.Grant? ==>
                decision.id in old(tasks) && worker in workers
                && FirstInQueue(old(Contents()), limits, workers[worker], decision.id)
                && Commits(old(Contents()), Contents(), decision.id,
                           GrantTx(old(Contents()).cells[decision.id], workers[worker],
                             if claimId.Some? then claimId.value else "", now), err)
    {
      hide CellsIn, RowsOf, IntentsOf, GrantTx, Candidate, FirstCandidate, FirstInQueue, Refusal, HeldUnder;
      TaskOfCell(tasks, attempts, intents);
      ghost var db := Contents();
      if claimId.Some? && !ValidClaimId(claimId.value) {
        return Refuse(Invalid), Some(Invalid);
      }
      var requested := if claimId.Some? then claimId.value else "";
      if requested != "" {
        var held := FindClaimed(worker, requested);
        HeldInTables(db, worker, requested);
        if held.Some? {
          if tasks[held.value].state != Leased || tasks[held.value].result.Some? {
            return Refuse(NoTask), Some(NoTask);
          }
          return Replay(held.value), None;
        }
      }
      var refusal := CheckCapacity(worker, requested, limits);
      if refusal.Some? {
        return Refuse(refusal.value), refusal;
      }
      NotRefused(db, worker, requested, limits);
      var found := Walk(workers[worker], limits);
      if found.None? {
        assert Contents() == db && db.workers[worker] == workers[worker];
        assert !exists id :: Candidate(db, limits, workers[worker], id);
        return Refuse(NoTask), Some(NoTask);
      }
      decision := Grant(found.value);
      CandidateIsPending(db, limits, workers[worker], found.value);
      err := GrantLease(found.value, workers[worker], requested, now);
    }

    // ----- enqueueing and registering -----

    /** The active task a request duplicates. */
    method FindDuplicate(s: Submission) returns (found: Option<TaskId>)
      requires Valid()
      ensures found.Some? ==> found.value in Contents().cells && Duplicates(s, Contents().cells[found.value].task)
      ensures found.None? ==> !exists d :: d in Contents().cells && Duplicates(s, Contents().cells[d].task)
    {
      TaskOfCell(tasks, attempts, intents);
      hide CellsIn, Duplicates;
      var duplicates := set d | d in tasks && Duplicates(s, tasks[d]);
      if duplicates == {} {
        assert forall d :: d in tasks ==> d !in duplicates;
        return None;
      }
      var d :| d in duplicates;
      return Some(d);
    }

    /** A coordinated submission must have assessed exactly the work that is active now. */
    method CheckCoordination(s: Submission) returns (err: Option<Error>)
      requires Valid()
      ensures err == if s.coordination.NoSnapshot? then None
                     else if !s.coordination.wellFormed then Some(Invalid)
                     else if s.coordination.tasks != Summaries(Contents(), s.repo) then Some(CoordinationChanged)
                     else None
    {
      if s.coordination.NoSnapshot? {
        return None;
      }
      if !s.coordination.wellFormed {
        return Some(Invalid);
      }
      SummariesInTables(tasks, attempts, intents, Contents(), s.repo);
      var active := set d | d in tasks && Active(tasks[d]) && tasks[d].repo == s.repo ::
        ActiveSummary(d, tasks[d].issue, tasks[d].pr, tasks[d].kind, tasks[d].state, tasks[d].priority);
      return if s.coordination.tasks != active then Some(CoordinationChanged) else None;
    }

    method RememberEvent(event: EventKey, id: TaskId)
      requires Valid()
      modifies this`inbox
      ensures Valid() && Contents() == Remember(old(Contents()), event, id)
    {
      if event.externalId != "" {
        inbox := inbox[event := id];
      }
    }

    /** The write transaction of EnqueuePrepared. */
    method InsertPrepared(s: Submission, id: TaskId, now: Time) returns (result: Result<TaskId>, inserted: bool)
      requires Valid()
      modifies this
      ensures Valid() && EnqueueTx(old(Contents()), s, id, now, Enqueued(Contents(), result, inserted))
    {
      hide CellsIn, RowsOf, IntentsOf, Clash, Duplicates, Summaries, IndexConflict, ValidSubmission, Remember, NewTask;
      ghost var db := Contents();
      inserted := false;
      if !ValidSubmission(s) {
        return Err(Invalid), false;
      }
      if s.event.externalId != "" && s.event in inbox {
        return Ok(inbox[s.event]), false;
      }
      var duplicate := FindDuplicate(s);
      assert Contents() == db;
      if duplicate.Some? {
        RememberEvent(s.event, duplicate.value);
        return Ok(duplicate.value), false;
      }
      assert !exists d :: d in db.cells && Duplicates(s, db.cells[d].task);
      var err := CheckCoordination(s);
      assert Contents() == db;
      if err.Some? {
        return Err(err.value), false;
      }
      var t := NewTask(id, s, now);
      NewTaskId(id, s, now);
      ConflictInTables(tasks, attempts, intents, db, t);
      CellAt(tasks, attempts, intents, id);
      if id in tasks || exists d :: d in tasks && d != id && Clash(t, tasks[d]) {
        return Err(NotFound), false;
      }
      InsertTask(t);
      RememberEvent(s.event, id);
      return Ok(id), true;
    }

    method InsertTask(t: Task)
      requires Valid() && t.id !in tasks
      modifies this`tasks
      ensures Valid() && Contents() == old(Contents()).(cells := old(Contents()).cells[t.id := Cell(t, map[], map[])])
    {
      tasks := tasks[t.id := t];
      assert RowsOf(attempts, t.id) == map[];
      assert IntentsOf(intents, t.id) == map[];
    }

    method RegisterWorker(w: Worker) returns (err: Option<Error>)
      requires Valid()
      modifies this`workers
      ensures Valid()
      ensures w.id == "" || w.maxParallel < 1 ==> err == Some(Invalid) && workers == old(workers)
      ensures w.id != "" && w.maxParallel >= 1 ==>
                err.None? && workers == old(workers)[w.id :=
                    w.(paused := if w.id in old(workers) then old(workers)[w.id].paused else w.paused)]
    {
      if w.id == "" || w.maxParallel < 1 {
        return Some(Invalid);
      }
      var row := w;
      if w.id in workers {
        row := row.(paused := workers[w.id].paused);
      }
      workers := workers[w.id := row];
      return None;
    }

    // ----- applying effects -----

    /** SELECT the open intents ordered by position. */
    method OpenIntents(id: TaskId) returns (queue: seq<Intent>)
      requires Valid() && id in tasks
      ensures SnapshotOf(Contents().cells[id], queue)
    {
      CellAt(tasks, attempts, intents, id);
      hide CellsIn, RowsOf, IntentsOf, SnapshotOf;
      var open := set k | k in intents && k.task == id && Open(intents[k]);
      queue := OrderByPosition(intents, open);
      assert forall k :: k in intents && k.task == id && Open(intents[k]) ==> k in open;
      SnapshotInTable(Contents().cells[id], intents, id, queue);
    }

    /** The transaction that opens ApplyEffects. */
    method SnapshotEffects(id: TaskId, epoch: int) returns (ok: bool, queue: seq<Intent>)
      requires Valid()
      ensures ok <==> id in tasks && SnapshotAllowed(Contents().cells[id], epoch)
      ensures ok ==> SnapshotOf(Contents().cells[id], queue)
    {
      if id !in tasks {
        return false, [];
      }
      CellAt(tasks, attempts, intents, id);
      ghost var rows := IntentsOf(intents, id);
      assert forall k :: k in rows <==> k in intents && k.task == id;
      if !Applicable(tasks[id], epoch) {
        return false, [];
      }
      // A report stored before intents were durable is left for explicit reconciliation.
      if tasks[id].result.value.effects != [] && !(exists k :: k in intents && k.task == id
                                                                     && intents[k].epoch == epoch) {
        assert !exists k :: k in rows && rows[k].epoch == epoch;
        return false, [];
      }
      queue := OpenIntents(id);
      if exists i :: 0 <= i < |queue| && queue[i].epoch != tasks[id].token {
        return false, queue;
      }
      return true, queue;
    }

    /** The transaction that records one answer. */
    method CommitEffect(id: TaskId, epoch: int, key: IntentKey, outcome: Outcome) returns (err: Option<Error>)
      requires Valid() && id in tasks && key.task == id
      modifies this
      ensures Valid() && tasks.Keys == old(tasks).Keys
      ensures Commits(old(Contents()), Contents(), id, CommitChecked(old(Contents()), id, epoch, key, outcome), err)
      ensures err.Some? ==> tasks == old(tasks) && attempts == old(attempts) && intents == old(intents)
      ensures err.None? ==> old(tasks)[id].state == Leased && key in intents
                            && intents[key].reference == outcome.reference
                            && intents[key].status == if outcome.RemoteApplied? then IntentApplied else IntentUncertain
      ensures err.None? && outcome.RemoteFailed? ==> tasks == old(tasks)
      ensures err.None? && outcome.RemoteApplied? ==>
                tasks == old(tasks)[id := old(tasks)[id].(
                           pr := if outcome.pr > 0 then outcome.pr else old(tasks)[id].pr,
                           state := if outcome.headMismatch then HeadMismatch else Leased)]
    {
      hide CellsIn, RowsOf, IntentsOf, Settling, IndexConflict, Clash, PrConflict, CommitTx, CommitChecked, Put;
      CellAt(tasks, attempts, intents, id);
      IntentAt(intents, id, key);
      ghost var db, c := Contents(), Contents().cells[id];
      CommitRefusals(db, id, epoch, key, outcome);
      PutNothing(db, id, StaleLease);
      PutNothing(db, id, NotFound);
      PutNothing(db, id, Conflict);
      var t := tasks[id];
      if !Applicable(t, epoch) {
        return Some(StaleLease);
      }
      if key !in intents {
        return Some(NotFound);
      }
      var current := intents[key];
      if current.epoch != epoch || !Open(current) {
        return Some(StaleLease);
      }
      CommitCases(db, id, epoch, key, outcome);
      AnswerConflicts(db, t, outcome);
      if outcome.RemoteFailed? {
        SaveIntent(current.(status := IntentUncertain, reference := outcome.reference));
        return None;
      }
      if outcome.pr > 0 {
        ConflictInTables(tasks, attempts, intents, db, t.(pr := outcome.pr));
        if exists other :: other in tasks && other != id && Clash(t.(pr := outcome.pr), tasks[other]) {
          return Some(Conflict);
        }
        t := t.(pr := outcome.pr);
      }
      SettleEffect(t, current.(status := IntentApplied, reference := outcome.reference), epoch, outcome.headMismatch);
      return None;
    }

    /** Save an applied intent and what it revealed about the pull request. */
    method SettleEffect(t: Task, applied: Intent, epoch: int, headMismatch: bool)
      requires Valid() && t.id in tasks && applied.key.task == t.id
      modifies this
      ensures Valid() && tasks.Keys == old(tasks).Keys
      ensures Contents() == Put(old(Contents()), t.id,
                Ok(Settling(old(Contents()).cells[t.id], t, applied.key, applied, epoch, headMismatch)))
      ensures tasks == old(tasks)[t.id := if headMismatch then t.(state := HeadMismatch) else t]
      ensures applied.status == IntentApplied ==> applied.key in intents && intents[applied.key] == applied
    {
      hide CellsIn, RowsOf, IntentsOf, FailIntents, PatchEpoch, Put;
      CellAt(tasks, attempts, intents, t.id);
      ghost var db, c := Contents(), Contents().cells[t.id];
      SaveIntent(applied);
      c := c.(intents := c.intents[applied.key := applied]);
      var saved := if headMismatch then t.(state := HeadMismatch) else t;
      PutTwice(db, t.id, c, Ok(c.(task := saved)));
      SaveTask(saved);
      if headMismatch {
        c := c.(task := saved);
        var patch := RowPatch(Some("head-mismatch"), None, None, None, None);
        PutTwice(db, t.id, c, Ok(c.(attempts := PatchEpoch(c.attempts, epoch, patch))));
        UpdateEpochRows(t.id, epoch, patch);
        c := c.(attempts := PatchEpoch(c.attempts, epoch, patch));
        PutTwice(db, t.id, c, Ok(c.(intents := FailIntents(c.intents))));
        FailOpenIntents(t.id);
        PutTwice(db, t.id, c.(intents := FailIntents(c.intents)), Ok(c));
        CellAt(tasks, attempts, intents, t.id);
        AppliedIsKept(intents, t.id, c.intents, applied);
      }
    }

    /** ApplyEffects when no other transaction comes in between. */
    method ApplyEffects(id: TaskId, epoch: int, answer: Intent -> Outcome)
      returns (ghost queue: seq<Intent>, err: Option<Error>)
      requires Valid()
      modifies this
      ensures Valid()
      ensures id !in old(tasks) ==> Contents() == old(Contents()) && err == Some(NotFound)
      ensures id in old(tasks) && !SnapshotAllowed(old(Contents()).cells[id], epoch) ==>
                Contents() == old(Contents()) && err == Some(StaleLease)
      ensures id in old(tasks) && SnapshotAllowed(old(Contents()).cells[id], epoch) ==>
                SnapshotOf(old(Contents()).cells[id], queue) &&
                    (Contents(), err) == Drain(old(Contents()), id, epoch, queue, answer)
      ensures err.None? && (forall i :: 0 <= i < |queue| ==> Clean(answer(queue[i]))) ==>
                && id in old(tasks) && id in tasks
                && tasks == old(tasks)[id := old(tasks)[id].(pr := tasks[id].pr)]
                && LastNumber(queue, answer, old(tasks)[id].pr, tasks[id].pr)
      ensures err.None? && (exists i :: 0 <= i < |queue| && !Clean(answer(queue[i]))) ==>
                id in tasks && tasks[id].state == HeadMismatch
    {
      hide CellsIn, RowsOf, IntentsOf, SnapshotAllowed, SnapshotOf, LastNumber, Drain;
      CellAt(tasks, attempts, intents, id);
      var ok, open := SnapshotEffects(id, epoch);
      queue := open;
      if id !in tasks {
        return queue, Some(NotFound);
      }
      if !ok {
        return queue, Some(StaleLease);
      }
      SnapshotKeys(Contents().cells[id], queue, id, intents);
      err := DrainQueue(id, epoch, open, answer);
    }

    /** Call and commit for each intent in turn, until one fails or reveals a head mismatch. */
    method DrainQueue(id: TaskId, epoch: int, queue: seq<Intent>, answer: Intent -> Outcome)
      returns (err: Option<Error>)
      requires Valid() && id in tasks && id in Contents().cells
      requires forall i :: 0 <= i < |queue| ==> queue[i].key.task == id
      modifies this
      ensures Valid() && (Contents(), err) == Drain(old(Contents()), id, epoch, queue, answer)
      ensures err.None? && (forall i :: 0 <= i < |queue| ==> Clean(answer(queue[i]))) ==>
                && id in tasks && tasks == old(tasks)[id := old(tasks)[id].(pr := tasks[id].pr)]
                && LastNumber(queue, answer, old(tasks)[id].pr, tasks[id].pr)
      ensures err.None? && (exists i :: 0 <= i < |queue| && !Clean(answer(queue[i]))) ==>
                id in tasks && tasks[id].state == HeadMismatch
    {
      hide CellsIn, RowsOf, IntentsOf, CommitChecked, LastNumber, Drain, Put;
      ghost var db := Contents();
      NoNumber(answer, tasks[id].pr);
      assert queue[..0] == [] && queue[0..] == queue;
      for i := 0 to |queue|
        invariant Valid() && id in tasks && id in Contents().cells
        invariant Drain(db, id, epoch, queue, answer) == Drain(Contents(), id, epoch, queue[i..], answer)
        invariant tasks == old(tasks)[id := old(tasks)[id].(pr := tasks[id].pr)]
        invariant LastNumber(queue[..i], answer, old(tasks)[id].pr, tasks[id].pr)
        invariant forall j :: 0 <= j < i ==> Clean(answer(queue[j]))
      {
        var outcome := answer(queue[i]);
        assert queue[i..][0] == queue[i] && queue[i..][1..] == queue[i + 1..];
        DrainNext(Contents(), id, epoch, queue[i..], answer);
        NumberNext(queue, answer, i, old(tasks)[id].pr, tasks[id].pr);
        err := CommitEffect(id, epoch, queue[i].key, outcome);
        CellAt(tasks, attempts, intents, id);
        if err.Some? {
          return;
        }
        if outcome.RemoteFailed? {
          return Some(Remote);
        }
        if outcome.headMismatch {
          return None;
        }
      }
      assert queue[..|queue|] == queue && queue[|queue|..] == [];
      DrainNext(Contents(), id, epoch, [], answer);
      return None;
    }

    // ----- finalizing -----

    /** The check both finalization transactions start with. */
    method CheckFinalizable(id: TaskId, epoch: int) returns (err: Option<Error>)
      requires Valid()
      ensures id !in tasks ==> err == Some(NotFound)
      ensures id in tasks ==>
                var gate := FinalizeGate(Contents().cells[id], epoch);
                    err == if gate.Ok? then None else Some(gate.error)
    {
      if id !in tasks {
        return Some(NotFound);
      }
      CellAt(tasks, attempts, intents, id);
      IntentsOfCell(tasks, attempts, intents, id);
      hide CellsIn, RowsOf, IntentsOf, AllApplied;
      if !Applicable(tasks[id], epoch) {
        return Some(StaleLease);
      }
      if exists k :: k in intents && k.task == id && intents[k].status != IntentApplied {
        return Some(Invalid);
      }
      return None;
    }

    /** Controller history: the previous lease of this task was interrupted. */
    method WasInterrupted(id: TaskId, epoch: int) returns (found: bool)
      requires Valid() && id in tasks
      ensures var rows := Contents().cells[id].attempts;
              found == exists k :: k in rows && rows[k].epoch == epoch - 1 && rows[k].status == "interrupted"
    {
      CellAt(tasks, attempts, intents, id);
      ghost var rows := RowsOf(attempts, id);
      assert forall k :: k in rows <==> k in attempts && k.task == id;
      hide CellsIn, RowsOf, IntentsOf;
      found := exists k :: (k in attempts && k.task == id && attempts[k].epoch == epoch - 1
                            && attempts[k].status == "interrupted");
      if found {
        var k :| k in attempts && k.task == id && attempts[k].epoch == epoch - 1 && attempts[k].status == "interrupted";
        assert k in rows;
      }
    }

    /** What finalization makes of a task that is not retained. */
    method CloseTask(t: Task, r: Report, failed: bool) returns (next: Task)
      ensures next == Closed(t, r, failed)
    {
      next := t.(state := if failed then Failed else Done, applicationError := "");
      if r.infraKind != "" && r.infraKind != "no-change" {
        next := next.(attempt := t.attempt + 1);
        if next.attempt < MAX_INFRASTRUCTURE_ATTEMPTS && t.kind != Repair && !Reassess(r) {
          next := next.(state := Pending, result := None, digest := NoDigest, owner := "", token := t.token + 1);
        }
      }
    }

    /** The transaction that closes, requeues or retains a task whose report has been applied. */
    method CommitFinalization(id: TaskId, epoch: int, failed: bool, now: Time) returns (err: Option<Error>)
      requires Valid()
      modifies this
      ensures Valid()
      ensures id in old(tasks) ==> Commits(old(Contents()), Contents(), id,
                FinalizeTx(old(Contents()).cells[id], epoch, failed, now), err)
      ensures id !in old(tasks) ==> Contents() == old(Contents()) && err == Some(NotFound)
      ensures attempts == old(attempts) && intents == old(intents) && (err.Some? ==> tasks == old(tasks))
      ensures err.None? ==>
                && id in old(tasks) && old(tasks)[id].result.Some?
                && var t, r := old(tasks)[id], old(tasks)[id].result.value;
                   tasks == old(tasks)[id :=
                     if KeptForItsWorker(old(Contents()).cells[id], epoch, failed)
                     then t.(lease := Some(now), applicationError := "")
                     else if WorthRetrying(t, r)
                     then t.(state := Pending, attempt := t.attempt + 1, token := t.token + 1, owner := "",
                             result := None, digest := NoDigest, applicationError := "")
                     else t.(state := if failed then Failed else Done, applicationError := "",
                             attempt := if r.infraKind in {"", "no-change"} then t.attempt else t.attempt + 1)]
    {
      hide CellsIn, RowsOf, IntentsOf, AllApplied, FinalizeTx, FinalizeGate, Closed, Put, KeptForItsWorker,
           WorthRetrying;
      err := CheckFinalizable(id, epoch);
      if id !in tasks {
        return;
      }
      CellAt(tasks, attempts, intents, id);
      ghost var db, c := Contents(), Contents().cells[id];
      GateRefuses(c, epoch, failed, now);
      FinalizeColumns(c, epoch, failed, now);
      PutNothing(db, id, StaleLease);
      PutNothing(db, id, Invalid);
      if err.Some? {
        return;
      }
      var t := tasks[id];
      var r := t.result.value;
      if !r.shaped {
        return Some(Invalid);
      }
      FinalizeCases(c, epoch, failed, now);
      var interrupted := WasInterrupted(id, epoch);
      var retain := InterruptedResult(r) ||
          ((r.infraKind == "launch" || r.infraKind == "coordination-changed") && interrupted);
      assert failed && t.payload.durable && (t.kind == Implement || t.kind == Repair) && retain <==>
          Retained(c, epoch, failed);
      hide Retained, InterruptedResult;
      if failed && t.payload.durable && (t.kind == Implement || t.kind == Repair) && retain {
        // An expired durable lease is already the recovery-pending state.
        SaveTask(t.(state := Leased, lease := Some(now), applicationError := ""));
        return None;
      }
      var next := CloseTask(t, r, failed);
      SaveTask(next);
      return None;
    }
  }
}
