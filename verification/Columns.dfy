/**
 What each store transaction promises, in the columns of the rows it found and left. The
 statements use literal conditions and values only, none of the functions that specify the
 transactions.
 */
module Columns {
  import opened Basics
  import opened TaskModel
  import opened Transactions
  import opened Queue

  /** The rows that `chosen` selects were changed by `change`; no row was added, removed or otherwise changed. */
  ghost predicate Rewritten<K, V>(before: map<K, V>, after: map<K, V>, chosen: V -> bool, change: V -> V) {
    && after.Keys == before.Keys
    && forall k :: k in before ==> after[k] == if chosen(before[k]) then change(before[k]) else before[k]
  }

  /** Exactly the pending and uncertain intents have failed. */
  ghost predicate OpenFailed(before: map<IntentKey, Intent>, after: map<IntentKey, Intent>) {
    Rewritten(before, after,
      (i: Intent) => i.status == IntentPending || i.status == IntentUncertain,
      (i: Intent) => i.(status := IntentFailed))
  }

  // ----- worker transactions -----

  lemma HeartbeatColumns(c: Cell, worker: WorkerId, fence: int, read: Time, now: Time)
    ensures var t, r := c.task, HeartbeatTx(c, worker, fence, read, now);
            && (r.Ok? <==> t.state == Leased && t.owner == worker && t.token == fence && t.lease.Some?
                           && now < t.lease.value)
            && (r.Err? ==> r.error == StaleLease)
            && (r.Ok? && t.payload.durable ==> r.value == c)
            && (r.Ok? && !t.payload.durable ==> r.value == c.(task := t.(lease := Some(read + 120))))
  {
  }

  lemma ProgressColumns(c: Cell, worker: WorkerId, fence: int, age: int, now: Time)
    ensures var t, r := c.task, ProgressTx(c, worker, fence, age, now);
            && (r.Ok? <==> 0 <= age <= 86400 && t.state == Leased && t.owner == worker && t.token == fence
                           && t.lease.Some? && now < t.lease.value)
            && (r.Err? ==> r.error == if 0 <= age <= 86400 then StaleLease else Invalid)
            && (r.Ok? ==>
                  && r.value == c.(task := t.(lastEvent := r.value.task.lastEvent))
                  && r.value.task.lastEvent.Some? && now - age <= r.value.task.lastEvent.value
                  && (r.value.task.lastEvent == Some(now - age)
                      || (r.value.task.lastEvent == t.lastEvent && t.lastEvent.Some?)))
  {
  }

  lemma FinishColumns(c: Cell, worker: WorkerId, fence: int, failed: bool, report: Report, now: Time)
    ensures var t, r := c.task, FinishTx(c, worker, fence, failed, report, now);
            && (r.Ok? <==> t.state == Leased && t.owner == worker && t.token == fence && t.lease.Some?
                           && now < t.lease.value)
            && (r.Err? ==> r.error == StaleLease)
            && (r.Ok? ==>
                  && r.value.intents == c.intents
                  && r.value.task == t.(state := if failed then Failed else Done, result := Some(report), lease := None)
                  && Rewritten(c.attempts, r.value.attempts, (a: Attempt) => a.epoch == fence,
                       (a: Attempt) => a.(status := if failed then "failed" else "done", endedAt := Some(now))))
  {
  }

  lemma FinishResultColumns(c: Cell, worker: WorkerId, fence: int, failed: bool)
    ensures var t, r := c.task, FinishResultTx(c, worker, fence, failed);
            && (r.Ok? <==> t.state == Leased && t.owner == worker && t.token == fence
                           && t.lease.None? && t.result.Some?)
            && (r.Err? ==> r.error == StaleLease)
            && (r.Ok? ==> r.value == c.(task := t.(state := if failed then Failed else Done)))
  {
  }

  lemma ReleaseColumns(c: Cell, worker: WorkerId, fence: int)
    ensures var t, r := c.task, ReleaseTx(c, worker, fence);
            && (r.Ok? <==> t.state == Leased && t.owner == worker && t.token == fence
                           && t.lease.Some? && t.result.None?)
            && (r.Err? ==> r.error == StaleLease)
            && (r.Ok? ==>
                  && r.value.intents == c.intents
                  && r.value.task == t.(state := Pending, owner := "", lease := None)
                  && r.value.attempts == map k | k in c.attempts && c.attempts[k].epoch != fence :: c.attempts[k])
  {
  }

  lemma AcceptColumns(c: Cell, worker: WorkerId, fence: int, report: Report, digest: ReportDigest, now: Time)
    ensures var t, r := c.task, AcceptTx(c, worker, fence, report, digest, now);
            var live := t.state == Leased && t.owner == worker && t.token == fence && t.lease.Some?
                        && (now < t.lease.value || t.payload.durable);
            && (!live ==> r == Err(StaleLease))
            && (live && r.Err? ==> r.error == Invalid)
            && (r.Ok? ==>
                  && live
                  && r.value.task == t.(result := Some(report), lease := None,
                                        digest := if digest.DigestOf? then digest else t.digest)
                  && Rewritten(c.attempts, r.value.attempts, (a: Attempt) => a.epoch == fence,
                       (a: Attempt) => a.(
                         status := report.status,
                         kind := if report.infraKind in {"", "no-change"} then Product else Infra,
                         endedAt := Some(now), errorKind := report.infraKind,
                         digest := if digest.DigestOf? then digest else a.digest)))
  {
    hide AcceptIntents;
    RefusedIsInvalid(c.task, report, c.intents);
  }

  /** Recovery and adoption open an attempt: numbered next, under the next token, for the same worker. */
  ghost predicate Reopened(before: Task, rows: map<AttemptKey, Attempt>, after: Cell, now: Time) {
    var key := AttemptKey(before.id, before.attempt + 2);
    && key in after.attempts
    && after.attempts[key] == Attempt(before.token + 1, before.owner, Product, "running", now, None, "", NoDigest)
    && after.attempts - {key} == rows && key !in rows
    && (forall k :: k in rows ==> rows[k].epoch != before.token + 1)
  }

  /** A repeated recovery finds the row of the interrupted lease, under the next token already. */
  predicate RecoveredBefore(c: Cell, worker: WorkerId, epoch: int) {
    && c.task.payload.durable && c.task.state == Leased && c.task.owner == worker
    && c.task.token == epoch + 1 && c.task.result.None?
    && exists k :: k in c.attempts && c.attempts[k].epoch == epoch && c.attempts[k].worker == worker
                   && c.attempts[k].status == "interrupted"
  }

  /** The old lease of a durable development task has ended, unreported or with an interruption it can resume. */
  predicate CanRecover(t: Task, worker: WorkerId, epoch: int, now: Time) {
    && t.payload.durable && t.kind in {Implement, Repair} && t.attempt < 2
    && t.state == Leased && t.owner == worker && t.token == epoch && t.lease.Some? && t.lease.value <= now
    && (t.result.Some? ==>
          && t.result.value.shaped && t.result.value.status == "failed"
          && t.result.value.infraKind == "execution-interrupted"
          && t.result.value.effects == [] && t.result.value.session != "" && t.digest != NoDigest)
  }

  lemma RecoverColumns(c: Cell, worker: WorkerId, epoch: int, now: Time)
    ensures var t, r := c.task, RecoverTx(c, worker, epoch, now);
            if RecoveredBefore(c, worker, epoch) then r == Ok(c)
            else if !CanRecover(t, worker, epoch, now) then r == Err(StaleLease)
            else if t.payload.timeout.None? || !(1 <= t.payload.timeout.value <= 86400) then r == Err(Invalid)
            else
              && (r.Err? ==> r.error == Conflict)
              && (r.Ok? ==>
                    && r.value.intents == c.intents
                    && r.value.task == t.(attempt := t.attempt + 1, token := epoch + 1, lastEvent := None,
                                          result := None, digest := NoDigest,
                                          lease := Some(now + t.payload.timeout.value + 600))
                    && exists rows :: Reopened(t, rows, r.value, now)
                         && Rewritten(c.attempts, rows, (a: Attempt) => a.epoch == epoch,
                              if t.result.Some?
                              then ((a: Attempt) => a.(status := "interrupted", kind := Infra))
                              else ((a: Attempt) => a.(status := "interrupted", kind := Infra, endedAt := Some(now),
                                                       errorKind := "executor-interrupted"))))
  {
    var t, r := c.task, RecoverTx(c, worker, epoch, now);
    if !RecoveredBefore(c, worker, epoch) && CanRecover(t, worker, epoch, now) && r.Ok? {
      var rows := PatchEpoch(c.attempts, epoch, RecoveryPatch(t, now));
      assert Reopened(t, rows, r.value, now);
    }
  }

  lemma AdoptColumns(c: Cell, worker: WorkerId, epoch: int, expected: Report, now: Time)
    ensures var t, r := c.task, AdoptTx(c, worker, epoch, expected, now);
            var replay := t.payload.durable && t.owner == worker && t.token == epoch + 1 && t.state == Leased
                          && t.result.None? && exists k :: k in c.attempts && c.attempts[k].epoch == epoch
                                                           && c.attempts[k].errorKind == "legacy-interruption";
            if replay then r == Ok(c)
            else if !(t.state == Leased && t.owner == worker && t.token == epoch && t.lease.None? && t.result.Some?
                      && !t.payload.durable && t.attempt < 2) then r == Err(StaleLease)
            else if !(t.result == Some(expected) && expected.shaped && expected.status == "failed"
                      && expected.error == "Offload execution: canceled" && expected.effects == []
                      && c.intents == map[]
                      && t.payload.timeout.Some? && 1 <= t.payload.timeout.value <= 86400) then r == Err(Invalid)
            else
              && (r.Err? ==> r.error == Conflict)
              && (r.Ok? ==>
                    && r.value.intents == map[]
                    && r.value.task == t.(attempt := t.attempt + 1, token := epoch + 1,
                                          result := None, digest := NoDigest,
                                          applicationError := "", applicationAttempts := 0,
                                          payload := t.payload.(durable := true, legacyRecovery := true),
                                          lease := Some(now + t.payload.timeout.value + 600))
                    && exists rows :: Reopened(t, rows, r.value, now)
                         && Rewritten(c.attempts, rows, (a: Attempt) => a.epoch == epoch,
                              (a: Attempt) => a.(status := "interrupted", kind := Infra, endedAt := Some(now),
                                                 errorKind := "legacy-interruption")))
  {
    var r := AdoptTx(c, worker, epoch, expected, now);
    if !AdoptionReplay(c, worker, epoch) && r.Ok? {
      assert Reopened(c.task, PatchEpoch(c.attempts, epoch, AdoptionPatch(now)), r.value, now);
    }
  }

  // ----- scans and cancellation -----

  lemma ExpireColumns(c: Cell, now: Time)
    ensures var t, r := c.task, CellTx(c, Expire(now));
            && (r.Ok? <==> t.state == Leased && t.lease.Some? && t.lease.value <= now && !t.payload.durable)
            && (r.Ok? && t.kind != Repair ==>
                  r.value.task == t.(attempt := t.attempt + 1, owner := "", lease := None,
                                     state := if t.attempt < 2 then Pending else Failed))
            && (r.Ok? && t.kind == Repair ==>
                  r.value.task == t.(attempt := t.attempt + 1, owner := "", lease := None,
                                     result := Some(Report(true, "failed", "lease-expired",
                                       "worker lease expired before a result was accepted", [], "", "", "", ""))))
            && (r.Ok? ==>
                  && OpenFailed(c.intents, r.value.intents)
                  && Rewritten(c.attempts, r.value.attempts, (a: Attempt) => a.epoch == t.token,
                       (a: Attempt) => a.(status := "expired", kind := Infra, endedAt := Some(now),
                                          errorKind := "lease-expired")))
  {
  }

  /** A sweep takes the overdue leases of tasks that are not durable, and leaves every other row as it is. */
  lemma SweepColumns(cells: map<TaskId, Cell>, now: Time)
    ensures SweepCells(cells, Expire(now)).Keys == cells.Keys
    ensures forall id :: id in cells ==>
              var t, after := cells[id].task, SweepCells(cells, Expire(now))[id];
              if t.state == Leased && t.lease.Some? && t.lease.value <= now && !t.payload.durable
              then after.task.lease.None? && after.task.owner == "" && after.task.token == t.token
                   && after.task.attempt == t.attempt + 1
                   && after.task.state == (if t.kind == Repair then Leased else if t.attempt < 2 then Pending
                                           else Failed)
              else after == cells[id]
  {
    forall id | id in cells
      ensures CellTx(cells[id], Expire(now)).Ok? <==>
                var t := cells[id].task;
                t.state == Leased && t.lease.Some? && t.lease.value <= now && !t.payload.durable
    {
      ExpireColumns(cells[id], now);
    }
  }

  /** The task is cancelled under a new token, with its open intents failed and its open attempts ended. */
  ghost predicate Withdrawn(c: Cell, d: Cell, now: Time) {
    && d.task == c.task.(state := Cancelled, token := c.task.token + 1, lease := None)
    && OpenFailed(c.intents, d.intents)
    && Rewritten(c.attempts, d.attempts, (a: Attempt) => a.endedAt.None?,
         (a: Attempt) => a.(status := "cancelled", endedAt := Some(now)))
  }

  lemma CancelColumns(c: Cell, now: Time)
    ensures var r := CancelTx(c, now);
            r.Ok? && if c.task.state == Cancelled then r.value == c else Withdrawn(c, r.value, now)
  {
  }

  lemma SupersedeColumns(c: Cell, repo: string, pr: int, contract: string, now: Time)
    ensures var t, r := c.task, CellTx(c, Supersede(repo, pr, contract, now));
            && (r.Ok? <==> t.kind == Acceptance && t.repo == repo && t.pr == pr && t.state in {Pending, Leased}
                           && t.payload.contract != Some(contract))
            && (r.Ok? ==> Withdrawn(c, r.value, now))
  {
  }

  lemma RetireColumns(c: Cell, worker: WorkerId, fence: int, now: Time)
    ensures var t, r := c.task, RetireTx(c, worker, fence, now);
            && (r.Ok? <==> t.kind == Acceptance && t.state == Leased && t.owner == worker && t.token == fence
                           && t.lease.Some? && t.result.None?)
            && (r.Err? ==> r.error == StaleLease)
            && (r.Ok? ==> Withdrawn(c, r.value, now))
  {
  }

  const CLOSED_ISSUE := "coordination context changed: coordination issue is closed or owner-skipped"

  lemma EndInactiveColumns(c: Cell, now: Time)
    ensures var t, r := c.task, CellTx(c, EndInactive(now));
            && (r.Ok? <==>
                  && t.state == Leased && t.kind in {Implement, Repair} && t.payload.durable
                  && t.lease.Some? && t.lease.value <= now && t.result.Some?
                  && t.result.value.shaped && t.result.value.error == CLOSED_ISSUE && t.result.value.effects == []
                  && ((t.result.value.status == "failed" && t.result.value.infraKind == "execution-interrupted")
                      || (t.result.value.status == "blocked" && t.result.value.infraKind == "coordination-changed"))
                  && forall k :: k in c.intents ==> c.intents[k].status == IntentApplied)
            && (r.Ok? ==>
                  && r.value.task == t.(state := Cancelled, lease := None) && r.value.intents == c.intents
                  && Rewritten(c.attempts, r.value.attempts, (a: Attempt) => a.endedAt.None?,
                       (a: Attempt) => a.(status := "cancelled", endedAt := Some(now))))
  {
  }

  lemma RecordFailureColumns(c: Cell, epoch: int, message: string)
    ensures var t, r := c.task, RecordFailureTx(c, epoch, message);
            && (r.Ok? <==> t.state == Leased && t.token == epoch && t.lease.None?)
            && (r.Err? ==> r.error == StaleLease)
            && (r.Ok? && t.applicationAttempts < 2 ==>
                  r.value == c.(task := t.(applicationAttempts := t.applicationAttempts + 1,
                                           applicationError := message)))
            && (r.Ok? && t.applicationAttempts >= 2 ==>
                  && r.value.attempts == c.attempts && OpenFailed(c.intents, r.value.intents)
                  && r.value.task == t.(applicationAttempts := t.applicationAttempts + 1,
                                        applicationError := message, state := Failed))
  {
  }

  // ----- recording answers -----

  lemma CommitColumns(c: Cell, epoch: int, key: IntentKey, outcome: Outcome)
    ensures var t, r := c.task, CommitTx(c, epoch, key, outcome);
            && (r.Ok? <==>
                  && t.state == Leased && t.token == epoch && t.lease.None? && t.result.Some?
                  && key in c.intents && c.intents[key].epoch == epoch
                  && c.intents[key].status in {IntentPending, IntentUncertain})
            && (r.Ok? ==>
                  var reached := c.intents[key := c.intents[key].(reference := outcome.reference, status :=
                                   if outcome.RemoteApplied? then IntentApplied else IntentUncertain)];
                  if outcome.RemoteFailed? then r.value == c.(intents := reached)
                  else
                    && r.value.task == t.(pr := if outcome.pr > 0 then outcome.pr else t.pr,
                                          state := if outcome.headMismatch then HeadMismatch else Leased)
                    && (!outcome.headMismatch ==> r.value.attempts == c.attempts && r.value.intents == reached)
                    && (outcome.headMismatch ==>
                          && OpenFailed(reached, r.value.intents)
                          && Rewritten(c.attempts, r.value.attempts, (a: Attempt) => a.epoch == epoch,
                               (a: Attempt) => a.(status := "head-mismatch"))))
  {
  }

  /** The callback wrote its effect, and the head was the submitted one. */
  predicate Clean(o: Outcome) {
    o.RemoteApplied? && !o.headMismatch
  }

  function Number(o: Outcome): int {
    if o.RemoteApplied? then o.pr else 0
  }

  /** The last positive number these answers gave, or the earlier number when they gave none. */
  predicate LastNumber(queue: seq<Intent>, answer: Intent -> Outcome, before: int, pr: int) {
    || (pr == before && forall i :: 0 <= i < |queue| ==> Number(answer(queue[i])) <= 0)
    || exists i :: 0 <= i < |queue| && 0 < Number(answer(queue[i])) == pr
                   && forall j :: i < j < |queue| ==> Number(answer(queue[j])) <= 0
  }

  lemma NoNumber(answer: Intent -> Outcome, before: int)
    ensures LastNumber([], answer, before, before)
  {
  }

  lemma NumberNext(queue: seq<Intent>, answer: Intent -> Outcome, n: nat, before: int, pr: int)
    requires n < |queue| && LastNumber(queue[..n], answer, before, pr)
    ensures LastNumber(queue[..n + 1], answer, before,
              if Number(answer(queue[n])) > 0 then Number(answer(queue[n])) else pr)
  {
    var all := queue[..n + 1];
    assert all[n] == queue[n] && forall i :: 0 <= i < n ==> all[i] == queue[..n][i];
    if Number(answer(queue[n])) > 0 {
      assert 0 <= n < |all| && 0 < Number(answer(all[n]));
    } else if i :| 0 <= i < n && 0 < Number(answer(queue[..n][i])) == pr
                   && forall j :: i < j < n ==> Number(answer(queue[..n][j])) <= 0 {
      assert 0 < Number(answer(all[i])) == pr;
    }
  }

  lemma NumberFirst(queue: seq<Intent>, answer: Intent -> Outcome, before: int, pr: int)
    requires queue != []
    requires LastNumber(queue[1..], answer,
               if Number(answer(queue[0])) > 0 then Number(answer(queue[0])) else before, pr)
    ensures LastNumber(queue, answer, before, pr)
  {
    var rest := queue[1..];
    assert forall i :: 0 < i < |queue| ==> queue[i] == rest[i - 1];
    if i :| 0 <= i < |rest| && 0 < Number(answer(rest[i])) == pr
            && forall j :: i < j < |rest| ==> Number(answer(rest[j])) <= 0 {
      assert 0 < Number(answer(queue[i + 1])) == pr;
    }
  }

  /** The two unique indexes: one active task in a queue slot, one active implementation of an issue. */
  lemma ConflictColumns(db: Db, t: Task)
    ensures IndexConflict(db, t) <==>
              exists d :: d in db.cells && d != t.id
                && var u := db.cells[d].task;
                   && t.state in {Pending, Leased} && u.state in {Pending, Leased}
                   && u.repo == t.repo && u.kind == t.kind
                   && ((t.pr > 0 && u.pr == t.pr) || (t.pr <= 0 && u.pr <= 0 && u.issue == t.issue)
                       || (t.kind == Implement && t.issue > 0 && u.issue == t.issue))
  {
    if IndexConflict(db, t) {
      var d :| d in db.cells && d != t.id && Clash(t, db.cells[d].task);
    }
    if d :| d in db.cells && d != t.id
            && var u := db.cells[d].task;
               && t.state in {Pending, Leased} && u.state in {Pending, Leased} && u.repo == t.repo && u.kind == t.kind
               && ((t.pr > 0 && u.pr == t.pr) || (t.pr <= 0 && u.pr <= 0 && u.issue == t.issue)
                   || (t.kind == Implement && t.issue > 0 && u.issue == t.issue)) {
      assert Clash(t, db.cells[d].task);
    }
  }

  // ----- finalizing -----

  /** A failed durable development task whose execution was interrupted now, or in the lease before. */
  predicate KeptForItsWorker(c: Cell, epoch: int, failed: bool) {
    && failed && c.task.payload.durable && c.task.kind in {Implement, Repair} && c.task.result.Some?
    && var r := c.task.result.value;
       || (r.shaped && r.status == "failed" && r.infraKind == "execution-interrupted")
       || (r.infraKind in {"launch", "coordination-changed"}
           && exists k :: k in c.attempts && c.attempts[k].epoch == epoch - 1 && c.attempts[k].status == "interrupted")
  }

  /** An infrastructure failure that leaves an attempt and that a new attempt under the same payload may cure. */
  predicate WorthRetrying(t: Task, r: Report) {
    && r.infraKind != "" && r.infraKind != "no-change" && r.infraKind != "coordination-changed"
    && !(r.infraKind == "launch" && r.status == "blocked" && r.nextOwner == "scheduling")
    && t.attempt < 2 && t.kind != Repair
  }

  lemma FinalizeColumns(c: Cell, epoch: int, failed: bool, now: Time)
    ensures var t, r := c.task, FinalizeTx(c, epoch, failed, now);
            var waiting := t.state == Leased && t.token == epoch && t.lease.None? && t.result.Some?;
            && (!waiting ==> r == Err(StaleLease))
            && (waiting && r.Err? ==> r.error == Invalid)
            && (r.Ok? <==> waiting && t.result.value.shaped
                           && forall k :: k in c.intents ==> c.intents[k].status == IntentApplied)
            && (r.Ok? ==>
                  && r.value.attempts == c.attempts && r.value.intents == c.intents
                  && var u, report := r.value.task, t.result.value;
                     if KeptForItsWorker(c, epoch, failed) then u == t.(lease := Some(now), applicationError := "")
                     else if WorthRetrying(t, report) then
                       u == t.(state := Pending, attempt := t.attempt + 1, token := t.token + 1, owner := "",
                               result := None, digest := NoDigest, applicationError := "")
                     else
                       u == t.(state := if failed then Failed else Done, applicationError := "",
                               attempt := if report.infraKind in {"", "no-change"} then t.attempt else t.attempt + 1))
  {
  }

  // ----- the queue -----

  /** The texts agree up to `n`, where the first ends or has the smaller character. */
  predicate DiffersAt(a: string, b: string, n: nat) {
    n <= |a| && n < |b| && a[..n] == b[..n] && (n == |a| || a[n] < b[n])
  }

  lemma DiffersLater(a: string, b: string, n: nat)
    requires a != [] && b != [] && a[0] == b[0]
    ensures DiffersAt(a, b, n + 1) <==> DiffersAt(a[1..], b[1..], n)
  {
    if n < |b[1..]| && n <= |a[1..]| {
      assert a[..n + 1] == [a[0]] + a[1..][..n];
      assert b[..n + 1] == [b[0]] + b[1..][..n];
      assert a[..n + 1][1..] == a[1..][..n] && b[..n + 1][1..] == b[1..][..n];
    }
  }

  /** One text comes before another at the first character in which they differ, or as its proper prefix. */
  lemma {:induction false} TextOrder(a: string, b: string)
    ensures LexLess(a, b) <==> exists n :: DiffersAt(a, b, n)
  {
    forall n | 0 < n <= |a| && n < |b| && a[..n] == b[..n] ensures a[0] == b[0] {
      assert a[..n][0] == b[..n][0];
    }
    if a == [] || b == [] || a[0] != b[0] {
      assert b != [] && (a == [] || a[0] < b[0]) ==> DiffersAt(a, b, 0);
    } else {
      TextOrder(a[1..], b[1..]);
      if n: nat :| DiffersAt(a[1..], b[1..], n) {
        DiffersLater(a, b, n);
      }
      if n: nat :| DiffersAt(a, b, n) {
        DiffersLater(a, b, n - 1);
      }
    }
  }

  /** The task comes no later in the queue than the other. */
  predicate NoLater(a: Task, b: Task) {
    && a.priority <= b.priority
    && (a.priority == b.priority ==> a.queuePosition <= b.queuePosition)
    && (a.priority == b.priority && a.queuePosition == b.queuePosition ==> a.createdAt <= b.createdAt)
    && (a.priority == b.priority && a.queuePosition == b.queuePosition && a.createdAt == b.createdAt ==>
          a.id == b.id || LexLess(a.id, b.id))
  }

  lemma PrecedesColumns(a: Task, b: Task)
    ensures Precedes(a, b) ==> NoLater(a, b)
    ensures NoLater(a, b) && a.id != b.id ==> Precedes(a, b)
  {
  }

  /** Nothing is known against the policy: a review without one gets the independent default. */
  predicate KnownPolicy(t: Task) {
    t.kind == Acceptance ==> t.payload.policy in {Unset, Named(""), Named("any"), Named("different")}
  }

  /** The worker has the tags and the role for the task, and did not write what it would review. */
  predicate Takes(w: Worker, t: Task) {
    && (if t.tags == [] then w.runUntagged else forall i :: 0 <= i < |t.tags| ==> t.tags[i] in w.tags)
    && (t.kind != Acceptance ==> w.roles == [] || "operator" in w.roles)
    && (t.kind == Acceptance ==>
          "acceptance" in w.roles && t.payload.developmentWorker != "" && t.payload.developmentWorker != w.id)
  }

  /** The repository has as many leased tasks as its limit, if it has one. */
  ghost predicate Busy(db: Db, limits: Limits, repo: string) {
    && repo in limits.repos && limits.repos[repo] > 0
    && |set id | id in db.cells && db.cells[id].task.state == Leased && db.cells[id].task.repo == repo|
         >= limits.repos[repo]
  }

  /** What the walk steps over: full repositories and tasks the worker does not take. */
  ghost predicate PassedOver(db: Db, limits: Limits, w: Worker, t: Task) {
    Busy(db, limits, t.repo) || (KnownPolicy(t) && !Takes(w, t))
  }

  lemma SkippedColumns(db: Db, limits: Limits, w: Worker, t: Task)
    ensures Skipped(db, limits, w, t) <==> PassedOver(db, limits, w, t)
  {
    assert Eligible(t.tags, w) <==>
             if t.tags == [] then w.runUntagged else forall i :: 0 <= i < |t.tags| ==> t.tags[i] in w.tags;
    assert (set id | id in db.cells && db.cells[id].task.state == Leased && db.cells[id].task.repo == t.repo)
           == LeasedInRepo(db, t.repo);
  }

  /** The task is queued, is not passed over, and comes no later than any other such task. */
  ghost predicate FirstInQueue(db: Db, limits: Limits, w: Worker, id: TaskId) {
    && id in db.cells && db.cells[id].task.state == Pending && !PassedOver(db, limits, w, db.cells[id].task)
    && forall other :: other in db.cells && db.cells[other].task.state == Pending
                       && !PassedOver(db, limits, w, db.cells[other].task) ==>
         NoLater(db.cells[id].task, db.cells[other].task)
  }

  lemma FirstColumns(db: Db, limits: Limits, w: Worker, id: TaskId)
    requires FirstCandidate(db, limits, w, id)
    ensures FirstInQueue(db, limits, w, id)
  {
    hide Skipped, PassedOver, Precedes, NoLater;
    SkippedColumns(db, limits, w, db.cells[id].task);
    forall other | other in db.cells && db.cells[other].task.state == Pending
                   && !PassedOver(db, limits, w, db.cells[other].task)
      ensures NoLater(db.cells[id].task, db.cells[other].task)
    {
      SkippedColumns(db, limits, w, db.cells[other].task);
      if other == id {
        SelfNoLater(db.cells[id].task);
      } else {
        assert Candidate(db, limits, w, other);
        PrecedesColumns(db.cells[id].task, db.cells[other].task);
      }
    }
  }

  lemma SelfNoLater(t: Task)
    ensures NoLater(t, t)
  {
  }

  lemma RefusalColumns(db: Db, worker: WorkerId, claimId: string, limits: Limits)
    ensures var leased := set id | id in db.cells && db.cells[id].task.state == Leased;
            var held := set id | id in leased && db.cells[id].task.owner == worker;
            Refusal(db, worker, claimId, limits)
            == if 0 < limits.total <= |leased| then Some(NoTask)
               else if worker !in db.workers then Some(NotFound)
               else if claimId != "" && !db.workers[worker].durable then Some(Invalid)
               else if db.workers[worker].paused || |held| >= db.workers[worker].maxParallel then Some(NoTask)
               else None
  {
    var leased := set id | id in db.cells && db.cells[id].task.state == Leased;
    assert (set id | id in leased && db.cells[id].task.owner == worker) == LeasedBy(db, worker);
    assert leased == LeasedIds(db);
  }

  lemma GrantColumns(c: Cell, w: Worker, claimId: string, now: Time)
    ensures var t, r := c.task, GrantTx(c, w, claimId, now);
            var timed := t.payload.timeout.Some? && 1 <= t.payload.timeout.value <= 86400;
            if !KnownPolicy(t) || (w.durable && !timed) then r == Err(Invalid)
            else
              && (r.Err? ==> r.error == Conflict)
              && (r.Ok? ==>
                    && r.value.intents == c.intents
                    && r.value.task == t.(
                         state := Leased, owner := w.id, token := t.token + 1, lastEvent := None,
                         lease := Some(if w.durable then now + t.payload.timeout.value + 600 else now + 120),
                         payload := t.payload.(
                           durable := t.payload.durable || w.durable,
                           claimId := if w.durable && claimId != "" then claimId else t.payload.claimId,
                           policy := if t.kind == Acceptance && t.payload.policy in {Unset, Named("")}
                                     then Named("different") else t.payload.policy))
                    && var key := AttemptKey(t.id, t.attempt + 1);
                       && key !in c.attempts
                       && r.value.attempts == c.attempts[key :=
                            Attempt(t.token + 1, w.id, Product, "running", now, None, "", NoDigest)])
  {
  }

  // ----- enqueueing -----

  /** The active task of the repository and kind that is about the same pull request, or the same issue without one. */
  predicate SameWork(s: Submission, t: Task) {
    && t.state in {Pending, Leased} && t.repo == s.repo && t.kind == s.kind
    && (s.pr > 0 ==> t.pr == s.pr)
    && (s.pr <= 0 ==> t.issue == s.issue && (t.pr == 0 || s.kind == Implement))
  }

  lemma EnqueueColumns(db: Db, s: Submission, id: TaskId, now: Time, out: Enqueued)
    requires EnqueueTx(db, s, id, now, out)
    ensures out.result.Err? ==> out.db == db && !out.inserted
    ensures out.result.Ok? ==> s.repo != "" && s.operator != "" && s.issue >= 0 && s.pr >= 0 && s.issue + s.pr > 0
    ensures out.result.Ok? && !out.inserted ==>
              && out.db.cells == db.cells
              && ((s.event.externalId != "" && s.event in db.inbox && out.result.value == db.inbox[s.event])
                  || (out.result.value in db.cells && SameWork(s, db.cells[out.result.value].task)))
    ensures out.inserted ==>
              && out.result == Ok(id) && id !in db.cells
              && (forall d :: d in db.cells ==> !SameWork(s, db.cells[d].task))
              && out.db.cells == db.cells[id := Cell(
                   Task(id, s.kind, s.repo, s.issue, s.pr, s.operator, s.payload, s.tags, s.priority, s.queuePosition,
                     now, Pending, 0, "", None, None, 0, None, NoDigest, 0, ""),
                   map[], map[])]
    ensures out.result.Ok? && s.event.externalId != "" ==> s.event.source != "" && s.event in out.db.inbox
                                                           && out.db.inbox[s.event] == out.result.value
    ensures out.db.workers == db.workers
            && forall e :: e in db.inbox ==> e in out.db.inbox && out.db.inbox[e] == db.inbox[e]
  {
    hide IndexConflict, Summaries;
    assert forall t :: Duplicates(s, t) <==> SameWork(s, t);
    hide Duplicates, SameWork;
  }
}
