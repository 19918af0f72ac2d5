/** Who gets which task, over every run: quarantine, capacity, repeatable requests and queue slots. */
module Assignment {
  import opened Basics
  import opened TaskModel
  import opened Transactions
  import opened Queue
  import opened Invariants
  import opened Protocol
  import opened Safety

  // ----- durable tasks stay with their worker -----

  lemma OwnerLeavesOnlyByHandover(c: Cell, e: CellEvent)
    requires Core(c) && EventTx(c, e).Ok? && c.task.payload.durable && c.task.state == Leased
    ensures EventTx(c, e).value.task.owner != c.task.owner ==>
              || e == Tx(Release(c.task.owner, c.task.token))
              || (e.Finalizes? && Applicable(c.task, c.task.token))
  {
    hide PatchEpoch, PatchOpen, FailIntents, DropEpoch, AcceptIntents, RowShape, LeaseRow;
  }

  /** A durable task's stored report was accepted from the worker that holds the task. */
  ghost predicate ReportsRecorded(s: System) {
    forall id :: id in s.db.cells && s.db.cells[id].task.payload.durable && s.db.cells[id].task.state == Leased
                 && s.db.cells[id].task.result.Some? ==>
      Accepted(id, s.db.cells[id].task.token, s.db.cells[id].task.owner) in s.reports
  }

  lemma ReportComesFromOwner(c: Cell, e: CellEvent)
    requires Core(c) && EventTx(c, e).Ok?
    ensures var d := EventTx(c, e).value.task;
            d.payload.durable && d.state == Leased && d.result.Some? ==>
              || (c.task.payload.durable && c.task.state == Leased && c.task.result.Some? && c.task.token == d.token &&
                  c.task.owner == d.owner)
              || (e.Tx? && e.op.AcceptResult? && e.op.fence == d.token && e.op.worker == d.owner)
  {
    hide PatchEpoch, PatchOpen, FailIntents, DropEpoch, AcceptIntents, RowShape, LeaseRow, CellTx;
    if e.Tx? {
      TxReportComesFromOwner(c, e.op);
    }
  }

  lemma TxReportComesFromOwner(c: Cell, op: CellOp)
    requires Core(c) && CellTx(c, op).Ok?
    ensures var d := CellTx(c, op).value.task;
            d.payload.durable && d.state == Leased && d.result.Some? ==>
              || (c.task.payload.durable && c.task.state == Leased && c.task.result.Some? && c.task.token == d.token &&
                  c.task.owner == d.owner)
              || (op.AcceptResult? && op.fence == d.token && op.worker == d.owner)
  {
    hide PatchEpoch, PatchOpen, FailIntents, DropEpoch, AcceptIntents, RowShape, LeaseRow;
  }

  lemma {:induction false} ReachableReports(states: seq<System>, actions: seq<Action>, i: nat)
    requires IsRun(states, actions) && i < |states|
    ensures ReportsRecorded(states[i])
  {
    if i > 0 {
      ReachableReports(states, actions, i - 1);
      ReachableSound(states, actions, i - 1);
      StepKeepsReports(states[i - 1], actions[i - 1], states[i]);
    }
  }

  lemma StepKeepsReports(s: System, a: Action, s': System)
    requires Sound(s) && ReportsRecorded(s) && Next(s, a, s')
    ensures ReportsRecorded(s')
  {
    hide Next, EventTx, Core;
    forall id | id in s'.db.cells && s'.db.cells[id].task.payload.durable && s'.db.cells[id].task.state == Leased
                && s'.db.cells[id].task.result.Some?
      ensures Accepted(id, s'.db.cells[id].task.token, s'.db.cells[id].task.owner) in s'.reports
    {
      if id in s.db.cells {
        StepOnTask(s, a, s', id);
        ReportsGrow(s, a, s');
        var e := EventOf(s, a, id);
        if e.Some? && EventTx(s.db.cells[id], e.value).Ok? {
          ReportComesFromOwner(s.db.cells[id], e.value);
          AcceptanceIsTx(s.db.cells[id], e.value);
        }
      } else {
        NewTasksAreFresh(s, a, s', id);
      }
    }
  }

  lemma AcceptanceIsTx(c: Cell, e: CellEvent)
    ensures e.Tx? ==> EventTx(c, e) == CellTx(c, e.op)
  {
  }

  lemma ReportsGrow(s: System, a: Action, s': System)
    requires Next(s, a, s')
    ensures s'.reports == if a.OnTask? then Reports(s, a) else s.reports
  {
    hide EventOf, EventTx, Decides, EnqueueTx, SnapshotOf, CellTx;
  }

  /** The step in which a worker gives a durable task up: its own release, or the end of a report accepted from it. */
  predicate HandsOver(s: System, a: Action, id: TaskId, worker: WorkerId) {
    && id in s.db.cells && s.db.cells[id].task.owner == worker
    && var token := s.db.cells[id].task.token;
       || a == OnTask(id, Release(worker, token))
       || (a.EndFinalize? && a.id == id && a.completed && Accepted(id, token, worker) in s.reports)
  }

  lemma OwnerChangeIsHandover(s: System, a: Action, s': System, id: TaskId)
    requires Sound(s) && ReportsRecorded(s) && Next(s, a, s') && id in s.db.cells && id in s'.db.cells
    requires s.db.cells[id].task.payload.durable && s.db.cells[id].task.state == Leased
    requires s'.db.cells[id].task.owner != s.db.cells[id].task.owner
    ensures HandsOver(s, a, id, s.db.cells[id].task.owner)
  {
    hide Next, EventTx, Core;
    StepOnTask(s, a, s', id);
    OwnerLeavesOnlyByHandover(s.db.cells[id], EventOf(s, a, id).value);
  }

  /**
   Over every run a durable task reaches another worker only after such a step has taken it
   from its worker; expiry never moves it.
   */
  lemma {:induction false} DurableQuarantine(states: seq<System>, actions: seq<Action>, i: nat, j: nat, id: TaskId)
    requires IsRun(states, actions) && i <= j < |states|
    requires id in states[i].db.cells && states[i].db.cells[id].task.payload.durable &&
               states[i].db.cells[id].task.state == Leased
    requires id in states[j].db.cells && states[j].db.cells[id].task.state == Leased
    requires states[j].db.cells[id].task.owner != states[i].db.cells[id].task.owner
    ensures exists k :: i <= k < j && HandsOver(states[k], actions[k], id, states[i].db.cells[id].task.owner)
                        && id in states[k + 1].db.cells &&
                            states[k + 1].db.cells[id].task.owner != states[i].db.cells[id].task.owner
    decreases j - i
  {
    hide Next, EventTx, RowShape, LeaseRow, Budget;
    var s, a := states[i], actions[i];
    var c := s.db.cells[id];
    ReachableSound(states, actions, i);
    ReachableSound(states, actions, i + 1);
    RunAdvances(states, actions, i, i + 1, id);
    RunAdvances(states, actions, i + 1, j, id);
    if states[i + 1].db.cells[id].task.owner != c.task.owner {
      ReachableReports(states, actions, i);
      OwnerChangeIsHandover(s, a, states[i + 1], id);
    } else {
      DurableQuarantine(states, actions, i + 1, j, id);
    }
  }

  // ----- capacity -----

  ghost predicate WithinCapacity(db: Db, limits: Limits) {
    && (limits.total > 0 ==> |LeasedIds(db)| <= limits.total)
    && (forall repo :: repo in limits.repos && limits.repos[repo] > 0 ==>
        |LeasedInRepo(db, repo)| <= limits.repos[repo])
    && (forall w :: w in db.workers ==> |LeasedBy(db, w)| <= db.workers[w].maxParallel)
  }

  /** Limits and worker settings stay as they are. */
  predicate FixedSettings(a: Action, limits: Limits) {
    !a.Register? && (a.Claim? ==> a.limits == limits)
  }

  lemma {:induction false} SubsetSize<T>(a: set<T>, b: set<T>)
    requires a <= b
    ensures |a| <= |b|
  {
    if a != {} {
      var x :| x in a;
      SubsetSize(a - {x}, b - {x});
    }
  }

  lemma GrowthByOne<T>(a: set<T>, b: set<T>, x: T)
    requires a <= b + {x}
    ensures |a| <= |b| + 1
  {
    SubsetSize(a, b + {x});
    if x in b {
      assert b + {x} == b;
    }
  }

  /** Nothing but a grant makes a task leased, or makes it count against another worker. */
  lemma LeasedOnlyByGrant(c: Cell, e: CellEvent)
    requires Core(c) && EventTx(c, e).Ok? && EventTx(c, e).value.task.state == Leased && !e.Grants?
    ensures c.task.state == Leased
    ensures EventTx(c, e).value.task.owner == "" || EventTx(c, e).value.task.owner == c.task.owner
  {
    hide PatchEpoch, PatchOpen, FailIntents, DropEpoch, AcceptIntents, RowShape, LeaseRow;
  }

  /** A step leases at most one more task: the one a claim grants. */
  lemma LeasedAfter(s: System, a: Action, s': System, id: TaskId)
    requires Sound(s) && Next(s, a, s') && id in s'.db.cells && s'.db.cells[id].task.state == Leased
    ensures || (id in s.db.cells && s.db.cells[id].task.state == Leased &&
              s.db.cells[id].task.repo == s'.db.cells[id].task.repo
                && (s'.db.cells[id].task.owner == "" || s'.db.cells[id].task.owner == s.db.cells[id].task.owner))
            || (a.Claim? && a.decision == Grant(id) && id in s.db.cells &&
                s.db.cells[id].task.repo == s'.db.cells[id].task.repo
                && s'.db.cells[id].task.owner == a.worker)
  {
    hide Next, EventTx, Core;
    if id in s.db.cells {
      StepOnTask(s, a, s', id);
      var e := EventOf(s, a, id);
      if e.Some? && EventTx(s.db.cells[id], e.value).Ok? {
        EventAdvances(s.db.cells[id], e.value);
        if e.value.Grants? {
          GrantSetsOwner(s.db.cells[id], e.value);
        } else {
          LeasedOnlyByGrant(s.db.cells[id], e.value);
        }
      }
    } else {
      NewTasksAreFresh(s, a, s', id);
    }
  }

  lemma StepKeepsCapacity(s: System, a: Action, s': System, limits: Limits)
    requires Sound(s) && WithinCapacity(s.db, limits) && Next(s, a, s') && FixedSettings(a, limits)
    ensures WithinCapacity(s'.db, limits)
  {
    hide Core;
    var granted := a.Claim? && a.decision.Grant?;
    forall id | id in s'.db.cells && s'.db.cells[id].task.state == Leased
      ensures id in LeasedIds(s.db) || (granted && id == a.decision.id)
      ensures id in LeasedInRepo(s.db, s'.db.cells[id].task.repo) || (granted && id == a.decision.id)
      ensures s'.db.cells[id].task.owner == "" || id in LeasedBy(s.db, s'.db.cells[id].task.owner)
              || (granted && id == a.decision.id && s'.db.cells[id].task.owner == a.worker)
    {
      LeasedAfter(s, a, s', id);
    }
    WorkersFixed(s, a, s');
    if granted {
      GrantHasRoom(s, a, s', limits);
    } else {
      SubsetSize(LeasedIds(s'.db), LeasedIds(s.db));
      forall repo { SubsetSize(LeasedInRepo(s'.db, repo), LeasedInRepo(s.db, repo)); }
      forall w | w in s'.db.workers
        ensures |LeasedBy(s'.db, w)| <= |LeasedBy(s.db, w)|
      {
        SubsetSize(LeasedBy(s'.db, w), LeasedBy(s.db, w));
      }
    }
  }

  lemma WorkersFixed(s: System, a: Action, s': System)
    requires Next(s, a, s') && !a.Register?
    ensures s'.db.workers == s.db.workers
  {
    hide EventOf, EventTx, Decides, SnapshotOf, CommitLocks;
  }

  /** What the checks of a claim establish before it grants. */
  lemma ClaimChecked(s: System, a: Action, s': System)
    requires Next(s, a, s') && a.Claim? && a.decision.Grant?
    ensures a.decision.id in s.db.cells && a.worker in s.db.workers
    ensures a.limits.total > 0 ==> |LeasedIds(s.db)| < a.limits.total
    ensures !RepoFull(s.db, a.limits, s.db.cells[a.decision.id].task.repo)
    ensures |LeasedBy(s.db, a.worker)| < s.db.workers[a.worker].maxParallel
  {
    hide GrantTx, Eligible, AcceptanceAllowed, ResolvePolicy;
    assert Refusal(s.db, a.worker, if a.claimId.Some? then a.claimId.value else "", a.limits).None?;
    assert Candidate(s.db, a.limits, s.db.workers[a.worker], a.decision.id);
  }

  /** The checks of a claim leave room for one more lease in every dimension that the grant uses. */
  lemma GrantHasRoom(s: System, a: Action, s': System, limits: Limits)
    requires Sound(s) && WithinCapacity(s.db, limits) && Next(s, a, s') && a.Claim? && a.limits == limits &&
               a.decision.Grant?
    ensures WithinCapacity(s'.db, limits)
  {
    hide Core, Next;
    var id := a.decision.id;
    ClaimChecked(s, a, s');
    forall t | t in s'.db.cells && s'.db.cells[t].task.state == Leased && t != id
      ensures t in LeasedIds(s.db) && t in LeasedInRepo(s.db, s'.db.cells[t].task.repo)
      ensures s'.db.cells[t].task.owner == "" || t in LeasedBy(s.db, s'.db.cells[t].task.owner)
    {
      LeasedAfter(s, a, s', t);
    }
    if id in s'.db.cells && s'.db.cells[id].task.state == Leased {
      LeasedAfter(s, a, s', id);
    }
    WorkersFixed(s, a, s');
    GrowthByOne(LeasedIds(s'.db), LeasedIds(s.db), id);
    var repo := s.db.cells[id].task.repo;
    forall r
      ensures |LeasedInRepo(s'.db, r)| <= |LeasedInRepo(s.db, r)| + if r == repo then 1 else 0
    {
      if r == repo {
        GrowthByOne(LeasedInRepo(s'.db, r), LeasedInRepo(s.db, r), id);
      } else {
        SubsetSize(LeasedInRepo(s'.db, r), LeasedInRepo(s.db, r));
      }
    }
    forall w | w in s'.db.workers
      ensures |LeasedBy(s'.db, w)| <= |LeasedBy(s.db, w)| + if w == a.worker then 1 else 0
    {
      if w == a.worker {
        GrowthByOne(LeasedBy(s'.db, w), LeasedBy(s.db, w), id);
      } else {
        SubsetSize(LeasedBy(s'.db, w), LeasedBy(s.db, w));
      }
    }
  }

  /**
   With fixed limits and workers, no reachable state has more leases than the platform, a
   repository or a worker allows.
   */
  lemma {:induction false} CapacityRespected(states: seq<System>, actions: seq<Action>, limits: Limits, i: nat)
    requires IsRun(states, actions) && i < |states|
    requires forall j :: 0 <= j < i ==> FixedSettings(actions[j], limits)
    ensures WithinCapacity(states[i].db, limits)
  {
    if i == 0 {
      assert LeasedIds(states[0].db) == {};
      assert forall repo :: LeasedInRepo(states[0].db, repo) == {};
      assert forall w :: LeasedBy(states[0].db, w) == {};
    } else {
      CapacityRespected(states, actions, limits, i - 1);
      ReachableSound(states, actions, i - 1);
      StepKeepsCapacity(states[i - 1], actions[i - 1], states[i], limits);
    }
  }
}
