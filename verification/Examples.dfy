/** Concrete runs that show the exceptional branches of the exact conditions to occur. */
module Examples {
  import opened Basics
  import opened TaskModel
  import opened Transactions
  import opened Queue
  import opened Invariants
  import opened Protocol
  import opened Safety
  import opened Application

  ghost predicate Reachable(s: System) {
    exists states, actions :: IsRun(states, actions) && states[|actions|] == s
  }

  lemma ReachableNext(s: System, a: Action, s': System)
    requires Reachable(s) && Next(s, a, s')
    ensures Reachable(s')
  {
    hide Next, Initial;
    var states, actions :| IsRun(states, actions) && states[|actions|] == s;
    var longer, more := states + [s'], actions + [a];
    forall i | 0 <= i < |more| ensures Next(longer[i], more[i], longer[i + 1]) {
      if i < |actions| {
        assert Next(states[i], actions[i], states[i + 1]);
      }
    }
    assert longer[0] == states[0];
    assert IsRun(longer, more) && longer[|more|] == s';
  }

  // ----- one durable worker claims the only task -----

  const WORKER := "w"
  const TASK := "t"
  const OTHER := "uu"
  const ROW := AttemptKey(TASK, 1)
  const EXAMPLE_WORKER := Worker(WORKER, true, false, [], true, 1, [])
  const PLAIN := Payload(false, Some(60), "", Unset, "", None, false, "")
  const NO_EVENT := EventKey("", "")
  const ISSUE := Submission(Implement, "r", 1, 0, "o", PLAIN, NoSnapshot, [], 0, 0, NO_EVENT)
  const NO_LIMITS := Limits(0, map[])

  const QUEUED := Cell(NewTask(TASK, ISSUE, 0), map[], map[])
  const HELD :=
    Cell(QUEUED.task.(payload := PLAIN.(durable := true), state := Leased, owner := WORKER, lease := Some(660),
        token := 1),
         map[ROW := RunningAttempt(WORKER, 1, 0)], map[])

  function Holding(c: Cell): System {
    System(Db(map[TASK := c], map[WORKER := EXAMPLE_WORKER], map[]), map[], [], {})
  }

  const EMPTY := System(Db(map[], map[WORKER := EXAMPLE_WORKER], map[]), map[], [], {})

  lemma QueuedReachable()
    ensures Reachable(Holding(QUEUED)) && QUEUED.task.id == TASK
  {
    assert IsRun([EMPTY], []);
    assert Reachable(EMPTY);
    hide Reachable;
    EnqueueStep();
    ReachableNext(EMPTY, TWICE_ACTIONS[0], Holding(QUEUED));
  }

  lemma QueuedIsFirst()
    ensures Decides(Holding(QUEUED).db, WORKER, "", NO_LIMITS, Grant(TASK))
  {
    var db := Holding(QUEUED).db;
    assert LeasedBy(db, WORKER) == {};
    assert Candidate(db, NO_LIMITS, EXAMPLE_WORKER, TASK);
  }

  lemma HeldReachable()
    ensures Reachable(Holding(HELD))
  {
    QueuedReachable();
    ClaimStep();
    hide Next, Reachable;
    ReachableNext(Holding(QUEUED), TWICE_ACTIONS[1], Holding(HELD));
  }

  lemma ReachableCore(s: System)
    requires Reachable(s)
    ensures Sound(s)
  {
    hide Sound, Next, Initial;
    var states, actions :| IsRun(states, actions) && states[|actions|] == s;
    ReachableSound(states, actions, |actions|);
  }

  // ----- an implementation that no duplicate search finds -----

  const PULL := ISSUE.(pr := 5)

  /**
   With the issue's implementation queued, a request for the same issue and a pull request
   finds no duplicate and cannot be inserted.
   */
  lemma InsertCanBeRejected()
    ensures Reachable(Holding(QUEUED)) && ValidSubmission(PULL)
    ensures var db := Holding(QUEUED).db;
            && (forall d :: d in db.cells ==> !Duplicates(PULL, db.cells[d].task))
            && IndexConflict(db, NewTask(OTHER, PULL, 0))
            && EnqueueTx(db, PULL, OTHER, 0, Enqueued(db, Err(NotFound), false))
  {
    QueuedReachable();
    hide Reachable;
    var db := Holding(QUEUED).db;
    assert TASK != OTHER by {
      assert |TASK| != |OTHER|;
    }
    assert Clash(NewTask(OTHER, PULL, 0), db.cells[TASK].task);
  }

  // ----- a report closed over an unapplied intent -----

  const COMMENT := EffectRequest(IssueComment, "r", 1, "c", "", [], "", "", "")
  const COMMENTED := Report(true, "done", "", "", [COMMENT], "", "", "", "")

  function Filed(c: Cell, report: Report, intents: map<IntentKey, Intent>): Cell {
    Cell(c.task.(result := Some(report), lease := None),
         PatchEpoch(c.attempts, 1,
           RowPatch(Some(report.status), Some(if InfraFailure(report) then Infra else Product), Some(0),
               Some(report.infraKind), None)),
         intents)
  }

  function OneIntent(t: Task, e: EffectRequest): map<IntentKey, Intent> {
    map[EffectKey(t, 0, e) := NewIntent(t, 0, e)]
  }

  function Reporting(c: Cell): System {
    Holding(c).(reports := {Accepted(TASK, 1, WORKER)})
  }

  lemma FiledReachable(report: Report, intents: map<IntentKey, Intent>)
    requires AcceptIntents(HELD.task, report, map[]) == Ok(intents)
    ensures AcceptTx(HELD, WORKER, 1, report, NoDigest, 0) == Ok(Filed(HELD, report, intents))
    ensures Reachable(Reporting(Filed(HELD, report, intents)))
  {
    HeldReachable();
    hide Reachable, AcceptIntents;
    ReachableNext(Holding(HELD), OnTask(TASK, AcceptResult(WORKER, 1, report, NoDigest, 0)),
        Reporting(Filed(HELD, report, intents)));
  }

  lemma OneEffect(report: Report, e: EffectRequest)
    requires report.shaped && report.effects == [e] && ValidEffect(HELD.task, report, "", e)
    ensures AcceptIntents(HELD.task, report, map[]) == Ok(OneIntent(HELD.task, e))
  {
    hide ValidEffect, AcceptFrom;
    var t, prHead := HELD.task, if e.kind == PrCreate then e.head else "";
    var next := map[][NewIntent(t, 0, e).key := NewIntent(t, 0, e)];
    assert AcceptOne(t, 0, e, map[]) == Ok(next);
    AcceptEnds(t, report, prHead, next);
    AcceptNext(t, report, e, prHead, next);
    assert next == OneIntent(t, e);
  }

  lemma AcceptEnds(t: Task, report: Report, prHead: string, intents: map<IntentKey, Intent>)
    requires |report.effects| == 1
    ensures AcceptFrom(t, report, 1, prHead, intents) == Ok(intents)
  {
  }

  lemma AcceptNext(t: Task, report: Report, e: EffectRequest, prHead: string, next: map<IntentKey, Intent>)
    requires report.effects == [e] && ValidEffect(t, report, "", e) && AcceptOne(t, 0, e, map[]) == Ok(next)
    requires prHead == if e.kind == PrCreate then e.head else ""
    ensures AcceptFrom(t, report, 0, "", map[]) == AcceptFrom(t, report, 1, prHead, next)
  {
    hide ValidEffect, AcceptOne;
  }

  /** The claimed task and, once a report is filed, the gate. */
  lemma FiledGate(report: Report, intents: map<IntentKey, Intent>)
    requires AcceptIntents(HELD.task, report, map[]) == Ok(intents)
    ensures var c := Filed(HELD, report, intents); Reachable(Reporting(c)) && Core(c) && Gate(c)
  {
    HeldReachable();
    ReachableCore(Holding(HELD));
    assert Holding(HELD).db.cells[TASK] == HELD;
    assert Core(HELD);
    hide Reachable, AcceptIntents, Core;
    assert Gate(HELD);
    hide Gate;
    FiledReachable(report, intents);
    AcceptKeepsCore(HELD, WORKER, 1, report, NoDigest, 0);
    AcceptKeepsGate(HELD, WORKER, 1, report, NoDigest, 0);
  }

  /**
   In a reachable state that meets the gate, FinishResult closes a task over an intent that was
   never applied, and breaks it.
   */
  lemma FinishCanBreakGate()
    ensures var c := Filed(HELD, COMMENTED, OneIntent(HELD.task, COMMENT));
            && Reachable(Reporting(c)) && Gate(c)
            && FinishResultTx(c, WORKER, 1, false).Ok? && !Gate(FinishResultTx(c, WORKER, 1, false).value)
  {
    hide Reachable, Gate, Core, AcceptIntents;
    var c := Filed(HELD, COMMENTED, OneIntent(HELD.task, COMMENT));
    OneEffect(COMMENTED, COMMENT);
    FiledGate(COMMENTED, c.intents);
    var k := EffectKey(HELD.task, 0, COMMENT);
    assert k in c.intents && c.intents[k].status != IntentApplied;
    FinishResultGate(c, WORKER, 1, false);
  }

  // ----- a pull request that another task holds -----

  const PULL_REQUEST := EffectRequest(PrCreate, "r", 0, "", "", [], "h", "b", "x")
  const DELIVERED := Report(true, "done", "", "", [PULL_REQUEST], "s", "", "", "")
  const ADOPTED_PULL := Submission(Implement, "r", 0, 7, "o", PLAIN, NoSnapshot, [], 0, 0, NO_EVENT)
  const HOLDER := Cell(NewTask(OTHER, ADOPTED_PULL, 0), map[], map[])

  function TakenPull(i: Intent): Outcome {
    RemoteApplied("", 7, false)
  }

  function Contested(c: Cell): System {
    var s := Reporting(c);
    s.(db := s.db.(cells := s.db.cells[OTHER := HOLDER]))
  }

  lemma ContestedReachable(c: Cell)
    requires Reachable(Reporting(c)) && c.task == Filed(HELD, DELIVERED, c.intents).task
    ensures Reachable(Contested(c))
  {
    hide Reachable;
    assert |TASK| != |OTHER|;
    var db := Reporting(c).db;
    assert !Duplicates(ADOPTED_PULL, c.task) && !Clash(HOLDER.task, c.task);
    assert EnqueueTx(db, ADOPTED_PULL, OTHER, 0, Enqueued(Contested(c).db, Ok(OTHER), true));
    hide EnqueueTx;
    ReachableNext(Reporting(c), Enqueue(ADOPTED_PULL, OTHER, 0, Enqueued(Contested(c).db, Ok(OTHER), true)),
        Contested(c));
  }

  /**
   The forge answers that the pull request exists and has a number that another active task
   holds. The answer cannot be recorded: the application changes nothing, however often it is
   repeated, and the report cannot be finalized.
   */
  lemma AppliedCanBeUnrecordable()
    ensures var c := Filed(HELD, DELIVERED, OneIntent(HELD.task, PULL_REQUEST));
            var db, queue := Contested(c).db, [NewIntent(HELD.task, 0, PULL_REQUEST)];
            && Reachable(Contested(c)) && SnapshotAllowed(c, 1) && SnapshotOf(c, queue) && AllSucceed(queue, TakenPull)
            && Drain(db, TASK, 1, queue, TakenPull) == (db, Some(Conflict))
            && FinalizeGate(db.cells[TASK], 1) == Err(Invalid)
  {
    hide Reachable, Core, AcceptIntents, Gate;
    var c := Filed(HELD, DELIVERED, OneIntent(HELD.task, PULL_REQUEST));
    var db, queue := Contested(c).db, [NewIntent(HELD.task, 0, PULL_REQUEST)];
    OneEffect(DELIVERED, PULL_REQUEST);
    FiledGate(DELIVERED, c.intents);
    ContestedReachable(c);
    assert |TASK| != |OTHER|;
    assert db.cells[TASK] == c && db.cells[OTHER] == HOLDER;
    hide Contested;
    SnapshotTaken(c, queue);
    SnapshotWaits(c, 1, queue);
    PullConflicts(db, c);
    CommitRefusedExactly(db, TASK, 1, queue, TakenPull(queue[0]));
    DrainEnds(db, TASK, 1, queue, TakenPull);
  }

  lemma SnapshotTaken(c: Cell, queue: seq<Intent>)
    requires c == Filed(HELD, DELIVERED, OneIntent(HELD.task, PULL_REQUEST)) &&
               queue == [NewIntent(HELD.task, 0, PULL_REQUEST)]
    ensures SnapshotAllowed(c, 1) && SnapshotOf(c, queue) && FinalizeGate(c, 1) == Err(Invalid)
  {
    var i := queue[0];
    assert i.key in c.intents && c.intents[i.key] == i && i.epoch == 1 && i.status == IntentPending;
    hide NewIntent;
  }

  lemma PullConflicts(db: Db, c: Cell)
    requires TASK in db.cells && OTHER in db.cells && db.cells[TASK] == c && db.cells[OTHER] == HOLDER
    requires c == Filed(HELD, DELIVERED, OneIntent(HELD.task, PULL_REQUEST))
    ensures Conflicts(db, TASK, RemoteApplied("", 7, false))
  {
    assert |TASK| != |OTHER|;
    assert Clash(c.task.(pr := 7), HOLDER.task);
  }

  // ----- a durable task that reports twice under one token -----

  const INTERRUPTED := Report(true, "failed", "execution-interrupted", "", [], "", "", "", "")
  const STOPPED := Filed(HELD, INTERRUPTED, map[])
  const RETAINED := STOPPED.(task := STOPPED.task.(lease := Some(5)))
  const AGAIN := Filed(RETAINED, INTERRUPTED, map[])
  const REPORT := OnTask(TASK, AcceptResult(WORKER, 1, INTERRUPTED, NoDigest, 0))

  const TWICE := [
    EMPTY, Holding(QUEUED), Holding(HELD), Reporting(STOPPED),
    Reporting(STOPPED).(locks := map[TASK := Finalizing(1, true)]), Reporting(RETAINED), Reporting(AGAIN)]
  const TWICE_ACTIONS := [
    Enqueue(ISSUE, TASK, 0, Enqueued(Holding(QUEUED).db, Ok(TASK), true)),
    Claim(WORKER, None, NO_LIMITS, 0, Grant(TASK)),
    REPORT, StartFinalize(TASK, 1, true), EndFinalize(TASK, true, 5), REPORT]

  lemma ReportStep(c: Cell, s: System)
    requires s.db.cells == map[TASK := c] && s.db == Holding(c).db && s.locks == map[] && s.remote == []
    requires s.reports == {} || s.reports == {Accepted(TASK, 1, WORKER)}
    requires HoldsLease(c.task, WORKER, 1) && c.task.payload.durable && c.intents == map[]
    ensures Next(s, REPORT, Reporting(Filed(c, INTERRUPTED, map[]))) && Reported(s, REPORT, TASK, 1)
  {
    assert AcceptIntents(c.task, INTERRUPTED, map[]) == Ok(map[]);
    hide AcceptIntents, PatchEpoch;
    assert AcceptTx(c, WORKER, 1, INTERRUPTED, NoDigest, 0) == Ok(Filed(c, INTERRUPTED, map[]));
  }

  lemma RetainedFinalization()
    ensures FinalizeGate(STOPPED, 1).Ok? && Retained(STOPPED, 1, true) &&
              FinalizeTx(STOPPED, 1, true, 5) == Ok(RETAINED)
  {
  }

  lemma FinalizeStarts()
    ensures Next(TWICE[3], TWICE_ACTIONS[3], TWICE[4])
  {
    RetainedFinalization();
    hide FinalizeGate, Retained, FinalizeTx, Filed;
  }

  lemma FinalizeEnds()
    ensures Next(TWICE[4], TWICE_ACTIONS[4], TWICE[5]) && RetainedAt(TWICE[4], TWICE_ACTIONS[4], TASK, 1)
  {
    RetainedFinalization();
    hide FinalizeGate, Retained, FinalizeTx, Filed;
    assert Unlock(TWICE[4], TASK) == map[];
  }

  lemma EnqueueStep()
    ensures Next(EMPTY, TWICE_ACTIONS[0], Holding(QUEUED))
  {
  }

  lemma ClaimStep()
    ensures Next(Holding(QUEUED), TWICE_ACTIONS[1], Holding(HELD))
  {
    QueuedIsFirst();
    hide Decides;
    assert GrantTx(QUEUED, EXAMPLE_WORKER, "", 0) == Ok(HELD);
  }

  /**
   A run in which a durable task's worker reports an interruption, has it retained, and reports
   again under the same token.
   */
  lemma DurableReportsTwice()
    ensures IsRun(TWICE, TWICE_ACTIONS)
    ensures Reported(TWICE[2], TWICE_ACTIONS[2], TASK, 1) && Reported(TWICE[5], TWICE_ACTIONS[5], TASK, 1)
  {
    hide Next, Reported, RetainedAt;
    EnqueueStep();
    ClaimStep();
    ReportStep(HELD, TWICE[2]);
    FinalizeStarts();
    FinalizeEnds();
    ReportStep(RETAINED, TWICE[5]);
    assert Initial(TWICE[0]);
  }
}
