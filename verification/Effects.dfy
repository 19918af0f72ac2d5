/**
 Remote effects over every run: written at most once, applied only when really written,
 and attempted in report order, whatever crashes, retries and cancellations intervene.
 */
module Effects {
  import opened Basics
  import opened TaskModel
  import opened Transactions
  import opened Queue
  import opened Invariants
  import opened Protocol
  import opened Safety

  // ----- keys and markers never change -----

  predicate Keyed(c: Cell) {
    forall k :: k in c.intents ==> c.intents[k].key == k && IntentShape(c.task, c.intents[k])
  }

  predicate KeyedMap(t: Task, intents: map<IntentKey, Intent>) {
    forall k :: k in intents ==> intents[k].key == k && IntentShape(t, intents[k])
  }

  /** Intents are never deleted and keep their markers; nothing becomes applied except by a committed success. */
  predicate MarkersKept(c: map<IntentKey, Intent>, d: map<IntentKey, Intent>) {
    && (forall k :: k in c ==> k in d && MarkerOf(d[k]) == MarkerOf(c[k]))
    && (forall k :: k in d && d[k].status == IntentApplied ==> k in c && c[k].status == IntentApplied)
  }

  lemma {:induction false} AcceptFromKeepsMarkers(t: Task, report: Report, index: nat, prHead: string,
      intents: map<IntentKey, Intent>)
    requires t.token >= 1 && KeyedMap(t, intents) && index <= |report.effects|
    ensures var r := AcceptFrom(t, report, index, prHead, intents);
            r.Ok? ==> KeyedMap(t, r.value) && MarkersKept(intents, r.value)
    decreases |report.effects| - index
  {
    if index < |report.effects| && ValidEffect(t, report, prHead, report.effects[index]) {
      var e := report.effects[index];
      var r := AcceptOne(t, index, e, intents);
      if r.Ok? {
        assert KeyedMap(t, r.value) && MarkersKept(intents, r.value);
        AcceptFromKeepsMarkers(t, report, index + 1, if e.kind == PrCreate then e.head else prHead, r.value);
      }
    }
  }

  /** Every other transaction leaves the intents alone or fails the open ones. */
  lemma OtherTxIntents(c: Cell, op: CellOp)
    requires CellTx(c, op).Ok? && !op.AcceptResult?
    ensures CellTx(c, op).value.intents == c.intents || CellTx(c, op).value.intents == FailIntents(c.intents)
  {
    hide PatchEpoch, PatchOpen, DropEpoch, FailIntents, AcceptIntents;
  }

  predicate SettlesOnly(c: Cell, d: Cell) {
    d.intents == c.intents || d.intents == FailIntents(c.intents)
  }

  lemma SettlingKeepsMarkers(c: Cell, d: Cell)
    requires Keyed(c) && Advances(c, d) && SettlesOnly(c, d)
    ensures Keyed(d) && MarkersKept(c.intents, d.intents)
  {
  }

  lemma CommitKeepsMarkers(c: Cell, epoch: int, key: IntentKey, outcome: Outcome)
    requires Keyed(c) && CommitTx(c, epoch, key, outcome).Ok?
    ensures var d := CommitTx(c, epoch, key, outcome).value;
            && Keyed(d)
            && (forall k :: k in c.intents ==> k in d.intents && MarkerOf(d.intents[k]) == MarkerOf(c.intents[k]))
            && (forall k :: k in d.intents && d.intents[k].status == IntentApplied ==>
                  (k in c.intents && c.intents[k].status == IntentApplied) || (k == key && outcome.RemoteApplied?))
  {
    hide CommitTx, FailIntents, IntentShape, MarkerOf, PatchEpoch, Settling;
    var d := CommitTx(c, epoch, key, outcome).value;
    var one := CommittedIntents(c, epoch, key, outcome);
    FailingKeepsApplied(one);
    forall k | k in c.intents
      ensures k in d.intents && d.intents[k].key == k
      ensures IntentShape(d.task, d.intents[k]) && MarkerOf(d.intents[k]) == MarkerOf(c.intents[k])
    {
      SettledShape(c.task, d.task, c.intents[k], d.intents[k]);
    }
  }

  lemma SettledShape(t: Task, u: Task, i: Intent, j: Intent)
    requires IntentShape(t, i) && t.id == u.id && t.repo == u.repo && t.token == u.token
    requires j == i.(status := j.status, reference := j.reference)
    ensures IntentShape(u, j) && MarkerOf(j) == MarkerOf(i)
  {
  }

  lemma CommittedIntents(c: Cell, epoch: int, key: IntentKey, outcome: Outcome) returns (one: map<IntentKey, Intent>)
    requires CommitTx(c, epoch, key, outcome).Ok?
    ensures var d := CommitTx(c, epoch, key, outcome).value;
            && key in c.intents && (d.intents == one || d.intents == FailIntents(one))
            && d.task.id == c.task.id && d.task.repo == c.task.repo && d.task.token == c.task.token
    ensures one == c.intents[key := c.intents[key].(
                     reference := outcome.reference,
                     status := if outcome.RemoteApplied? then IntentApplied else IntentUncertain)]
  {
    hide PatchEpoch, FailIntents;
    one := c.intents[key := c.intents[key].(
             reference := outcome.reference,
             status := if outcome.RemoteApplied? then IntentApplied else IntentUncertain)];
  }

  lemma FailingKeepsApplied(intents: map<IntentKey, Intent>)
    ensures FailIntents(intents).Keys == intents.Keys
    ensures forall k :: k in intents ==>
              FailIntents(intents)[k] == intents[k] || FailIntents(intents)[k] == intents[k].(status := IntentFailed)
  {
  }

  lemma EventKeepsMarkers(c: Cell, e: CellEvent)
    requires Core(c) && Keyed(c) && EventTx(c, e).Ok?
    ensures var d := EventTx(c, e).value;
            && Keyed(d)
            && (forall k :: k in c.intents ==> k in d.intents && MarkerOf(d.intents[k]) == MarkerOf(c.intents[k]))
            && (forall k :: k in d.intents && d.intents[k].status == IntentApplied ==>
                  (k in c.intents && c.intents[k].status == IntentApplied) ||
                      (e.Commits? && e.key == k && e.outcome.RemoteApplied?))
  {
    hide CellTx, CommitTx, FailIntents, PatchEpoch, Core;
    EventAdvances(c, e);
    var d := EventTx(c, e).value;
    if e.Commits? {
      CommitKeepsMarkers(c, e.epoch, e.key, e.outcome);
    } else if e.Tx? && e.op.AcceptResult? {
      AcceptKeepsMarkers(c, e.op);
    } else {
      if e.Tx? {
        OtherTxIntents(c, e.op);
      }
      SettlingKeepsMarkers(c, d);
    }
  }

  lemma AcceptKeepsMarkers(c: Cell, op: CellOp)
    requires Core(c) && Keyed(c) && op.AcceptResult? && CellTx(c, op).Ok?
    ensures Keyed(CellTx(c, op).value) && MarkersKept(c.intents, CellTx(c, op).value.intents)
  {
    hide PatchEpoch;
    AcceptFromKeepsMarkers(c.task, op.report, 0, "", c.intents);
  }

  // ----- at most once -----

  /** No intents of two tasks are recognised by the same marker on the forge. */
  ghost predicate DistinctMarkers(db: Db) {
    forall t, u, k, l :: (t in db.cells && u in db.cells && k in db.cells[t].intents && l in db.cells[u].intents
                          && MarkerOf(db.cells[t].intents[k]) == MarkerOf(db.cells[u].intents[l])) ==> t == u
  }

  predicate NoDuplicates<T(==)>(s: seq<T>) {
    forall i, j :: 0 <= i < j < |s| ==> s[i] != s[j]
  }

  /** Queued intents are rows of their own task. */
  predicate QueueMatches(s: System, id: TaskId)
    requires MidCall(s, id)
  {
    && id in s.db.cells
    && forall q :: q in s.locks[id].queue ==>
         q.key in s.db.cells[id].intents && MarkerOf(q) == MarkerOf(s.db.cells[id].intents[q.key])
  }

  ghost predicate RemoteHistory(s: System) {
    && AllKeyed(s)
    && (forall id :: MidCall(s, id) ==> QueueMatches(s, id))
    // A write that was found absent is still absent, and a success means the write is there.
    && (forall id :: MidCall(s, id) && s.locks[id].call.Absent? ==> MarkerOf(Head(s, id)) !in s.remote)
    && (forall id :: MidCall(s, id) && s.locks[id].call.Answered? && s.locks[id].call.outcome.RemoteApplied? ==>
          MarkerOf(Head(s, id)) in s.remote)
    && (forall id, k :: (id in s.db.cells && k in s.db.cells[id].intents
                         && s.db.cells[id].intents[k].status == IntentApplied) ==>
          MarkerOf(s.db.cells[id].intents[k]) in s.remote)
    && NoDuplicates(s.remote)
  }

  ghost predicate AllKeyed(s: System) {
    forall id :: id in s.db.cells ==> Keyed(s.db.cells[id])
  }

  /** What one step does to the intents of a task that already exists. */
  lemma StepOnIntents(s: System, a: Action, s': System, id: TaskId)
    requires Sound(s) && AllKeyed(s) && Next(s, a, s') && id in s.db.cells
    ensures id in s'.db.cells && Keyed(s'.db.cells[id])
    ensures var c, d := s.db.cells[id].intents, s'.db.cells[id].intents;
            && (forall k :: k in c ==> k in d && MarkerOf(d[k]) == MarkerOf(c[k]))
            && (forall k :: k in d && d[k].status == IntentApplied ==>
                  || (k in c && c[k].status == IntentApplied)
                  || (MidCall(s, id) && k == Head(s, id).key && s.locks[id].call.Answered? &&
                      s.locks[id].call.outcome.RemoteApplied?))
  {
    StepOnTask(s, a, s', id);
    var e := EventOf(s, a, id);
    if e.Some? && EventTx(s.db.cells[id], e.value).Ok? {
      EventKeepsMarkers(s.db.cells[id], e.value);
    }
  }

  lemma StepKeepsKeyed(s: System, a: Action, s': System)
    requires Sound(s) && AllKeyed(s) && Next(s, a, s')
    ensures AllKeyed(s')
  {
    forall id | id in s'.db.cells
      ensures Keyed(s'.db.cells[id])
    {
      if id in s.db.cells {
        StepOnIntents(s, a, s', id);
      } else {
        NewTasksAreFresh(s, a, s', id);
      }
    }
  }

  lemma MarkersStayDistinct(s: System, a: Action, s': System)
    requires Sound(s) && AllKeyed(s) && Next(s, a, s') && DistinctMarkers(s'.db)
    ensures DistinctMarkers(s.db)
  {
    forall t, u, k, l | t in s.db.cells && u in s.db.cells && k in s.db.cells[t].intents && l in s.db.cells[u].intents
                        && MarkerOf(s.db.cells[t].intents[k]) == MarkerOf(s.db.cells[u].intents[l])
      ensures t == u
    {
      StepOnIntents(s, a, s', t);
      StepOnIntents(s, a, s', u);
      assert k in s'.db.cells[t].intents && l in s'.db.cells[u].intents;
    }
  }

  /** A queue in progress is the one just taken, the same as before, or one intent shorter. */
  lemma QueueOrigin(s: System, a: Action, s': System, id: TaskId)
    requires Next(s, a, s') && MidCall(s', id)
    ensures || (MidCall(s, id) &&
              (s'.locks[id].queue == s.locks[id].queue || s'.locks[id].queue == s.locks[id].queue[1..]))
            || (id in s.db.cells && s'.db == s.db && SnapshotOf(s.db.cells[id], s'.locks[id].queue))
  {
    hide EventOf, Decides, EnqueueTx, SnapshotOf;
  }

  lemma QueueSurvives(s: System, a: Action, s': System, id: TaskId)
    requires Sound(s) && AllKeyed(s) && Next(s, a, s') && MidCall(s', id)
    requires MidCall(s, id) ==> QueueMatches(s, id)
    ensures QueueMatches(s', id)
  {
    hide Next, Keyed, Core;
    QueueOrigin(s, a, s', id);
    if MidCall(s, id) {
      StepOnIntents(s, a, s', id);
    }
  }

  /** The calls in progress stay truthful about the forge, and the forge never sees a write twice. */
  lemma CallsStayTruthful(s: System, a: Action, s': System)
    requires Sound(s) && RemoteHistory(s) && DistinctMarkers(s.db) && Next(s, a, s')
    ensures NoDuplicates(s'.remote) && forall m :: m in s.remote ==> m in s'.remote
    ensures forall id :: MidCall(s', id) && s'.locks[id].call.Absent? ==> MarkerOf(Head(s', id)) !in s'.remote
    ensures forall id :: MidCall(s', id) && s'.locks[id].call.Answered? && s'.locks[id].call.outcome.RemoteApplied? ==>
              MarkerOf(Head(s', id)) in s'.remote
  {
    hide Next, Keyed, Core;
    if a.LookUp? || a.Send? {
      CallAnswered(s, a, s');
      if MidCall(s, a.id) {
        OtherCallsUnaffected(s, a.id);
      }
    } else {
      OtherLocksKept(s, a, s');
    }
  }

  lemma CallAnswered(s: System, a: Action, s': System)
    requires Next(s, a, s') && (a.LookUp? || a.Send?)
    ensures s' == RemoteStep(s, a)
  {
  }

  /** Only a call changes the forge; every other step keeps a call as it is, drops it, or starts a new one. */
  lemma OtherLocksKept(s: System, a: Action, s': System)
    requires Next(s, a, s') && !a.LookUp? && !a.Send?
    ensures s'.remote == s.remote
    ensures forall id :: MidCall(s', id) ==> s'.locks[id].call.Ready? || (MidCall(s, id) && s'.locks[id] == s.locks[id])
  {
    hide EventOf, EventTx, CommitDb, ClaimEffect, Put, SweepCells, Reports, Decides, EnqueueTx, SnapshotOf;
  }

  /** A write for one task is never the write another task is about to make. */
  lemma OtherCallsUnaffected(s: System, id: TaskId)
    requires Sound(s) && RemoteHistory(s) && DistinctMarkers(s.db) && MidCall(s, id)
    ensures forall other :: other != id && MidCall(s, other) ==> MarkerOf(Head(s, other)) != MarkerOf(Head(s, id))
  {
    forall other | other != id && MidCall(s, other)
      ensures MarkerOf(Head(s, other)) != MarkerOf(Head(s, id))
    {
      assert QueueMatches(s, other) && QueueMatches(s, id);
      assert Head(s, other) in s.locks[other].queue && Head(s, id) in s.locks[id].queue;
      var k, l := Head(s, other).key, Head(s, id).key;
      assert k in s.db.cells[other].intents && l in s.db.cells[id].intents;
    }
  }

  lemma StepKeepsRemoteHistory(s: System, a: Action, s': System)
    requires Sound(s) && RemoteHistory(s) && DistinctMarkers(s.db) && Next(s, a, s')
    ensures RemoteHistory(s')
  {
    hide Next, Core, Keyed;
    StepKeepsKeyed(s, a, s');
    CallsStayTruthful(s, a, s');
    forall id, k | id in s'.db.cells && k in s'.db.cells[id].intents &&
        s'.db.cells[id].intents[k].status == IntentApplied
      ensures MarkerOf(s'.db.cells[id].intents[k]) in s'.remote
    {
      if id in s.db.cells {
        StepOnIntents(s, a, s', id);
        if MidCall(s, id) {
          assert QueueMatches(s, id) && Head(s, id) in s.locks[id].queue;
        }
      } else {
        NewTasksAreFresh(s, a, s', id);
      }
    }
    forall id | MidCall(s', id)
      ensures QueueMatches(s', id)
    {
      QueueSurvives(s, a, s', id);
    }
  }

  lemma {:induction false} ReachableKeyed(states: seq<System>, actions: seq<Action>, i: nat)
    requires IsRun(states, actions) && i < |states|
    ensures AllKeyed(states[i])
  {
    if i > 0 {
      ReachableKeyed(states, actions, i - 1);
      ReachableSound(states, actions, i - 1);
      StepKeepsKeyed(states[i - 1], actions[i - 1], states[i]);
    }
  }

  /**
   When markers tell tasks apart, over every run: no effect is written twice, and every
   intent recorded as applied was really written.
   */
  lemma {:induction false} EffectsAtMostOnce(states: seq<System>, actions: seq<Action>, i: nat)
    requires IsRun(states, actions) && i < |states| && DistinctMarkers(states[i].db)
    ensures RemoteHistory(states[i])
    ensures forall m, n :: 0 <= m < n < |states[i].remote| ==> states[i].remote[m] != states[i].remote[n]
    ensures forall id, k :: id in states[i].db.cells && k in states[i].db.cells[id].intents
                            && states[i].db.cells[id].intents[k].status == IntentApplied ==>
              MarkerOf(states[i].db.cells[id].intents[k]) in states[i].remote
  {
    if i > 0 {
      ReachableSound(states, actions, i - 1);
      ReachableKeyed(states, actions, i - 1);
      MarkersStayDistinct(states[i - 1], actions[i - 1], states[i]);
      EffectsAtMostOnce(states, actions, i - 1);
      StepKeepsRemoteHistory(states[i - 1], actions[i - 1], states[i]);
    }
  }

  // ----- in report order -----

  /**
   While a lock is held, the task is either still the one snapshotted, with exactly the queued
   intents open, or closed.
   */
  ghost predicate QueueCurrent(c: Cell, lock: Lock)
    requires lock.Applying? && lock.queue != []
  {
    && (forall i, j :: 0 <= i < j < |lock.queue| ==> lock.queue[i].position < lock.queue[j].position)
    && (forall i :: 0 <= i < |lock.queue| ==>
          lock.queue[i].key in c.intents && c.intents[lock.queue[i].key].position == lock.queue[i].position)
    && (forall k :: k in c.intents && c.intents[k].position < lock.queue[0].position ==>
        c.intents[k].status == IntentApplied)
    && (|| Terminal(c.task)
        || (Applicable(c.task, lock.epoch)
            && forall k :: k in c.intents && Open(c.intents[k]) ==>
                exists i :: 0 <= i < |lock.queue| && lock.queue[i].key == k))
  }

  /** Whatever is about to be sent, every intent of the task that comes before it is applied. */
  ghost predicate InOrder(s: System) {
    forall id :: MidCall(s, id) ==> id in s.db.cells && QueueCurrent(s.db.cells[id], s.locks[id])
  }

  /** Events of others on a task whose report is being applied either change nothing about its intents or close it. */
  lemma EventUnderLock(c: Cell, e: CellEvent, epoch: int)
    requires Core(c) && EventTx(c, e).Ok? && !e.Commits? && !e.Finalizes? && c.intents != map[]
    requires Terminal(c.task) || Applicable(c.task, epoch)
    ensures var d := EventTx(c, e).value;
            && SettlesOnly(c, d)
            && (Terminal(d.task) || (Applicable(d.task, epoch) && d.intents == c.intents))
  {
    hide PatchEpoch, PatchOpen, FailIntents, DropEpoch, AcceptIntents, RowShape;
    if e.Tx? && !e.op.AcceptResult? {
      OtherTxIntents(c, e.op);
    }
  }

  lemma QueueSurvivesEvent(c: Cell, d: Cell, lock: Lock)
    requires lock.Applying? && lock.queue != [] && QueueCurrent(c, lock)
    requires SettlesOnly(c, d) && (Terminal(c.task) ==> Terminal(d.task))
    requires Terminal(d.task) || (Applicable(d.task, lock.epoch) && d.intents == c.intents)
    ensures QueueCurrent(d, lock)
  {
  }

  lemma SnapshotIsCurrent(c: Cell, epoch: int, queue: seq<Intent>)
    requires Core(c) && Gate(c) && SnapshotAllowed(c, epoch) && SnapshotOf(c, queue) && queue != []
    ensures QueueCurrent(c, Applying(epoch, queue, Ready))
  {
    forall i, j | 0 <= i < j < |queue|
      ensures queue[i].position < queue[j].position
    {
      assert queue[i].key != queue[j].key;
    }
  }

  lemma CommittedRows(c: Cell, epoch: int, key: IntentKey, outcome: Outcome)
    requires outcome.RemoteApplied? && !outcome.headMismatch && CommitTx(c, epoch, key, outcome).Ok?
    ensures var d := CommitTx(c, epoch, key, outcome).value;
            && Applicable(c.task, epoch) && Applicable(d.task, epoch) && key in c.intents
            && d.intents == c.intents[key := c.intents[key].(status := IntentApplied, reference := outcome.reference)]
  {
  }

  lemma CommitAdvancesQueue(c: Cell, lock: Lock, outcome: Outcome)
    requires Gate(c) && lock.Applying? && |lock.queue| > 1 && QueueCurrent(c, lock)
    requires outcome.RemoteApplied? && !outcome.headMismatch && CommitTx(c, lock.epoch, lock.queue[0].key, outcome).Ok?
    ensures QueueCurrent(CommitTx(c, lock.epoch, lock.queue[0].key, outcome).value,
              Applying(lock.epoch, lock.queue[1..], Ready))
  {
    hide CommitTx, IntentShape;
    var first := lock.queue[0].key;
    CommittedRows(c, lock.epoch, first, outcome);
    var d := CommitTx(c, lock.epoch, first, outcome).value;
    var rest := lock.queue[1..];
    forall k | k in d.intents && Open(d.intents[k])
      ensures exists i :: 0 <= i < |rest| && rest[i].key == k
      ensures rest[0].position <= d.intents[k].position
    {
      var i :| 0 <= i < |lock.queue| && lock.queue[i].key == k;
      assert rest[i - 1].key == k;
    }
  }

  /** An applier that was not running before has just taken its snapshot. */
  lemma LockOrigin(s: System, a: Action, s': System, id: TaskId)
    requires Next(s, a, s') && MidCall(s', id) && !MidCall(s, id)
    ensures id in s.db.cells && s'.db == s.db && s'.locks[id].call.Ready?
    ensures SnapshotAllowed(s.db.cells[id], s'.locks[id].epoch) && SnapshotOf(s.db.cells[id], s'.locks[id].queue)
  {
    hide EventOf, EventTx, Decides, EnqueueTx, SnapshotOf, SnapshotAllowed;
  }

  /** An applier that is still running after a commit has committed a success and moved on. */
  lemma CommitOrigin(s: System, a: Action, s': System, id: TaskId)
    requires Next(s, a, s') && a == CommitOutcome(id) && MidCall(s', id) && MidCall(s, id) && s.locks[id].call.Answered?
    ensures var lock := s.locks[id];
            && lock.call.outcome.RemoteApplied? && !lock.call.outcome.headMismatch && |lock.queue| > 1
            && s'.locks[id] == Applying(lock.epoch, lock.queue[1..], Ready)
            && id in s.db.cells && CommitTx(s.db.cells[id], lock.epoch, lock.queue[0].key, lock.call.outcome).Ok?
            && id in s'.db.cells &&
                s'.db.cells[id] == CommitTx(s.db.cells[id], lock.epoch, lock.queue[0].key, lock.call.outcome).value
  {
    hide CommitTx, PrConflict;
  }

  lemma StepKeepsOrder(s: System, a: Action, s': System)
    requires Sound(s) && ActiveGated(s) && InOrder(s) && Next(s, a, s')
    ensures InOrder(s')
  {
    hide Next, Core, Gate, QueueCurrent;
    forall id | MidCall(s', id)
      ensures id in s'.db.cells && QueueCurrent(s'.db.cells[id], s'.locks[id])
    {
      if !MidCall(s, id) {
        LockOrigin(s, a, s', id);
        SnapshotIsCurrent(s.db.cells[id], s'.locks[id].epoch, s'.locks[id].queue);
      } else if a == CommitOutcome(id) && s.locks[id].call.Answered? {
        CommitOrigin(s, a, s', id);
        CommitAdvancesQueue(s.db.cells[id], s.locks[id], s.locks[id].call.outcome);
      } else {
        OthersKeepOrder(s, a, s', id);
      }
    }
  }

  lemma OthersKeepOrder(s: System, a: Action, s': System, id: TaskId)
    requires Sound(s) && InOrder(s) && Next(s, a, s') && MidCall(s', id)
    requires MidCall(s, id) && !(a == CommitOutcome(id) && s.locks[id].call.Answered?)
    ensures id in s'.db.cells && QueueCurrent(s'.db.cells[id], s'.locks[id])
  {
    StepOnTask(s, a, s', id);
    SameQueue(s, a, s', id);
    var c, e := s.db.cells[id], EventOf(s, a, id);
    assert QueueCurrent(c, s.locks[id]);
    if e.Some? && EventTx(c, e.value).Ok? {
      EventAdvances(c, e.value);
      EventUnderLock(c, e.value, s.locks[id].epoch);
      QueueSurvivesEvent(c, s'.db.cells[id], s.locks[id]);
    }
  }

  lemma SameQueue(s: System, a: Action, s': System, id: TaskId)
    requires Next(s, a, s') && MidCall(s, id) && MidCall(s', id) &&
               !(a == CommitOutcome(id) && s.locks[id].call.Answered?)
    ensures s'.locks[id].queue == s.locks[id].queue && s'.locks[id].epoch == s.locks[id].epoch
  {
    hide EventOf, EventTx, CommitDb, ClaimEffect, Decides, EnqueueTx, SnapshotOf;
  }

  /**
   In every reachable state the intent an applier is about to write is the first one of its task
   that is not applied: a remote write happens only after every earlier intent of the report has
   been committed as applied.
   */
  lemma {:induction false} EffectsInOrder(states: seq<System>, actions: seq<Action>, i: nat)
    requires IsRun(states, actions) && i < |states|
    ensures InOrder(states[i])
    ensures forall id, k :: MidCall(states[i], id) && k in states[i].db.cells[id].intents
                            && states[i].db.cells[id].intents[k].position < Head(states[i], id).position ==>
              states[i].db.cells[id].intents[k].status == IntentApplied
  {
    if i > 0 {
      EffectsInOrder(states, actions, i - 1);
      ReachableSound(states, actions, i - 1);
      ActiveTasksGated(states, actions, i - 1);
      StepKeepsOrder(states[i - 1], actions[i - 1], states[i]);
    }
  }

  /** The forge's log only grows, and only by the intent at the head of some applier's queue. */
  lemma OnlyHeadsAreWritten(s: System, a: Action, s': System)
    requires Next(s, a, s') && s'.remote != s.remote
    ensures a.Send? && MidCall(s, a.id) && s.locks[a.id].call.Absent? &&
              s'.remote == s.remote + [MarkerOf(Head(s, a.id))]
  {
    hide EventOf, EventTx, CommitDb, ClaimEffect, Decides, EnqueueTx, SnapshotOf;
  }
}
