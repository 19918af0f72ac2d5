/**
 What the stored log says about the transcript it was uploaded from, after any order of
 pages: repeats, overlaps, jumps ahead, lost answers and purges included.
 */
module LogUpload {
  import opened Basics
  import opened TaskModel
  import opened JobLog

  // ----- windows and counters -----

  lemma {:induction false} WindowOfWindow(es: seq<Event>, lo: int, hi: int, above: int)
    requires lo <= above
    ensures Window(Window(es, lo, hi), above, hi) == Window(es, above, hi)
  {
    if es != [] {
      var init, e := es[..|es| - 1], es[|es| - 1];
      WindowOfWindow(init, lo, hi, above);
      var w := Window(init, lo, hi);
      assert (w + [e])[..|w|] == w;
    }
  }

  lemma {:induction false} EmptyWindow(es: seq<Event>, lo: int, hi: int)
    requires hi <= lo
    ensures Window(es, lo, hi) == []
  {
    if es != [] {
      EmptyWindow(es[..|es| - 1], lo, hi);
    }
  }

  lemma {:induction false} WindowBeyond(es: seq<Event>, lo: int, hi: int)
    requires forall i :: 0 <= i < |es| ==> es[i].seqNo <= lo
    ensures Window(es, lo, hi) == []
  {
    if es != [] {
      WindowBeyond(es[..|es| - 1], lo, hi);
    }
  }

  /** Of an ascending log, the part up to `mid` followed by the part after it is the part up to `hi`. */
  lemma {:induction false} WindowsJoin(es: seq<Event>, lo: int, mid: int, hi: int)
    requires Ascending(es) && lo <= mid <= hi
    ensures Window(es, lo, mid) + Window(es, mid, hi) == Window(es, lo, hi)
  {
    if es != [] {
      var init, e := es[..|es| - 1], es[|es| - 1];
      WindowsJoin(init, lo, mid, hi);
      if e.seqNo <= mid {
        WindowBeyond(init, mid, hi);
      }
      assert Window(init, lo, mid) + (Window(init, mid, hi) + [e]) ==
          (Window(init, lo, mid) + Window(init, mid, hi)) + [e];
    }
  }

  lemma {:induction false} FeedJoins(t: Tally, es: seq<Event>, fs: seq<Event>)
    ensures Feed(t, es + fs) == Feed(Feed(t, es), fs)
    ensures Kept(t, es + fs) == Kept(t, es) + Kept(Feed(t, es), fs)
  {
    if fs == [] {
      assert es + fs == es;
    } else {
      var init := fs[..|fs| - 1];
      FeedJoins(t, es, init);
      assert (es + fs)[..|es + fs| - 1] == es + init;
    }
  }

  function Bytes(es: seq<Event>): nat {
    if es == [] then 0 else Bytes(es[..|es| - 1]) + |es[|es| - 1].raw|
  }

  /**
   The stored events are a prefix of those that arrived, as long as the limits allow, and the
   counters describe them exactly.
   */
  predicate GreedyPrefix(es: seq<Event>, t: Tally, kept: seq<Event>) {
    && kept <= es
    && t.count == |kept| && t.bytes == Bytes(kept) && t.count + t.dropped == |es|
    && t.count <= 20_000 && t.bytes <= 0x100_0000
    && (t.limited <==> t.dropped > 0)
    && (t.limited ==> t.count == 20_000 || t.bytes + |es[|kept|].raw| > 0x100_0000)
  }

  lemma GreedyStep(es: seq<Event>, t: Tally, kept: seq<Event>, e: Event)
    requires GreedyPrefix(es, t, kept)
    ensures GreedyPrefix(es + [e], Counted(t, e), if Room(t, e) then kept + [e] else kept)
  {
    var all := es + [e];
    if Room(t, e) {
      assert kept == es;
      assert (kept + [e])[..|kept|] == kept;
    } else {
      assert all[|kept|] == if |kept| < |es| then es[|kept|] else e;
    }
  }

  lemma {:induction false} KeptIsGreedyPrefix(es: seq<Event>)
    ensures GreedyPrefix(es, Feed(NO_EVENTS, es), Kept(NO_EVENTS, es))
  {
    hide Feed, Kept;
    FeedNothing(NO_EVENTS);
    if es != [] {
      var init, e := es[..|es| - 1], es[|es| - 1];
      KeptIsGreedyPrefix(init);
      GreedyStep(init, Feed(NO_EVENTS, init), Kept(NO_EVENTS, init), e);
      FeedNext(NO_EVENTS, init, e);
      assert init + [e] == es;
      hide GreedyPrefix;
    }
  }

  // ----- rows -----

  lemma {:induction false} EventsOfJoin(a: seq<Row>, b: seq<Row>, key: StreamKey)
    ensures EventsOf(a + b, key) == EventsOf(a, key) + EventsOf(b, key)
  {
    if b == [] {
      assert a + b == a;
    } else {
      EventsOfJoin(a, b[..|b| - 1], key);
      assert (a + b)[..|a + b| - 1] == a + b[..|b| - 1];
    }
  }

  lemma {:induction false} EventsOfRows(key: StreamKey, lastId: nat, es: seq<Event>, other: StreamKey)
    ensures EventsOf(Rows(key, lastId, es), other) == if other == key then es else []
  {
    if es != [] {
      EventsOfRows(key, lastId, es[..|es| - 1], other);
      assert Rows(key, lastId, es)[..|es| - 1] == Rows(key, lastId, es[..|es| - 1]);
    }
  }

  lemma {:induction false} EventsOfWithout(rows: seq<Row>, tasks: set<TaskId>, key: StreamKey)
    ensures EventsOf(Without(rows, tasks), key) == if key.task in tasks then [] else EventsOf(rows, key)
  {
    if rows != [] {
      var init := rows[..|rows| - 1];
      EventsOfWithout(init, tasks, key);
      var kept := Without(init, tasks);
      assert (kept + [rows[|rows| - 1]])[..|kept|] == kept;
    }
  }

  lemma {:induction false} NoRowsNoEvents(rows: seq<Row>, key: StreamKey)
    requires forall i :: 0 <= i < |rows| ==> rows[i].key != key
    ensures EventsOf(rows, key) == []
  {
    if rows != [] {
      NoRowsNoEvents(rows[..|rows| - 1], key);
    }
  }

  // ----- runs -----

  datatype LogAction =
    | Upload(db: Db, task: TaskId, worker: WorkerId, page: Page, now: Time)
    | Purge(tasks: set<TaskId>)

  function LogStep(log: Log, a: LogAction): Log {
    match a
    case Upload(db, task, worker, page, now) =>
      (match AppendTx(log, db, task, worker, page, now)
       case Refused(_) => log
       case Answered(after, _) => after)
    case Purge(tasks) => PurgeTx(log, tasks)
  }

  const EMPTY_LOG := Log(map[], [], 0)

  function LogAfter(actions: seq<LogAction>): Log {
    if actions == [] then EMPTY_LOG else LogStep(LogAfter(actions[..|actions| - 1]), actions[|actions| - 1])
  }

  function KeyOf(task: TaskId, p: Page): StreamKey {
    StreamKey(task, p.fence, p.invocation)
  }

  /**
   A page carries exactly the transcript's events of its window. Once the controller has
   answered that the stream is limited, a worker that is not `exact` sends windows without
   their events.
   */
  predicate Honest(log: Log, key: StreamKey, p: Page, source: seq<Event>, exact: bool) {
    || p.events == Window(source, p.fromSeq, p.toSeq)
    || (!exact && p.events == [] && key in log.streams && log.streams[key].tally.limited)
  }

  predicate HonestStep(log: Log, a: LogAction, source: StreamKey -> seq<Event>, exact: bool) {
    a.Upload? ==> var key := KeyOf(a.task, a.page); Honest(log, key, a.page, source(key), exact)
  }

  predicate HonestRun(actions: seq<LogAction>, source: StreamKey -> seq<Event>, exact: bool) {
    forall i :: 0 <= i < |actions| ==> HonestStep(LogAfter(actions[..i]), actions[i], source, exact)
  }

  /**
   A stream and its rows are what one upload of the whole transcript up to its position leaves;
   only events never sent to a limited stream go uncounted.
   */
  predicate Faithful(st: Stream, stored: seq<Event>, source: seq<Event>, exact: bool) {
    var all := Window(source, 0, st.lastSeq);
    var once := Feed(NO_EVENTS, all);
    && 0 <= st.lastSeq
    && st.tally == once.(dropped := st.tally.dropped)
    && (if exact then st.tally.dropped == once.dropped else st.tally.dropped <= once.dropped)
    && stored == if st.purged then [] else Kept(NO_EVENTS, all)
  }

  ghost predicate FaithfulLog(log: Log, source: StreamKey -> seq<Event>, exact: bool) {
    && ValidLog(log)
    && forall k :: k in log.streams ==> Faithful(log.streams[k], EventsOf(log.rows, k), source(k), exact)
  }

  lemma {:induction false} FeedIgnoresDropped(t: Tally, u: Tally, es: seq<Event>)
    requires t == u.(dropped := t.dropped)
    ensures Kept(t, es) == Kept(u, es)
    ensures Feed(t, es) == Feed(u, es).(dropped := Feed(t, es).dropped)
    ensures Feed(t, es).dropped - t.dropped == Feed(u, es).dropped - u.dropped
  {
    if es != [] {
      FeedIgnoresDropped(t, u, es[..|es| - 1]);
    }
  }

  lemma {:induction false} LimitedKeepsNothing(t: Tally, es: seq<Event>)
    requires t.limited
    ensures Kept(t, es) == [] && Feed(t, es) == t.(dropped := t.dropped + |es|)
  {
    if es != [] {
      LimitedKeepsNothing(t, es[..|es| - 1]);
    }
  }

  lemma AppendStaysFaithful(st: Stream, stored: seq<Event>, p: Page, source: seq<Event>, exact: bool)
    requires Ascending(source) && Faithful(st, stored, source, exact) && !st.purged
    requires 0 <= p.fromSeq <= st.lastSeq
    requires p.events == Window(source, p.fromSeq, p.toSeq) || (!exact && p.events == [] && st.tally.limited)
    ensures Faithful(Extended(st, p), stored + Kept(st.tally, Window(p.events, st.lastSeq, p.toSeq)), source, exact)
  {
    hide Feed, Kept, Window;
    var unseen := Window(p.events, st.lastSeq, p.toSeq);
    if p.toSeq <= st.lastSeq {
      EmptyWindow(p.events, st.lastSeq, p.toSeq);
      FeedJoins(st.tally, [], []);
      assert Feed(st.tally, []) == st.tally && Kept(st.tally, []) == [] by {
        FeedNothing(st.tally);
      }
    } else {
      var all, next := Window(source, 0, st.lastSeq), Window(source, st.lastSeq, p.toSeq);
      var once := Feed(NO_EVENTS, all);
      WindowsJoin(source, 0, st.lastSeq, p.toSeq);
      FeedJoins(NO_EVENTS, all, next);
      if p.events == Window(source, p.fromSeq, p.toSeq) {
        WindowOfWindow(source, p.fromSeq, p.toSeq, st.lastSeq);
        FeedIgnoresDropped(st.tally, once, next);
      } else {
        LimitedKeepsNothing(once, next);
        FeedNothing(st.tally);
        assert unseen == [] by {
          NothingInWindow(st.lastSeq, p.toSeq);
        }
      }
    }
  }

  lemma {:induction false} WithoutKeepsOrder(rows: seq<Row>, tasks: set<TaskId>)
    requires InIdOrder(rows)
    ensures InIdOrder(Without(rows, tasks))
    ensures forall r :: r in Without(rows, tasks) ==> r in rows
  {
    if rows != [] {
      var init, last := rows[..|rows| - 1], rows[|rows| - 1];
      WithoutKeepsOrder(init, tasks);
      var kept := Without(init, tasks);
      forall i | 0 <= i < |kept| ensures kept[i].id < last.id {
        assert kept[i] in kept;
        assert kept[i] in init;
      }
    }
  }

  lemma UploadStaysFaithful(log: Log, a: LogAction, source: StreamKey -> seq<Event>, exact: bool)
    requires FaithfulLog(log, source, exact) && a.Upload? && HonestStep(log, a, source, exact)
    requires forall k :: Ascending(source(k))
    ensures FaithfulLog(LogStep(log, a), source, exact)
  {
    hide Feed, Kept, Window, Faithful, ValidPage, LogLease, Described;
    var p := a.page;
    var key := KeyOf(a.task, p);
    var target := Target(log, key, a.worker);
    var after := LogStep(log, a);
    if after != log {
      var st := target.value;
      var kept := Kept(st.tally, Window(p.events, st.lastSeq, p.toSeq));
      assert after.streams == log.streams[key := Extended(st, p)] &&
          after.rows == log.rows + Rows(key, log.lastId, kept);
      assert Faithful(st, EventsOf(log.rows, key), source(key), exact) && 0 <= p.fromSeq by {
        NewStreamIsFaithful(log, key, a.worker, source(key), exact);
        PageIsOrdered(p);
      }
      AppendStaysFaithful(st, EventsOf(log.rows, key), p, source(key), exact);
      forall k | k in after.streams
        ensures Faithful(after.streams[k], EventsOf(after.rows, k), source(k), exact)
      {
        EventsOfJoin(log.rows, Rows(key, log.lastId, kept), k);
        EventsOfRows(key, log.lastId, kept, k);
        assert k != key ==> EventsOf(after.rows, k) == EventsOf(log.rows, k);
      }
    }
  }

  lemma PageIsOrdered(p: Page)
    requires ValidPage(p)
    ensures 0 <= p.fromSeq <= p.toSeq && Within(p.events, p.fromSeq, p.toSeq)
  {
  }

  lemma NewStreamIsFaithful(log: Log, key: StreamKey, worker: WorkerId, source: seq<Event>, exact: bool)
    requires ValidLog(log)
    ensures key !in log.streams ==> Faithful(NewStream(worker), EventsOf(log.rows, key), source, exact)
  {
    if key !in log.streams {
      NoRowsNoEvents(log.rows, key);
      EmptyWindow(source, 0, 0);
    }
  }

  lemma PurgeStaysFaithful(log: Log, tasks: set<TaskId>, source: StreamKey -> seq<Event>, exact: bool)
    requires FaithfulLog(log, source, exact)
    ensures FaithfulLog(PurgeTx(log, tasks), source, exact)
  {
    hide Feed, Kept, Window, EventsOf, Without;
    WithoutKeepsOrder(log.rows, tasks);
    var after := PurgeTx(log, tasks);
    forall i | 0 <= i < |after.rows|
        ensures 0 < after.rows[i].id <= after.lastId && after.rows[i].key in after.streams {
      assert after.rows[i] in log.rows;
    }
    forall k | k in log.streams
      ensures Faithful(PurgeTx(log, tasks).streams[k], EventsOf(PurgeTx(log, tasks).rows, k), source(k), exact)
    {
      EventsOfWithout(log.rows, tasks, k);
    }
  }

  /**
   After any order of pages, repeats, jumps and purges, each stream holds exactly what a
   single upload of the transcript up to its position would have stored.
   */
  lemma {:induction false} AnyOrderOfPagesIsOneUpload(actions: seq<LogAction>, source: StreamKey -> seq<Event>,
      exact: bool)
    requires forall k :: Ascending(source(k))
    requires HonestRun(actions, source, exact)
    ensures FaithfulLog(LogAfter(actions), source, exact)
  {
    if actions != [] {
      var n := |actions| - 1;
      var init := actions[..n];
      assert forall i :: 0 <= i < n ==> init[..i] == actions[..i] && init[i] == actions[i];
      assert HonestRun(init, source, exact);
      AnyOrderOfPagesIsOneUpload(init, source, exact);
      match actions[n] {
        case Upload(_, _, _, _, _) => UploadStaysFaithful(LogAfter(init), actions[n], source, exact);
        case Purge(tasks) => PurgeStaysFaithful(LogAfter(init), tasks, source, exact);
      }
    }
  }

  /**
   What that means for a reader: a prefix of the transcript in order, complete unless a limit
   was reached, with exact counters.
   */
  lemma StoredIsBoundedPrefix(log: Log, key: StreamKey, source: StreamKey -> seq<Event>)
    requires FaithfulLog(log, source, true) && key in log.streams
    ensures var st, stored, sent := log.streams[key], EventsOf(log.rows, key),
              Window(source(key), 0, log.streams[key].lastSeq);
            && stored <= sent
            && st.tally.count + st.tally.dropped == |sent|
            && st.tally.count <= 20_000 && st.tally.bytes <= 0x100_0000
            && (st.tally.limited <==> st.tally.dropped > 0)
            && (!st.purged ==> |stored| == st.tally.count && Bytes(stored) == st.tally.bytes)
            && (!st.purged && !st.tally.limited ==> stored == sent)
  {
    hide Feed, Kept, Window, EventsOf;
    KeptIsGreedyPrefix(Window(source(key), 0, log.streams[key].lastSeq));
  }

  // ----- the end of a stream, and repeated pages -----

  /** The page was accepted: it is stored, apart from what was already there or found no room. */
  predicate Accepts(log: Log, a: LogAction) {
    && a.Upload?
    && var reply := AppendTx(log, a.db, a.task, a.worker, a.page, a.now);
       reply.Answered? && reply.ack.accepted
  }

  /**
   Once a stream has ended, only a purge changes its events, and nothing changes its counters,
   position, worker or end. An accepted page may still rewrite what the stream says of itself.
   */
  lemma EndedIsFrozen(log: Log, a: LogAction, key: StreamKey)
    requires ValidLog(log) && key in log.streams && log.streams[key].ended
    ensures var st, after := log.streams[key], LogStep(log, a);
            && key in after.streams && after.streams[key].ended
            && after.streams[key].tally == st.tally && after.streams[key].lastSeq == st.lastSeq &&
                after.streams[key].worker == st.worker
            && ((a.Purge? && key.task in a.tasks) || EventsOf(after.rows, key) == EventsOf(log.rows, key))
            && after.streams[key] == if a.Purge? then (if key.task in a.tasks then st.(purged := true) else st)
                                     else if Accepts(log, a) && KeyOf(a.task, a.page) == key then Described(st, a.page)
                                     else st
  {
    hide ValidPage, LogLease;
    match a {
      case Purge(tasks) => EventsOfWithout(log.rows, tasks, key);
      case Upload(_, task, worker, p, _) =>
        var at := KeyOf(task, p);
        if Accepts(log, a) {
          var st := Target(log, at, worker).value;
          var unseen := Window(p.events, st.lastSeq, p.toSeq);
          EventsOfJoin(log.rows, Rows(at, log.lastId, Kept(st.tally, unseen)), key);
          EventsOfRows(at, log.lastId, Kept(st.tally, unseen), key);
        }
    }
  }

  /**
   What an accepted page says leaves the stream's description alone exactly when it repeats it,
   or leaves a field empty that may be empty.
   */
  lemma DescriptionKeptExactly(st: Stream, p: Page)
    ensures Described(st, p) == st
            <==> && p.availability == st.availability && p.reason == st.reason
                 && (p.runId == "" || p.runId == st.runId) &&
                     (p.backend == "" || (p.backend == st.backend && p.model == st.model))
                 && (p.state == "" || p.state == st.state) &&
                     (p.completeness == "" || p.completeness == st.completeness)
                 && (p.summary.None? || p.summary == st.summary)
  {
  }

  /** A stream never goes back: not in position, worker, run, end or purge. */
  lemma StreamAdvances(log: Log, a: LogAction, key: StreamKey)
    requires key in log.streams
    ensures key in LogStep(log, a).streams
    ensures var st, next := log.streams[key], LogStep(log, a).streams[key];
            && st.lastSeq <= next.lastSeq && next.worker == st.worker
            && (st.runId != "" ==> next.runId == st.runId) && (st.ended ==> next.ended) && (st.purged ==> next.purged)
  {
    hide ValidPage, LogLease, Feed, Kept, Window, Without;
  }

  lemma {:induction false} StreamAdvancesOverRun(actions: seq<LogAction>, i: nat, j: nat, key: StreamKey)
    requires i <= j <= |actions| && key in LogAfter(actions[..i]).streams
    ensures key in LogAfter(actions[..j]).streams
    ensures var st, next := LogAfter(actions[..i]).streams[key], LogAfter(actions[..j]).streams[key];
            && st.lastSeq <= next.lastSeq && next.worker == st.worker
            && (st.runId != "" ==> next.runId == st.runId) && (st.ended ==> next.ended) && (st.purged ==> next.purged)
    decreases j
  {
    hide LogStep;
    if i < j {
      StreamAdvancesOverRun(actions, i, j - 1, key);
      assert actions[..j][..j - 1] == actions[..j - 1];
      StreamAdvances(LogAfter(actions[..j - 1]), actions[j - 1], key);
    }
  }

  /** What an accepted page leaves: its stream has moved past it. */
  lemma AcceptedIsBehind(log: Log, a: LogAction)
    requires Accepts(log, a)
    ensures var p, key := a.page, KeyOf(a.task, a.page);
            var after := LogStep(log, a);
            && ValidPage(p) && key in after.streams && p.toSeq <= after.streams[key].lastSeq
            && after.streams[key].worker == a.worker && (p.runId != "" ==> after.streams[key].runId == p.runId)
            && (p.end ==> after.streams[key].ended)
  {
    hide ValidPage, LogLease, Feed, Kept, Window;
  }

  /**
   The page would be refused: its stream was purged, or has ended and the page carries events
   or another availability.
   */
  predicate TooLate(st: Stream, p: Page) {
    st.purged || (st.ended && (p.availability != st.availability || p.events != []))
  }

  /** A page whose stream has moved past it stores nothing. */
  lemma OldPageStoresNothing(log: Log, db: Db, task: TaskId, worker: WorkerId, p: Page, now: Time)
    requires ValidPage(p) && LogLease(db, task, worker, p.fence, now)
    requires var key := KeyOf(task, p);
             && key in log.streams && p.toSeq <= log.streams[key].lastSeq && log.streams[key].worker == worker
             && (p.runId != "" ==> log.streams[key].runId == p.runId)
    ensures var key := KeyOf(task, p);
            var st := log.streams[key];
            AppendTx(log, db, task, worker, p, now)
            == if TooLate(st, p) then Refused(StaleLogLease)
               else Answered(log.(streams := log.streams[key := Described(st, p).(ended := st.ended || p.end)]),
                             Ack(true, st.lastSeq, 0, |p.events|, st.tally.limited))
  {
    hide ValidPage, LogLease, Feed, Kept, Window;
    PageIsOrdered(p);
    var key := KeyOf(task, p);
    EmptyWindow(p.events, log.streams[key].lastSeq, p.toSeq);
    FeedNothing(log.streams[key].tally);
    assert log.rows + Rows(key, log.lastId, []) == log.rows;
  }

  /**
   A worker that never saw the answer to a page may send it again at any later time while it
   holds the lease: nothing is stored, and it is acknowledged exactly when it is not too late.
   */
  lemma RepeatedPageStoresNothing(actions: seq<LogAction>, i: nat, j: nat, db: Db, now: Time)
    requires i < j <= |actions| && Accepts(LogAfter(actions[..i]), actions[i])
    requires LogLease(db, actions[i].task, actions[i].worker, actions[i].page.fence, now)
    ensures var a, log := actions[i], LogAfter(actions[..j]);
            var key := KeyOf(a.task, a.page);
            && key in log.streams
            && var st := log.streams[key];
               AppendTx(log, db, a.task, a.worker, a.page, now)
               == if TooLate(st, a.page) then Refused(StaleLogLease)
                  else Answered(log.(streams := log.streams[key :=
                                       Described(st, a.page).(ended := st.ended || a.page.end)]),
                                Ack(true, st.lastSeq, 0, |a.page.events|, st.tally.limited))
  {
    var a := actions[i];
    assert a.Upload?;
    hide AppendTx, LogStep, Accepts, LogLease, ValidPage;
    assert actions[..i + 1][..i] == actions[..i];
    assert LogAfter(actions[..i + 1]) == LogStep(LogAfter(actions[..i]), a);
    AcceptedIsBehind(LogAfter(actions[..i]), a);
    StreamAdvancesOverRun(actions, i + 1, j, KeyOf(a.task, a.page));
    OldPageStoresNothing(LogAfter(actions[..j]), db, a.task, a.worker, a.page, now);
  }

  /**
   Sent again at once, it leaves the tables as they are, and is refused exactly when it is an
   end page carrying events.
   */
  lemma ImmediateRepeatChangesNothing(log: Log, db: Db, task: TaskId, worker: WorkerId, p: Page, now: Time)
    requires Accepts(log, Upload(db, task, worker, p, now))
    ensures var once := AppendTx(log, db, task, worker, p, now).log;
            var key := KeyOf(task, p);
            match AppendTx(once, db, task, worker, p, now)
            case Refused(e) => e == StaleLogLease && p.end && p.events != []
            case Answered(twice, ack) =>
              && ack.accepted && ack.stored == 0 && ack.duplicates == |p.events| &&
                  ack.lastSeq == once.streams[key].lastSeq
              && twice == once && !(p.end && p.events != [])
  {
    hide Feed, Kept, ValidPage, LogLease;
    AcceptedIsBehind(log, Upload(db, task, worker, p, now));
    var once := AppendTx(log, db, task, worker, p, now).log;
    OldPageStoresNothing(once, db, task, worker, p, now);
  }

  // ----- examples: a transcript of one event, uploaded in one page -----

  const EXAMPLE_TASK := "t"
  const EXAMPLE_WORKER := "w"
  const EXAMPLE_LEASE :=
    Task(EXAMPLE_TASK, Implement, "r", 1, 0, "o", Payload(false, None, "", Unset, "", None, false, ""), [], 0, 0, 0,
         Leased, 0, EXAMPLE_WORKER, Some(LEASE_TTL), None, 1, None, NoDigest, 0, "")
  const EXAMPLE_ROW := AttemptKey(EXAMPLE_TASK, 1)
  const EXAMPLE_DB :=
    Db(map[EXAMPLE_TASK := Cell(EXAMPLE_LEASE,
        map[EXAMPLE_ROW := Attempt(1, EXAMPLE_WORKER, Product, "running", 0, None, "", NoDigest)], map[])],
       map[], map[])
  const LAST_PAGE :=
    Page(1, "i", "", "", "", "available", "", "", "", None, 0, 1, [JobLog.Event(1, "message", [])], true)
  const NOTE := Page(1, "i", "", "", "", "available", "n", "", "", None, 0, 0, [], false)

  lemma ExampleLease()
    ensures LogLease(EXAMPLE_DB, EXAMPLE_TASK, EXAMPLE_WORKER, 1, 0)
  {
    var c := EXAMPLE_DB.cells[EXAMPLE_TASK];
    assert (set k | k in c.attempts && c.attempts[k].epoch == 1 && c.attempts[k].worker == EXAMPLE_WORKER) ==
        {EXAMPLE_ROW};
  }

  lemma ExamplePages()
    ensures ValidPage(LAST_PAGE) && ValidPage(NOTE)
  {
    assert ByteLength("") == 0 && ByteLength("n") == 1;
    hide ByteLength;
    assert ValidId("i");
  }

  const LAST_UPLOAD := Upload(EXAMPLE_DB, EXAMPLE_TASK, EXAMPLE_WORKER, LAST_PAGE, 0)
  const EXAMPLE_RUN := [LAST_UPLOAD]

  lemma ExampleRun()
    ensures Accepts(EMPTY_LOG, LAST_UPLOAD) && LogAfter(EXAMPLE_RUN) == LogStep(EMPTY_LOG, LAST_UPLOAD)
  {
    ExampleLease();
    ExamplePages();
    assert EXAMPLE_RUN[..0] == [];
    hide ValidPage, LogLease, Feed, Kept, Window;
    assert StreamsOf(EMPTY_LOG, EXAMPLE_TASK, 1) == {};
  }

  /** The lost answer to a last page with events: the repeat is refused. */
  lemma LastPageCanBeRefused()
    ensures Accepts(EMPTY_LOG, LAST_UPLOAD)
    ensures AppendTx(LogAfter(EXAMPLE_RUN), EXAMPLE_DB, EXAMPLE_TASK, EXAMPLE_WORKER, LAST_PAGE, 0) ==
              Refused(StaleLogLease)
  {
    ExampleRun();
    hide ValidPage, LogLease, Feed, Kept, Window, Target;
    ImmediateRepeatChangesNothing(EMPTY_LOG, EXAMPLE_DB, EXAMPLE_TASK, EXAMPLE_WORKER, LAST_PAGE, 0);
  }

  /** After that end, an empty page with another reason is accepted and rewrites the reason. */
  lemma EndedCanBeRedescribed()
    ensures var log, note := LogAfter(EXAMPLE_RUN), Upload(EXAMPLE_DB, EXAMPLE_TASK, EXAMPLE_WORKER, NOTE, 0);
            var key := KeyOf(EXAMPLE_TASK, NOTE);
            && key in log.streams && log.streams[key].ended && Accepts(log, note)
            && key in LogStep(log, note).streams && LogStep(log, note).streams[key].reason != log.streams[key].reason
  {
    ExampleRun();
    ExampleLease();
    ExamplePages();
    AcceptedIsBehind(EMPTY_LOG, LAST_UPLOAD);
    hide ValidPage, LogLease, Feed, Kept, Window, LogAfter;
    var st := LogStep(EMPTY_LOG, LAST_UPLOAD).streams[KeyOf(EXAMPLE_TASK, NOTE)];
    assert st.availability == "available" && st.reason == "" && !st.purged;
    hide AppendTx;
    OldPageStoresNothing(LogAfter(EXAMPLE_RUN), EXAMPLE_DB, EXAMPLE_TASK, EXAMPLE_WORKER, NOTE, 0);
  }
}
