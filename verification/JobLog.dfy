/**
 The execution log: a worker uploads the transcript of an invocation in pages that may be
 repeated, overlap, arrive late or be lost, and readers page through what was stored.
 */
module JobLog {
  import opened Basics
  import opened TaskModel
  import opened Invariants
  import opened Safety

  const MAX_PAGE_EVENTS := 1000
  const MAX_STREAM_EVENTS := 20000
  const MAX_STREAM_BYTES := 0x100_0000
  const MAX_STREAMS := 16
  const MAX_READ_EVENTS := 500
  const MAX_READ_BYTES := 0x8_0000

  /** A record of a transcript; `raw` is its stored encoding. */
  datatype Event = Event(seqNo: int, kind: string, raw: seq<Byte>)

  datatype Page = Page(
    fence: int,
    invocation: string,
    runId: string,
    backend: string,
    model: string,
    availability: string,
    reason: string,
    state: string,
    completeness: string,
    summary: Option<string>,
    fromSeq: int,
    toSeq: int,
    events: seq<Event>,
    end: bool)

  datatype StreamKey = StreamKey(task: TaskId, epoch: int, invocation: string)

  /** The size counters of a stream. */
  datatype Tally = Tally(count: nat, bytes: nat, dropped: nat, limited: bool)

  datatype Stream = Stream(
    worker: WorkerId,
    runId: string,
    backend: string,
    model: string,
    availability: string,
    reason: string,
    state: string,
    completeness: string,
    summary: Option<string>,
    lastSeq: int,
    tally: Tally,
    ended: bool,
    purged: bool)

  /** A stored event; ids grow with insertion and are never reused. */
  datatype Row = Row(id: nat, key: StreamKey, event: Event)

  datatype Log = Log(streams: map<StreamKey, Stream>, rows: seq<Row>, lastId: nat)

  datatype Ack = Ack(accepted: bool, lastSeq: int, stored: nat, duplicates: nat, limited: bool)

  const NO_ACK := Ack(false, 0, 0, 0, false)

  datatype LogError = InvalidPage | StaleLogLease | IdentityMismatch

  datatype Reply = Refused(error: LogError) | Answered(log: Log, ack: Ack)

  // ----- page validation -----

  const AVAILABILITIES := {
    "available", "not_yet_available", "no_captured_content", "capture_disabled", "expired", "unreadable",
    "unsupported_backend", "unsupported_version", "not_found", "ambiguous", "cursor_invalid",
    "identity_mismatch", "unsupported_offload" }

  const RENDERABLE := {
    "message", "tool_call", "tool_result", "backend_error", "gap", "attempt_start", "execution_end", "capture_start" }

  predicate Ascending(es: seq<Event>) {
    forall i, j :: 0 <= i < j < |es| ==> es[i].seqNo < es[j].seqNo
  }

  predicate Within(es: seq<Event>, lo: int, hi: int) {
    forall i :: 0 <= i < |es| ==> lo < es[i].seqNo <= hi
  }

  predicate ValidHeader(p: Page) {
    && ValidId(p.invocation) && p.availability in AVAILABILITIES
    && (p.runId == "" || ValidId(p.runId))
    && 0 <= p.fromSeq <= p.toSeq
    && |p.events| <= MAX_PAGE_EVENTS
    && ByteLength(p.reason) <= 300 && ByteLength(p.backend) <= 32 && ByteLength(p.model) <= 128
    && ByteLength(p.state) <= 32 && ByteLength(p.completeness) <= 32
  }

  predicate ValidPage(p: Page) {
    && ValidHeader(p) && Ascending(p.events) && Within(p.events, p.fromSeq, p.toSeq)
    && forall i :: 0 <= i < |p.events| ==> p.events[i].kind in RENDERABLE
  }

  method ValidatePage(p: Page) returns (ok: bool)
    ensures ok <==> ValidPage(p)
  {
    hide ValidId, ByteLength;
    if !ValidHeader(p) {
      return false;
    }
    var last := p.fromSeq;
    for i := 0 to |p.events|
      invariant last == if i == 0 then p.fromSeq else p.events[i - 1].seqNo
      invariant p.fromSeq <= last <= p.toSeq
      invariant Ascending(p.events[..i]) && Within(p.events[..i], p.fromSeq, last)
      invariant forall j :: 0 <= j < i ==> p.events[j].kind in RENDERABLE
    {
      var e := p.events[i];
      if e.kind !in RENDERABLE || e.seqNo <= 0 || e.seqNo <= last || e.seqNo > p.toSeq {
        assert i > 0 ==> last == p.events[i - 1].seqNo;
        return false;
      }
      assert forall j :: 0 <= j < i ==> p.events[..i][j] == p.events[j];
      last := e.seqNo;
    }
    assert p.events[..|p.events|] == p.events;
    return true;
  }

  // ----- counters -----

  predicate Room(t: Tally, e: Event) {
    !t.limited && t.count < MAX_STREAM_EVENTS && t.bytes + |e.raw| <= MAX_STREAM_BYTES
  }

  function Counted(t: Tally, e: Event): Tally {
    if Room(t, e) then t.(count := t.count + 1, bytes := t.bytes + |e.raw|)
    else t.(dropped := t.dropped + 1, limited := true)
  }

  /** The counters after these events arrive in order. */
  function Feed(t: Tally, es: seq<Event>): Tally {
    if es == [] then t else Counted(Feed(t, es[..|es| - 1]), es[|es| - 1])
  }

  /** Those of the arriving events that are stored. */
  function Kept(t: Tally, es: seq<Event>): seq<Event> {
    if es == [] then []
    else
      var before := es[..|es| - 1];
      var e := es[|es| - 1];
      if Room(Feed(t, before), e) then Kept(t, before) + [e] else Kept(t, before)
  }

  /** The events of `es` with a sequence number in (lo, hi]. */
  function Window(es: seq<Event>, lo: int, hi: int): (w: seq<Event>)
    ensures |w| <= |es| && Within(w, lo, hi)
  {
    if es == [] then []
    else
      var e := es[|es| - 1];
      if lo < e.seqNo <= hi then Window(es[..|es| - 1], lo, hi) + [e] else Window(es[..|es| - 1], lo, hi)
  }

  lemma FeedNothing(t: Tally)
    ensures Feed(t, []) == t && Kept(t, []) == []
  {
  }

  lemma FeedNext(t: Tally, es: seq<Event>, e: Event)
    ensures Feed(t, es + [e]) == Counted(Feed(t, es), e)
    ensures Kept(t, es + [e]) == if Room(Feed(t, es), e) then Kept(t, es) + [e] else Kept(t, es)
  {
    assert (es + [e])[..|es|] == es;
  }

  lemma NothingInWindow(lo: int, hi: int)
    ensures Window([], lo, hi) == []
  {
  }

  lemma WindowNext(es: seq<Event>, i: nat, lo: int, hi: int)
    requires i < |es|
    ensures Window(es[..i + 1], lo, hi) == if lo < es[i].seqNo <= hi then Window(es[..i], lo, hi) + [es[i]]
              else Window(es[..i], lo, hi)
  {
    assert es[..i + 1][..i] == es[..i];
  }

  // ----- the transaction -----

  /** The caller holds the task's lease and has the one attempt row of its epoch. */
  predicate LogLease(db: Db, task: TaskId, worker: WorkerId, fence: int, now: Time) {
    && task in db.cells
    && var c := db.cells[task];
    && HoldsLease(c.task, worker, fence) && (c.task.lease.value > now || c.task.payload.durable)
    && |set k | k in c.attempts && c.attempts[k].epoch == fence && c.attempts[k].worker == worker| == 1
  }

  /**
   In a reachable state of the coordinator the lease alone implies its attempt row: the count
   is never what refuses a page.
   */
  lemma LeaseHasItsRow(db: Db, task: TaskId, worker: WorkerId, fence: int, now: Time)
    requires task in db.cells && Core(db.cells[task])
    ensures LogLease(db, task, worker, fence, now) <==>
              HoldsLease(db.cells[task].task, worker, fence)
              && (db.cells[task].task.lease.value > now || db.cells[task].task.payload.durable)
  {
    var c := db.cells[task];
    if HoldsLease(c.task, worker, fence) {
      LiveLeaseHasOneRow(c);
      var row := AttemptKey(c.task.id, c.task.attempt + 1);
      assert (set k | k in c.attempts && c.attempts[k].epoch == fence && c.attempts[k].worker == worker) == {row};
    }
  }

  function StreamsOf(log: Log, task: TaskId, epoch: int): set<StreamKey> {
    set k | k in log.streams && k.task == task && k.epoch == epoch
  }

  const NO_EVENTS := Tally(0, 0, 0, false)

  function NewStream(worker: WorkerId): Stream {
    Stream(worker, "", "", "", "", "", "", "", None, 0, NO_EVENTS, false, false)
  }

  /** What the page says about the stream itself. */
  function Described(st: Stream, p: Page): Stream {
    st.(runId := if p.runId != "" then p.runId else st.runId,
        backend := if p.backend != "" then p.backend else st.backend,
        model := if p.backend != "" then p.model else st.model,
        availability := p.availability,
        reason := p.reason,
        state := if p.state != "" then p.state else st.state,
        completeness := if p.completeness != "" then p.completeness else st.completeness,
        summary := if p.summary.Some? then p.summary else st.summary)
  }

  function Rows(key: StreamKey, lastId: nat, es: seq<Event>): seq<Row> {
    seq(|es|, i requires 0 <= i < |es| => Row(lastId + 1 + i, key, es[i]))
  }

  /** The stream an accepted page leaves behind. */
  function Extended(st: Stream, p: Page): Stream {
    Described(st, p).(
      tally := Feed(st.tally, Window(p.events, st.lastSeq, p.toSeq)),
      lastSeq := if p.toSeq > st.lastSeq then p.toSeq else st.lastSeq,
      ended := st.ended || p.end)
  }

  function Append(log: Log, key: StreamKey, st: Stream, p: Page): Reply {
    var unseen := Window(p.events, st.lastSeq, p.toSeq);
    var kept := Kept(st.tally, unseen);
    var after := Extended(st, p);
    Answered(
      Log(log.streams[key := after], log.rows + Rows(key, log.lastId, kept), log.lastId + |kept|),
      Ack(true, after.lastSeq, |kept|, |p.events| - |unseen|, after.tally.limited))
  }

  /** The stream row a page addresses: the stored one, or a new one while the epoch may open another. */
  function Target(log: Log, key: StreamKey, worker: WorkerId): Option<Stream> {
    if key in log.streams then Some(log.streams[key])
    else if |StreamsOf(log, key.task, key.epoch)| >= MAX_STREAMS then None
    else Some(NewStream(worker))
  }

  /** The transaction of `AppendLog`. */
  function AppendTx(log: Log, db: Db, task: TaskId, worker: WorkerId, p: Page, now: Time): Reply {
    if !ValidPage(p) then Refused(InvalidPage)
    else if !LogLease(db, task, worker, p.fence, now) then Refused(StaleLogLease)
    else
      var key := StreamKey(task, p.fence, p.invocation);
      var target := Target(log, key, worker);
      if target.None? then Refused(InvalidPage)
      else
        var st := target.value;
        if st.worker != worker || st.purged then Refused(StaleLogLease)
        else if st.runId != "" && p.runId != "" && st.runId != p.runId then Refused(IdentityMismatch)
        else if st.ended && (p.availability != st.availability || p.events != [] || p.toSeq > st.lastSeq)
            then Refused(StaleLogLease)
        else if p.fromSeq > st.lastSeq then Answered(log, Ack(false, st.lastSeq, 0, 0, st.tally.limited))
        else Append(log, key, st, p)
  }

  /** The stored events of one stream, in the order of their ids. */
  function EventsOf(rows: seq<Row>, key: StreamKey): seq<Event> {
    if rows == [] then []
    else
      var r := rows[|rows| - 1];
      if r.key == key then EventsOf(rows[..|rows| - 1], key) + [r.event] else EventsOf(rows[..|rows| - 1], key)
  }

  /** DELETE FROM task_log_events WHERE task_id IN tasks */
  function Without(rows: seq<Row>, tasks: set<TaskId>): seq<Row> {
    if rows == [] then []
    else
      var r := rows[|rows| - 1];
      if r.key.task in tasks then Without(rows[..|rows| - 1], tasks) else Without(rows[..|rows| - 1], tasks) + [r]
  }

  /** `PurgeLogs`, given the finished tasks that are old enough. */
  function PurgeTx(log: Log, tasks: set<TaskId>): Log {
    Log(map k | k in log.streams :: if k.task in tasks then log.streams[k].(purged := true) else log.streams[k],
        Without(log.rows, tasks), log.lastId)
  }

  /** WHERE state IN ('done','failed','cancelled'): a head mismatch keeps its log. */
  function Finished(db: Db, untouched: set<TaskId>): (r: set<TaskId>)
    ensures forall id :: id in r ==> id in db.cells && Terminal(db.cells[id].task)
  {
    set id | id in untouched && id in db.cells && db.cells[id].task.state in {Done, Failed, Cancelled}
  }

  predicate InIdOrder(rows: seq<Row>) {
    forall i, j :: 0 <= i < j < |rows| ==> rows[i].id < rows[j].id
  }

  predicate ValidLog(log: Log) {
    && InIdOrder(log.rows)
    && (forall i :: 0 <= i < |log.rows| ==> 0 < log.rows[i].id <= log.lastId && log.rows[i].key in log.streams)
  }

  // ----- reading -----

  /** WHERE task_id = task AND lease_epoch = epoch AND id > after ORDER BY id */
  function Selected(rows: seq<Row>, task: TaskId, epoch: int, after: int): seq<Row> {
    if rows == [] then []
    else
      var init, r := Selected(rows[..|rows| - 1], task, epoch, after), rows[|rows| - 1];
      if r.key.task == task && r.key.epoch == epoch && r.id > after then init + [r] else init
  }

  function Size(rows: seq<Row>): nat {
    if rows == [] then 0 else Size(rows[..|rows| - 1]) + |rows[|rows| - 1].event.raw|
  }

  lemma SizeNext(rows: seq<Row>, i: nat)
    requires i < |rows|
    ensures rows[..i] + [rows[i]] == rows[..i + 1] && Size(rows[..i + 1]) == Size(rows[..i]) + |rows[i].event.raw|
  {
    assert rows[..i + 1][..i] == rows[..i];
  }

  datatype Chunk = Chunk(entries: seq<Row>, nextAfter: int, hasMore: bool)

  function ReadLimit(limit: int): int {
    if limit < 1 || limit > MAX_READ_EVENTS then MAX_READ_EVENTS else limit
  }

  /** A page of the selected rows: as many as both limits allow, but never none of some. */
  predicate IsChunk(selected: seq<Row>, after: int, limit: int, c: Chunk) {
    var n := |c.entries|;
    && c.entries <= selected
    && n <= ReadLimit(limit)
    && (n > 1 ==> Size(c.entries) <= MAX_READ_BYTES)
    && (c.hasMore <==> n < |selected|)
    && (c.hasMore ==> n > 0 && (n == ReadLimit(limit) || Size(selected[..n + 1]) > MAX_READ_BYTES))
    && c.nextAfter == if n == 0 then after else c.entries[n - 1].id
  }

  ghost predicate Newest(attempts: map<AttemptKey, Attempt>, k: AttemptKey) {
    k in attempts && forall j :: j in attempts ==> attempts[j].epoch <= attempts[k].epoch
  }

  lemma {:induction false} NewestExists(attempts: map<AttemptKey, Attempt>, keys: set<AttemptKey>)
    requires keys != {} && keys <= attempts.Keys
    ensures exists k :: k in keys && forall j :: j in keys ==> attempts[j].epoch <= attempts[k].epoch
    decreases |keys|
  {
    var k :| k in keys;
    if keys != {k} {
      NewestExists(attempts, keys - {k});
      var n :| n in keys - {k} && forall j :: j in keys - {k} ==> attempts[j].epoch <= attempts[n].epoch;
      assert forall j :: j in keys ==> j == k || j in keys - {k};
      assert attempts[k].epoch <= attempts[n].epoch || forall j :: j in keys ==> attempts[j].epoch <= attempts[k].epoch;
    }
  }

  const NOTHING_TO_READ := Chunk([], 0, false)

  /** The two log tables. */
  class TaskLog {
    var streams: map<StreamKey, Stream>
    var rows: seq<Row>
    var lastId: nat

    function Contents(): Log
      reads this
    {
      Log(streams, rows, lastId)
    }

    constructor ()
      ensures Contents() == Log(map[], [], 0)
    {
      streams, rows, lastId := map[], [], 0;
    }

    /** The loop over a page's events: duplicates are counted, the rest stored while there is room. */
    method StoreEvents(key: StreamKey, st: Stream, p: Page) returns (t: Tally, stored: nat, duplicates: nat)
      requires Within(p.events, p.fromSeq, p.toSeq)
      modifies `rows, `lastId
      ensures var unseen := Window(p.events, st.lastSeq, p.toSeq);
              && t == Feed(st.tally, unseen)
              && stored == |Kept(st.tally, unseen)|
              && duplicates == |p.events| - |unseen|
              && rows == old(rows) + Rows(key, old(lastId), Kept(st.tally, unseen))
              && lastId == old(lastId) + stored
    {
      hide Window, Feed, Kept;
      t, stored, duplicates := st.tally, 0, 0;
      ghost var unseen, kept: seq<Event> := [], [];
      FeedNothing(t);
      NothingInWindow(st.lastSeq, p.toSeq);
      for i := 0 to |p.events|
        invariant unseen == Window(p.events[..i], st.lastSeq, p.toSeq) && kept == Kept(st.tally, unseen)
        invariant t == Feed(st.tally, unseen) && stored == |kept| && duplicates == i - |unseen|
        invariant rows == old(rows) + Rows(key, old(lastId), kept) && lastId == old(lastId) + stored
      {
        var e := p.events[i];
        WindowNext(p.events, i, st.lastSeq, p.toSeq);
        if e.seqNo <= st.lastSeq {
          duplicates := duplicates + 1;
          continue;
        }
        FeedNext(st.tally, unseen, e);
        unseen := unseen + [e];
        if t.limited || t.count >= MAX_STREAM_EVENTS || t.bytes + |e.raw| > MAX_STREAM_BYTES {
          t := t.(limited := true, dropped := t.dropped + 1);
          continue;
        }
        rows, lastId := rows + [Row(lastId + 1, key, e)], lastId + 1;
        t := t.(count := t.count + 1, bytes := t.bytes + |e.raw|);
        stored := stored + 1;
        kept := kept + [e];
      }
      assert p.events[..|p.events|] == p.events;
    }

    /** An accepted page: the stream row, the events there is room for, then the row's new counters. */
    method StorePage(key: StreamKey, st: Stream, p: Page) returns (ack: Ack)
      requires Within(p.events, p.fromSeq, p.toSeq)
      modifies this
      ensures Append(old(Contents()), key, st, p) == Answered(Contents(), ack)
    {
      hide Window, Feed, Kept, Rows;
      var next := Described(st, p);
      // The stream row must exist before events reference it.
      streams := streams[key := next];
      var t, stored, duplicates := StoreEvents(key, st, p);
      next := next.(tally := t);
      if p.toSeq > next.lastSeq {
        next := next.(lastSeq := p.toSeq);
      }
      if p.end {
        next := next.(ended := true);
      }
      streams := streams[key := next];
      return Ack(true, next.lastSeq, stored, duplicates, t.limited);
    }

    /** One page, as one transaction; `db` is what it reads from the coordinator's tables. */
    method AppendLog(db: Db, task: TaskId, worker: WorkerId, p: Page, now: Time)
      returns (ack: Ack, err: Option<LogError>)
      modifies this
      ensures match AppendTx(old(Contents()), db, task, worker, p, now)
              case Refused(e) => err == Some(e) && ack == NO_ACK && Contents() == old(Contents())
              case Answered(log, answer) => err == None && ack == answer && Contents() == log
    {
      hide ValidHeader, LogLease, StreamsOf, Append, Ascending;
      ack, err := NO_ACK, None;
      var valid := ValidatePage(p);
      if !valid {
        return NO_ACK, Some(InvalidPage);
      }
      if !LogLease(db, task, worker, p.fence, now) {
        return NO_ACK, Some(StaleLogLease);
      }
      var key := StreamKey(task, p.fence, p.invocation);
      var st: Stream;
      if key in streams {
        st := streams[key];
      } else {
        var siblings := StreamsOf(Contents(), task, p.fence);
        if |siblings| >= MAX_STREAMS {
          return NO_ACK, Some(InvalidPage);
        }
        st := NewStream(worker);
      }
      if st.worker != worker || st.purged {
        return NO_ACK, Some(StaleLogLease);
      }
      if st.runId != "" && p.runId != "" && st.runId != p.runId {
        return NO_ACK, Some(IdentityMismatch);
      }
      if st.ended && (p.availability != st.availability || |p.events| > 0 || p.toSeq > st.lastSeq) {
        return NO_ACK, Some(StaleLogLease);
      }
      if p.fromSeq > st.lastSeq {
        // Ahead of what is stored: the worker must resume from the controller's position.
        return Ack(false, st.lastSeq, 0, 0, st.tally.limited), None;
      }
      ack := StorePage(key, st, p);
      return ack, None;
    }

    /** The loop of `ReadLog` over the limit + 1 rows it fetched. */
    method ReadRows(task: TaskId, epoch: int, after: int, limit: int) returns (c: Chunk)
      ensures IsChunk(Selected(rows, task, epoch, after), after, limit, c)
    {
      hide Selected;
      assert Size([]) == 0;
      hide Size;
      var selected, n := Selected(rows, task, epoch, after), ReadLimit(limit);
      var fetched := if |selected| <= n then selected else selected[..n + 1];
      var bytes, entries, nextAfter := 0, [], after;
      for i := 0 to |fetched|
        invariant i <= n && entries == selected[..i] && bytes == Size(entries)
        invariant i > 1 ==> bytes <= MAX_READ_BYTES
        invariant nextAfter == if i == 0 then after else entries[i - 1].id
      {
        var r := fetched[i];
        SizeNext(selected, i);
        if i >= n || (i > 0 && bytes + |r.event.raw| > MAX_READ_BYTES) {
          return Chunk(entries, nextAfter, true);
        }
        bytes := bytes + |r.event.raw|;
        entries := entries + [r];
        nextAfter := r.id;
      }
      return Chunk(entries, nextAfter, false);
    }

    /** A bounded page of one epoch's output; epoch 0 selects the newest one. */
    method ReadLog(db: Db, task: TaskId, epoch: int, after: int, limit: int)
      returns (c: Chunk, shown: int, err: Option<LogError>)
      ensures err == if after < 0 || epoch < 0 then Some(InvalidPage) else if task !in db.cells then Some(StaleLogLease)
                else None
      ensures err.None? ==> (epoch != 0 || db.cells[task].attempts == map[] ==> shown == epoch)
      ensures err.None? && epoch == 0 && db.cells[task].attempts != map[] ==>
                exists k :: Newest(db.cells[task].attempts, k) && shown == db.cells[task].attempts[k].epoch
      ensures err.None? ==>
                if (exists k :: k in db.cells[task].attempts && db.cells[task].attempts[k].epoch == shown)
                  && StreamsOf(Contents(), task, shown) != {}
                then IsChunk(Selected(rows, task, shown, after), after, limit, c)
                else c == NOTHING_TO_READ
    {
      c, shown, err := NOTHING_TO_READ, epoch, None;
      if after < 0 || epoch < 0 {
        return c, shown, Some(InvalidPage);
      }
      if task !in db.cells {
        return c, shown, Some(StaleLogLease);
      }
      var attempts := db.cells[task].attempts;
      if epoch == 0 && attempts != map[] {
        NewestExists(attempts, attempts.Keys);
        var k :| k in attempts.Keys && forall j :: j in attempts.Keys ==> attempts[j].epoch <= attempts[k].epoch;
        assert Newest(attempts, k);
        shown := attempts[k].epoch;
      }
      if !(exists k :: k in attempts && attempts[k].epoch == shown) {
        return;
      }
      if StreamsOf(Contents(), task, shown) == {} {
        return;
      }
      c := ReadRows(task, shown, after, limit);
    }

    /**
     Deletes the events of the finished ones among the tasks not updated since the cutoff; the
     stream rows stay, marked as purged.
     */
    method PurgeLogs(db: Db, untouched: set<TaskId>) returns (removed: nat)
      modifies this
      ensures Contents() == PurgeTx(old(Contents()), Finished(db, untouched))
      ensures removed == |old(rows)| - |rows|
    {
      var tasks := Finished(db, untouched);
      var kept: seq<Row> := [];
      removed := 0;
      for i := 0 to |rows|
        invariant kept == Without(rows[..i], tasks)
        invariant removed == i - |kept|
      {
        assert rows[..i + 1][..i] == rows[..i];
        if rows[i].key.task in tasks {
          removed := removed + 1;
        } else {
          kept := kept + [rows[i]];
        }
      }
      assert rows[..|rows|] == rows;
      streams := map k | k in streams :: if k.task in tasks then streams[k].(purged := true) else streams[k];
      rows := kept;
    }
  }
}
