/** Which pages of an execution log are refused, and what an accepted one changes, in terms of the fields. */
module LogRules {
  import opened Basics
  import opened TaskModel
  import opened Transactions
  import opened Queue
  import opened JobLog

  /** Bounded header fields, and at most 1000 renderable events that ascend inside the announced window. */
  lemma PageRules(p: Page)
    ensures ValidPage(p) <==>
              && ValidId(p.invocation) && (p.runId != "" ==> ValidId(p.runId)) && p.availability in AVAILABILITIES
              && 0 <= p.fromSeq <= p.toSeq && |p.events| <= 1000
              && ByteLength(p.reason) <= 300 && ByteLength(p.model) <= 128
              && ByteLength(p.backend) <= 32 && ByteLength(p.state) <= 32 && ByteLength(p.completeness) <= 32
              && (p.events != [] ==> p.fromSeq < p.events[0].seqNo && p.events[|p.events| - 1].seqNo <= p.toSeq)
              && (forall i :: 0 < i < |p.events| ==> p.events[i - 1].seqNo < p.events[i].seqNo)
              && (forall i :: 0 <= i < |p.events| ==> p.events[i].kind in RENDERABLE)
  {
    hide ValidId, ByteLength;
    if forall i :: 0 < i < |p.events| ==> p.events[i - 1].seqNo < p.events[i].seqNo {
      StepsAscend(p.events);
    }
  }

  lemma {:induction false} StepsAscend(es: seq<Event>)
    requires forall i :: 0 < i < |es| ==> es[i - 1].seqNo < es[i].seqNo
    ensures forall i, j :: 0 <= i < j < |es| ==> es[i].seqNo < es[j].seqNo
  {
    if |es| > 1 {
      var init := es[..|es| - 1];
      StepsAscend(init);
      forall i | 0 <= i < |init| ensures es[i].seqNo < es[|es| - 1].seqNo {
        assert init[i].seqNo <= init[|init| - 1].seqNo;
      }
      assert forall i, j :: 0 <= i < j < |init| ==> es[i].seqNo < es[j].seqNo by {
        assert forall i :: 0 <= i < |init| ==> init[i] == es[i];
      }
    }
  }

  /** The caller holds the task's lease and has exactly one attempt row of its token. */
  ghost predicate Authorized(db: Db, task: TaskId, worker: WorkerId, fence: int, now: Time) {
    && task in db.cells
    && var t, rows := db.cells[task].task, db.cells[task].attempts;
       && t.state == Leased && t.owner == worker && t.token == fence && t.lease.Some?
       && (now < t.lease.value || t.payload.durable)
       && |set k | k in rows && rows[k].epoch == fence && rows[k].worker == worker| == 1
  }

  /** The stream takes no page of this worker, or none that says something new after its end. */
  predicate Closed(st: Stream, worker: WorkerId, p: Page) {
    || st.worker != worker || st.purged
    || (st.ended && (p.events != [] || p.availability != st.availability || st.lastSeq < p.toSeq))
  }

  /** The answer to a page for a stream that exists. */
  lemma AppendRules(log: Log, db: Db, task: TaskId, worker: WorkerId, p: Page, now: Time)
    requires var key := StreamKey(task, p.fence, p.invocation); key in log.streams
    ensures var key := StreamKey(task, p.fence, p.invocation);
            var st, r := log.streams[key], AppendTx(log, db, task, worker, p, now);
            var other := st.runId != "" && p.runId != "" && st.runId != p.runId;
            if !ValidPage(p) then r == Refused(InvalidPage)
            else if !Authorized(db, task, worker, p.fence, now) || st.worker != worker || st.purged
            then r == Refused(StaleLogLease)
            else if other then r == Refused(IdentityMismatch)
            else if Closed(st, worker, p) then r == Refused(StaleLogLease)
            else if st.lastSeq < p.fromSeq then r == Answered(log, Ack(false, st.lastSeq, 0, 0, st.tally.limited))
            else
              && r.Answered? && r.ack.accepted && Extends(log, r.log, key, p)
              && r.log.streams[key].lastSeq == (if st.lastSeq < p.toSeq then p.toSeq else st.lastSeq)
              && r.log.streams[key].worker == worker && r.log.streams[key].ended == (st.ended || p.end)
              && r.ack.lastSeq == r.log.streams[key].lastSeq && r.ack.stored == |r.log.rows| - |log.rows|
  {
    hide ValidPage, Window, Feed, Kept;
  }

  /** The answer to the first page of a stream: it opens one of at most 16 streams of the attempt. */
  lemma FirstPageRules(log: Log, db: Db, task: TaskId, worker: WorkerId, p: Page, now: Time)
    requires var key := StreamKey(task, p.fence, p.invocation); key !in log.streams
    ensures var key := StreamKey(task, p.fence, p.invocation);
            var r := AppendTx(log, db, task, worker, p, now);
            var open := set k | k in log.streams && k.task == task && k.epoch == p.fence;
            if !ValidPage(p) then r == Refused(InvalidPage)
            else if !Authorized(db, task, worker, p.fence, now) then r == Refused(StaleLogLease)
            else if |open| >= 16 then r == Refused(InvalidPage)
            else if p.fromSeq > 0 then r == Answered(log, Ack(false, 0, 0, 0, false))
            else
              && r.Answered? && r.ack.accepted && Extends(log, r.log, key, p)
              && r.log.streams[key].worker == worker && r.log.streams[key].lastSeq == p.toSeq == r.ack.lastSeq
              && r.log.streams[key].ended == p.end && !r.log.streams[key].purged
  {
    hide Window, Feed, Kept;
    assert (set k | k in log.streams && k.task == task && k.epoch == p.fence) == StreamsOf(log, task, p.fence);
  }

  /** No other stream changes, and rows are only appended, under fresh ids and for this stream. */
  ghost predicate Extends(log: Log, after: Log, key: StreamKey, p: Page) {
    && key in after.streams && after.streams == log.streams[key := after.streams[key]]
    && log.rows <= after.rows && after.lastId == log.lastId + |after.rows| - |log.rows|
    && forall i :: |log.rows| <= i < |after.rows| ==>
         after.rows[i].key == key && after.rows[i].id == log.lastId + 1 + i - |log.rows|
  }
}
