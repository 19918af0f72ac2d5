/** Retention of the audit table: rows are deleted in batches, between which the table is free. */
module AuditPurge {
  import opened TaskModel

  datatype Audit = Audit(id: int, worker: WorkerId, task: TaskId, action: string, createdAt: Time)

  datatype Retention = Retention(routine: int, security: int, batch: int)

  const DEFAULT_RETENTION := 30 * 24 * 3600
  const DEFAULT_SECURITY_RETENTION := 180 * 24 * 3600
  const DEFAULT_BATCH := 1000

  /** Zero fields use defaults, and security rows are never kept for less than routine ones. */
  function Normalized(cfg: Retention): (r: Retention)
    ensures 0 < r.routine <= r.security && r.batch > 0
    ensures 0 < cfg.routine <= cfg.security && cfg.batch > 0 ==> r == cfg
  {
    var routine := if cfg.routine <= 0 then DEFAULT_RETENTION else cfg.routine;
    var security := if cfg.security <= 0 then DEFAULT_SECURITY_RETENTION else cfg.security;
    Retention(routine, if security < routine then routine else security, if cfg.batch <= 0 then DEFAULT_BATCH
        else cfg.batch)
  }

  /** LIKE 'prefix%suffix' */
  predicate Like(s: string, prefix: string, suffix: string) {
    |s| >= |prefix| + |suffix| && s[..|prefix|] == prefix && s[|s| - |suffix|..] == suffix
  }

  predicate Superseded(rows: seq<Audit>, r: Audit) {
    exists n :: n in rows && n.worker == r.worker && n.action == "heartbeat" && n.id > r.id
  }

  /** Rows with the short retention; the newest heartbeat of a worker is not one of them. */
  predicate Routine(rows: seq<Audit>, r: Audit) {
    || r.action in {"claim", "register", "token-verify", "http:claim:200"}
    || Like(r.action, "http:", ":200") || Like(r.action, "admin:", ":200")
    || (r.action == "heartbeat" && Superseded(rows, r))
  }

  /** Rows of either class created before its cutoff. */
  datatype Cuts = Cuts(routine: Time, security: Time)

  function CutsAt(now: Time, cfg: Retention): Cuts {
    Cuts(now - Normalized(cfg).routine, now - Normalized(cfg).security)
  }

  predicate Expired(rows: seq<Audit>, cuts: Cuts, r: Audit) {
    r.createdAt < if Routine(rows, r) then cuts.routine else cuts.security
  }

  predicate ById(rows: seq<Audit>) {
    forall i, j :: 0 <= i < j < |rows| ==> rows[i].id < rows[j].id
  }

  function Filter(rows: seq<Audit>, keep: Audit -> bool): seq<Audit> {
    if rows == [] then []
    else
      var r := rows[|rows| - 1];
      if keep(r) then Filter(rows[..|rows| - 1], keep) + [r] else Filter(rows[..|rows| - 1], keep)
  }

  function Both(p: Audit -> bool, q: Audit -> bool): Audit -> bool {
    (r: Audit) => p(r) && q(r)
  }

  function Outside(ids: seq<int>): Audit -> bool {
    (r: Audit) => r.id !in ids
  }

  function Unexpired(rows: seq<Audit>, cuts: Cuts): Audit -> bool {
    (r: Audit) => !Expired(rows, cuts, r)
  }

  function Unpurged(rows: seq<Audit>, cuts: Cuts, cursor: int): Audit -> bool {
    (r: Audit) => !(r.id <= cursor && Expired(rows, cuts, r))
  }

  /** One DELETE of everything the retention predicate selects on this table. */
  function PurgedAtOnce(rows: seq<Audit>, cuts: Cuts): seq<Audit> {
    Filter(rows, Unexpired(rows, cuts))
  }

  /** What is left when the expired rows up to `cursor` have been deleted. */
  function PurgedUpTo(rows: seq<Audit>, cuts: Cuts, cursor: int): seq<Audit> {
    Filter(rows, Unpurged(rows, cuts, cursor))
  }

  lemma {:induction false} FilterMembers(rows: seq<Audit>, keep: Audit -> bool)
    requires ById(rows)
    ensures forall r :: r in Filter(rows, keep) <==> r in rows && keep(r)
    ensures ById(Filter(rows, keep))
  {
    if rows != [] {
      var init, last := rows[..|rows| - 1], rows[|rows| - 1];
      FilterMembers(init, keep);
      assert rows == init + [last];
      var kept := Filter(init, keep);
      forall i | 0 <= i < |kept| ensures kept[i].id < last.id {
        assert kept[i] in kept;
        assert kept[i] in init;
      }
    }
  }

  lemma {:induction false} FiltersAgree(rows: seq<Audit>, p: Audit -> bool, q: Audit -> bool)
    requires forall r :: r in rows ==> p(r) == q(r)
    ensures Filter(rows, p) == Filter(rows, q)
  {
    if rows != [] {
      var init := rows[..|rows| - 1];
      assert forall r :: r in init ==> r in rows;
      assert rows[|rows| - 1] in rows;
      FiltersAgree(init, p, q);
    }
  }

  lemma {:induction false} FilterTwice(rows: seq<Audit>, p: Audit -> bool, q: Audit -> bool)
    ensures Filter(Filter(rows, p), q) == Filter(rows, Both(p, q))
  {
    if rows != [] {
      var init, last := rows[..|rows| - 1], rows[|rows| - 1];
      FilterTwice(init, p, q);
      var kept := Filter(init, p);
      assert (kept + [last])[..|kept|] == kept;
    }
  }

  lemma SameId(rows: seq<Audit>, a: Audit, b: Audit)
    requires ById(rows) && a in rows && b in rows && a.id == b.id
    ensures a == b
  {
  }

  /** Deleting rows up to the cursor changes no later row's class, although a heartbeat's class looks at other rows. */
  lemma LaterRowsKeepTheirClass(rows: seq<Audit>, cuts: Cuts, cursor: int, r: Audit)
    requires ById(rows) && r.id > cursor
    ensures Routine(PurgedUpTo(rows, cuts, cursor), r) == Routine(rows, r)
  {
    var left := PurgedUpTo(rows, cuts, cursor);
    FilterMembers(rows, Unpurged(rows, cuts, cursor));
    if Superseded(rows, r) {
      var n :| n in rows && n.worker == r.worker && n.action == "heartbeat" && n.id > r.id;
      assert n in left;
    }
  }

  /** The rows a batch selects: the first ones past the cursor, in id order, at most `batch`. */
  predicate IsBatch(rows: seq<Audit>, cuts: Cuts, cursor: int, batch: int, ids: seq<int>) {
    && (forall i, j :: 0 <= i < j < |ids| ==> ids[i] < ids[j])
    && |ids| <= batch
    && (forall id :: id in ids ==> id > cursor && exists r :: r in rows && r.id == id && Expired(rows, cuts, r))
    && (forall r :: r in rows && r.id > cursor && Expired(rows, cuts, r) ==>
          r.id in ids || (|ids| == batch && batch > 0 && r.id > ids[|ids| - 1]))
  }

  lemma BatchMember(rows: seq<Audit>, cuts: Cuts, cursor: int, batch: int, ids: seq<int>, r: Audit)
    requires ById(rows) && ids != [] && IsBatch(PurgedUpTo(rows, cuts, cursor), cuts, cursor, batch, ids) && r in rows
    ensures (Unpurged(rows, cuts, cursor)(r) && Outside(ids)(r)) == Unpurged(rows, cuts, ids[|ids| - 1])(r)
  {
    hide Routine, PurgedUpTo;
    var left, next := PurgedUpTo(rows, cuts, cursor), ids[|ids| - 1];
    assert next in ids;
    PurgedMembers(rows, cuts, cursor);
    if r.id > cursor {
      LaterRowsKeepTheirClass(rows, cuts, cursor, r);
      assert r in left;
      if r.id in ids {
        var s :| s in left && s.id == r.id && Expired(left, cuts, s);
        SameId(left, r, s);
        var k :| 0 <= k < |ids| && ids[k] == r.id;
      }
    }
  }

  lemma PurgedMembers(rows: seq<Audit>, cuts: Cuts, cursor: int)
    requires ById(rows)
    ensures ById(PurgedUpTo(rows, cuts, cursor))
    ensures forall r :: r in PurgedUpTo(rows, cuts, cursor) <==>
              r in rows && !(r.id <= cursor && Expired(rows, cuts, r))
  {
    FilterMembers(rows, Unpurged(rows, cuts, cursor));
  }

  /** One batch moves the cursor: what is left is what a purge up to its last id leaves. */
  lemma BatchAdvances(rows: seq<Audit>, cuts: Cuts, cursor: int, batch: int, ids: seq<int>)
    requires ById(rows) && ids != [] && IsBatch(PurgedUpTo(rows, cuts, cursor), cuts, cursor, batch, ids)
    ensures Filter(PurgedUpTo(rows, cuts, cursor), Outside(ids)) == PurgedUpTo(rows, cuts, ids[|ids| - 1])
    ensures ids[|ids| - 1] > cursor
  {
    hide Expired, Unpurged, Outside;
    var next := ids[|ids| - 1];
    assert next in ids;
    FilterTwice(rows, Unpurged(rows, cuts, cursor), Outside(ids));
    forall r | r in rows ensures Both(Unpurged(rows, cuts, cursor), Outside(ids))(r) == Unpurged(rows, cuts, next)(r) {
      BatchMember(rows, cuts, cursor, batch, ids, r);
    }
    FiltersAgree(rows, Both(Unpurged(rows, cuts, cursor), Outside(ids)), Unpurged(rows, cuts, next));
  }

  /** A batch that is not full was the last one. */
  lemma ShortBatchCompletes(rows: seq<Audit>, cuts: Cuts, cursor: int, batch: int, ids: seq<int>)
    requires ById(rows) && |ids| < batch && IsBatch(PurgedUpTo(rows, cuts, cursor), cuts, cursor, batch, ids)
    ensures PurgedUpTo(rows, cuts, if ids == [] then cursor else ids[|ids| - 1]) == PurgedAtOnce(rows, cuts)
  {
    var next := if ids == [] then cursor else ids[|ids| - 1];
    assert next >= cursor by {
      assert ids != [] ==> ids[|ids| - 1] in ids;
    }
    FilterMembers(rows, Unpurged(rows, cuts, cursor));
    forall r | r in rows ensures !(r.id <= next && Expired(rows, cuts, r)) == !Expired(rows, cuts, r) {
      if r.id > next {
        LaterRowsKeepTheirClass(rows, cuts, cursor, r);
        assert r in PurgedUpTo(rows, cuts, cursor);
        assert r.id !in ids;
      }
    }
    FiltersAgree(rows, Unpurged(rows, cuts, next), Unexpired(rows, cuts));
  }

  lemma {:induction false} FilterShrinks(rows: seq<Audit>, keep: Audit -> bool)
    ensures |Filter(rows, keep)| <= |rows|
    ensures (exists r :: r in rows && !keep(r)) ==> |Filter(rows, keep)| < |rows|
  {
    if rows != [] {
      var init, last := rows[..|rows| - 1], rows[|rows| - 1];
      FilterShrinks(init, keep);
      assert rows == init + [last];
    }
  }

  lemma DeletingShrinks(rows: seq<Audit>, cuts: Cuts, cursor: int, batch: int, ids: seq<int>)
    requires ById(rows) && (forall r :: r in rows ==> r.id > 0) && ids != [] && IsBatch(rows, cuts, cursor, batch, ids)
    ensures var left := Filter(rows, Outside(ids));
            |left| < |rows| && ById(left) && forall r :: r in left ==> r.id > 0
  {
    var keep := Outside(ids);
    FilterMembers(rows, keep);
    assert ids[0] in ids;
    var r :| r in rows && r.id == ids[0];
    assert !keep(r);
    FilterShrinks(rows, keep);
  }

  /** Before the first batch nothing has been purged. */
  lemma EmptyPurge(rows: seq<Audit>, cuts: Cuts)
    requires forall r :: r in rows ==> r.id > 0
    ensures PurgedUpTo(rows, cuts, 0) == rows
  {
    NothingPurged(rows, Unpurged(rows, cuts, 0));
  }

  lemma {:induction false} NothingPurged(rows: seq<Audit>, keep: Audit -> bool)
    requires forall r :: r in rows ==> keep(r)
    ensures Filter(rows, keep) == rows
  {
    if rows != [] {
      var init := rows[..|rows| - 1];
      assert forall r :: r in init ==> r in rows;
      assert rows[|rows| - 1] in rows;
      NothingPurged(init, keep);
      assert init + [rows[|rows| - 1]] == rows;
    }
  }

  /** The audit table, in id order. */
  class AuditTable {
    var rows: seq<Audit>

    ghost predicate Valid()
      reads this
    {
      ById(rows) && forall r :: r in rows ==> r.id > 0
    }

    method Select(cuts: Cuts, cursor: int, batch: int) returns (ids: seq<int>)
      requires Valid() && batch > 0
      ensures IsBatch(rows, cuts, cursor, batch, ids)
    {
      hide Expired;
      ids := [];
      for i := 0 to |rows|
        invariant forall j, k :: 0 <= j < k < |ids| ==> ids[j] < ids[k]
        invariant |ids| < batch && forall j :: 0 <= j < |ids| && i < |rows| ==> ids[j] < rows[i].id
        invariant forall id :: id in ids ==>
                    id > cursor && exists j :: 0 <= j < i && rows[j].id == id && Expired(rows, cuts, rows[j])
        invariant forall j :: 0 <= j < i && rows[j].id > cursor && Expired(rows, cuts, rows[j]) ==> rows[j].id in ids
      {
        if rows[i].id > cursor && Expired(rows, cuts, rows[i]) {
          ids := ids + [rows[i].id];
          if |ids| == batch {
            assert forall r :: r in rows[i + 1..] ==> r.id > rows[i].id;
            return;
          }
        }
      }
    }

    method Delete(ids: seq<int>) returns (affected: nat)
      requires Valid()
      modifies this
      ensures rows == Filter(old(rows), Outside(ids)) && affected == |old(rows)| - |rows|
    {
      var kept: seq<Audit> := [];
      affected := 0;
      ghost var keep := Outside(ids);
      for i := 0 to |rows|
        invariant kept == Filter(rows[..i], keep) && affected == i - |kept|
      {
        assert rows[..i + 1][..i] == rows[..i];
        if rows[i].id in ids {
          affected := affected + 1;
        } else {
          kept := kept + [rows[i]];
        }
      }
      assert rows[..|rows|] == rows;
      rows := kept;
    }

    /**
     Deletes expired rows in batches; `cancelled` says before which batch the caller's
     context ends. A complete purge equals one DELETE on the original table, whatever the
     batch size; a cancelled one has deleted the expired rows up to some id.
     */
    method PurgeAudit(now: Time, cfg: Retention, cancelled: nat -> bool) returns (total: nat, done: bool)
      requires Valid()
      modifies this
      ensures total == |old(rows)| - |rows|
      ensures done ==> rows == PurgedAtOnce(old(rows), CutsAt(now, cfg))
      ensures !done ==> exists cursor :: rows == PurgedUpTo(old(rows), CutsAt(now, cfg), cursor)
      ensures (forall i :: !cancelled(i)) ==> done
    {
      hide Expired, PurgedUpTo, PurgedAtOnce, IsBatch;
      var batch := Normalized(cfg).batch;
      var cuts := CutsAt(now, cfg);
      var cursor, batches := 0, 0;
      total := 0;
      ghost var all := rows;
      EmptyPurge(all, cuts);
      while true
        invariant Valid() && rows == PurgedUpTo(all, cuts, cursor)
        invariant total == |all| - |rows|
        decreases |rows|
      {
        if cancelled(batches) {
          return total, false;
        }
        var ids := Select(cuts, cursor, batch);
        if |ids| == 0 {
          ShortBatchCompletes(all, cuts, cursor, batch, ids);
          return total, true;
        }
        BatchAdvances(all, cuts, cursor, batch, ids);
        if |ids| < batch {
          ShortBatchCompletes(all, cuts, cursor, batch, ids);
        }
        DeletingShrinks(rows, cuts, cursor, batch, ids);
        cursor := ids[|ids| - 1];
        var affected := Delete(ids);
        total := total + affected;
        if |ids| < batch {
          return total, true;
        }
        batches := batches + 1;
      }
    }
  }

  // ----- what a purge keeps -----

  predicate NewestHeartbeat(rows: seq<Audit>, r: Audit) {
    r in rows && r.action == "heartbeat" && !Superseded(rows, r)
  }

  /** The newest heartbeat of each worker is deleted exactly when it is older than the security cutoff. */
  lemma NewestHeartbeatSurvives(rows: seq<Audit>, cuts: Cuts, r: Audit)
    requires ById(rows) && NewestHeartbeat(rows, r)
    ensures r in PurgedAtOnce(rows, cuts) <==> r.createdAt >= cuts.security
    ensures r in PurgedAtOnce(rows, cuts) ==> NewestHeartbeat(PurgedAtOnce(rows, cuts), r)
  {
    FilterMembers(rows, Unexpired(rows, cuts));
    assert r.action[..5] == "heart";
  }

  /**
   Purging again with the same cutoffs deletes nothing, although a purge can make another
   heartbeat the newest one.
   */
  lemma PurgeIsIdempotent(rows: seq<Audit>, cuts: Cuts)
    requires ById(rows) && cuts.security <= cuts.routine
    ensures PurgedAtOnce(PurgedAtOnce(rows, cuts), cuts) == PurgedAtOnce(rows, cuts)
  {
    var left := PurgedAtOnce(rows, cuts);
    FilterMembers(rows, Unexpired(rows, cuts));
    forall r | r in left ensures !Expired(left, cuts, r) {
      if Superseded(left, r) {
        var n :| n in left && n.worker == r.worker && n.action == "heartbeat" && n.id > r.id;
        assert n in rows;
      }
    }
    NothingPurged(left, Unexpired(left, cuts));
  }

  // ----- what is purged, in terms of the rows -----

  lemma LikeMeans(s: string, prefix: string, suffix: string)
    ensures Like(s, prefix, suffix) <==> exists middle :: s == prefix + middle + suffix
  {
    if Like(s, prefix, suffix) {
      assert s == prefix + s[|prefix|..|s| - |suffix|] + suffix;
    }
    if middle :| s == prefix + middle + suffix {
      assert s[..|prefix|] == prefix && s[|s| - |suffix|..] == suffix;
    }
  }

  /** Claims, registrations, token checks, successful calls, and heartbeats that are not their worker's last. */
  ghost predicate ShortLived(rows: seq<Audit>, r: Audit) {
    || r.action == "claim" || r.action == "register" || r.action == "token-verify"
    || (exists path :: r.action == "http:" + path + ":200")
    || (exists name :: r.action == "admin:" + name + ":200")
    || (r.action == "heartbeat"
        && exists n :: n in rows && n.action == "heartbeat" && n.worker == r.worker && n.id > r.id)
  }

  lemma RoutineMeans(rows: seq<Audit>, r: Audit)
    ensures Routine(rows, r) <==> ShortLived(rows, r)
  {
    LikeMeans(r.action, "http:", ":200");
    LikeMeans(r.action, "admin:", ":200");
    assert "http:claim:200" == "http:" + "claim" + ":200";
  }

  /** The seconds a row is kept: 30 days, or 180 for all but the short-lived rows, unless configured otherwise. */
  ghost function KeptFor(cfg: Retention, rows: seq<Audit>, r: Audit): int {
    var short := if cfg.routine > 0 then cfg.routine else 2_592_000;
    var long := if cfg.security > 0 then cfg.security else 15_552_000;
    if ShortLived(rows, r) || long < short then short else long
  }

  /** A purge leaves exactly the rows that are not older than they are kept. */
  lemma PurgeLeavesExactly(rows: seq<Audit>, now: Time, cfg: Retention, r: Audit)
    requires ById(rows)
    ensures r in PurgedAtOnce(rows, CutsAt(now, cfg)) <==> r in rows && now - r.createdAt <= KeptFor(cfg, rows, r)
  {
    FilterMembers(rows, Unexpired(rows, CutsAt(now, cfg)));
    RoutineMeans(rows, r);
    hide Routine, ShortLived;
  }
}
