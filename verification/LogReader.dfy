/** Following the read cursor of the execution log, while the log is still being written. */
module LogReader {
  import opened TaskModel
  import opened JobLog

  /** One request: the rows at that moment, its limit and what it returned. */
  datatype Read = Read(rows: seq<Row>, limit: int, out: Chunk)

  function Cursor(asked: seq<Read>): int {
    if asked == [] then 0 else asked[|asked| - 1].out.nextAfter
  }

  function Received(asked: seq<Read>): seq<Row> {
    if asked == [] then [] else Received(asked[..|asked| - 1]) + asked[|asked| - 1].out.entries
  }

  /** Each request continues from the cursor of the one before; meanwhile rows may only be appended. */
  predicate Follows(asked: seq<Read>, task: TaskId, epoch: int) {
    && (forall i :: 0 <= i < |asked| ==>
          InIdOrder(asked[i].rows) && (forall j :: 0 <= j < |asked[i].rows| ==> asked[i].rows[j].id > 0))
    && (forall i :: 0 < i < |asked| ==> asked[i - 1].rows <= asked[i].rows)
    && (forall i :: 0 <= i < |asked| ==>
          IsChunk(Selected(asked[i].rows, task, epoch, Cursor(asked[..i])), Cursor(asked[..i]), asked[i].limit,
              asked[i].out))
  }

  lemma {:induction false} SelectedJoins(a: seq<Row>, b: seq<Row>, task: TaskId, epoch: int, after: int)
    ensures Selected(a + b, task, epoch, after) == Selected(a, task, epoch, after) + Selected(b, task, epoch, after)
  {
    if b == [] {
      assert a + b == a;
    } else {
      SelectedJoins(a, b[..|b| - 1], task, epoch, after);
      assert (a + b)[..|a + b| - 1] == a + b[..|b| - 1];
    }
  }

  lemma {:induction false} NewRowsIgnoreCursor(rows: seq<Row>, task: TaskId, epoch: int, low: int, after: int)
    requires low <= after && forall i :: 0 <= i < |rows| ==> rows[i].id > after
    ensures Selected(rows, task, epoch, low) == Selected(rows, task, epoch, after)
  {
    if rows != [] {
      NewRowsIgnoreCursor(rows[..|rows| - 1], task, epoch, low, after);
    }
  }

  lemma {:induction false} SelectedAreRows(rows: seq<Row>, task: TaskId, epoch: int, after: int)
    ensures forall r :: r in Selected(rows, task, epoch, after) ==> r in rows && r.id > after
    ensures InIdOrder(rows) && rows != [] && after >= rows[|rows| - 1].id ==> Selected(rows, task, epoch, after) == []
  {
    if rows != [] {
      var init := rows[..|rows| - 1];
      SelectedAreRows(init, task, epoch, after);
      assert forall r :: r in init ==> r in rows;
      assert init != [] ==> init[|init| - 1] == rows[|rows| - 2];
    }
  }

  /** Moving the cursor past the first `n` selected rows selects the others. */
  lemma {:induction false} CursorSkips(rows: seq<Row>, task: TaskId, epoch: int, after: int, n: nat)
    requires InIdOrder(rows) && 0 < n <= |Selected(rows, task, epoch, after)|
    ensures var selected := Selected(rows, task, epoch, after);
            Selected(rows, task, epoch, selected[n - 1].id) == selected[n..]
  {
    var init, r := rows[..|rows| - 1], rows[|rows| - 1];
    var selected, before := Selected(rows, task, epoch, after), Selected(init, task, epoch, after);
    if n <= |before| {
      CursorSkips(init, task, epoch, after, n);
      SelectedAreRows(init, task, epoch, after);
      assert before[n - 1] in init && selected[n - 1] == before[n - 1];
      assert selected[n..] == if selected == before then before[n..] else before[n..] + [r];
    } else {
      assert selected[n - 1] == r;
      SelectedAreRows(rows, task, epoch, r.id);
    }
  }

  lemma ReceivedLast(asked: seq<Read>, task: TaskId, epoch: int)
    requires asked != [] && Follows(asked, task, epoch)
    ensures Follows(asked[..|asked| - 1], task, epoch)
    ensures |asked| > 1 ==> asked[..|asked| - 1][|asked| - 2].rows <= asked[|asked| - 1].rows
    ensures var last := asked[|asked| - 1];
            && InIdOrder(last.rows)
            && IsChunk(Selected(last.rows, task, epoch, Cursor(asked[..|asked| - 1])), Cursor(asked[..|asked| - 1]),
                last.limit, last.out)
  {
    hide Cursor, Selected, IsChunk;
    var init := asked[..|asked| - 1];
    assert forall i :: 0 <= i <= |init| ==> init[..i] == asked[..i];
  }

  lemma {:induction false} CursorIsBelow(asked: seq<Read>, task: TaskId, epoch: int)
    requires Follows(asked, task, epoch)
    ensures Cursor(asked) >= 0
    ensures Cursor(asked) == 0 || (asked != [] && exists r :: r in asked[|asked| - 1].rows && r.id == Cursor(asked))
  {
    if asked != [] {
      ReceivedLast(asked, task, epoch);
      var n := |asked| - 1;
      CursorIsBelow(asked[..n], task, epoch);
      SelectedAreRows(asked[n].rows, task, epoch, Cursor(asked[..n]));
      var entries := asked[n].out.entries;
      if entries != [] {
        assert entries[|entries| - 1] in Selected(asked[n].rows, task, epoch, Cursor(asked[..n]));
      } else if n > 0 && Cursor(asked) != 0 {
        var r :| r in asked[n - 1].rows && r.id == Cursor(asked);
        assert r in asked[n].rows;
      }
    }
  }

  /** Rows appended later have larger ids than any cursor handed out, so both selections grow by the same rows. */
  lemma AppendedRows(now: seq<Row>, rows: seq<Row>, task: TaskId, epoch: int, cursor: int)
    requires now <= rows && InIdOrder(rows)
    requires cursor == 0 || (cursor > 0 && exists r :: r in now && r.id == cursor)
    ensures Selected(rows, task, epoch, 0) == Selected(now, task, epoch, 0) + Selected(rows[|now|..], task, epoch, 0)
    ensures Selected(rows, task, epoch, cursor) ==
              Selected(now, task, epoch, cursor) + Selected(rows[|now|..], task, epoch, 0)
  {
    hide Selected;
    var later := rows[|now|..];
    assert rows == now + later;
    SelectedJoins(now, later, task, epoch, 0);
    SelectedJoins(now, later, task, epoch, cursor);
    if cursor > 0 {
      var r :| r in now && r.id == cursor;
      var k :| 0 <= k < |now| && now[k] == r;
      forall i | 0 <= i < |later| ensures later[i].id > cursor {
        assert rows[k] == r && later[i] == rows[|now| + i];
      }
      NewRowsIgnoreCursor(later, task, epoch, 0, cursor);
    }
  }

  /**
   Whatever was appended between the requests, the rows received so far and those still
   selected are together every row of the epoch, once and in order.
   */
  lemma {:induction false} NothingMissedOrRepeated(asked: seq<Read>, rows: seq<Row>, task: TaskId, epoch: int)
    requires Follows(asked, task, epoch) && InIdOrder(rows)
    requires asked != [] ==> asked[|asked| - 1].rows <= rows
    ensures Received(asked) + Selected(rows, task, epoch, Cursor(asked)) == Selected(rows, task, epoch, 0)
  {
    hide Selected, IsChunk, Follows, InIdOrder;
    if asked == [] {
      NothingReceived(task, epoch);
    } else {
      var n := |asked| - 1;
      var now := asked[n].rows;
      var cursor, next := Cursor(asked[..n]), Cursor(asked);
      ReceivedLast(asked, task, epoch);
      NothingMissedOrRepeated(asked[..n], now, task, epoch);
      ChunkAdvances(now, task, epoch, cursor, asked[n].limit, asked[n].out);
      CursorIsBelow(asked, task, epoch);
      AppendedRows(now, rows, task, epoch, next);
      var later := Selected(rows[|now|..], task, epoch, 0);
      Regroup(Received(asked[..n]), asked[n].out.entries, Selected(now, task, epoch, next), later);
    }
  }

  lemma NothingReceived(task: TaskId, epoch: int)
    ensures Received([]) == [] && Cursor([]) == 0
  {
  }

  lemma Regroup<T>(a: seq<T>, b: seq<T>, c: seq<T>, d: seq<T>)
    ensures (a + b) + (c + d) == (a + (b + c)) + d
  {
  }

  lemma ChunkAdvances(rows: seq<Row>, task: TaskId, epoch: int, cursor: int, limit: int, c: Chunk)
    requires InIdOrder(rows) && IsChunk(Selected(rows, task, epoch, cursor), cursor, limit, c)
    ensures Selected(rows, task, epoch, cursor) == c.entries + Selected(rows, task, epoch, c.nextAfter)
  {
    var selected := Selected(rows, task, epoch, cursor);
    if c.entries != [] {
      CursorSkips(rows, task, epoch, cursor, |c.entries|);
    }
    assert selected == c.entries + selected[|c.entries|..];
  }

  /**
   Following the cursor until no more is announced returns every row of the epoch exactly once,
   in order, whatever the row sizes.
   */
  lemma ReaderIsComplete(asked: seq<Read>, task: TaskId, epoch: int)
    requires Follows(asked, task, epoch) && asked != [] && !asked[|asked| - 1].out.hasMore
    ensures Received(asked) == Selected(asked[|asked| - 1].rows, task, epoch, 0)
  {
    var n := |asked| - 1;
    ReceivedLast(asked, task, epoch);
    NothingMissedOrRepeated(asked[..n], asked[n].rows, task, epoch);
    assert asked[n].out.entries == Selected(asked[n].rows, task, epoch, Cursor(asked[..n]));
  }

  /**
   A request that announces more returned at least one row, so a table at rest is exhausted
   within as many requests as it has rows.
   */
  lemma {:induction false} ReaderStops(asked: seq<Read>, task: TaskId, epoch: int)
    requires Follows(asked, task, epoch) && asked != []
    requires forall i :: 0 <= i < |asked| ==> asked[i].out.hasMore
    ensures |asked| <= |Received(asked)| < |Selected(asked[|asked| - 1].rows, task, epoch, 0)|
  {
    var n := |asked| - 1;
    ReceivedLast(asked, task, epoch);
    if n > 0 {
      ReaderStops(asked[..n], task, epoch);
    }
    NothingMissedOrRepeated(asked[..n], asked[n].rows, task, epoch);
    assert |asked[n].out.entries| < |Selected(asked[n].rows, task, epoch, Cursor(asked[..n]))|;
  }
}
