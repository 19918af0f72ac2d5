/** When a report is accepted, and which intents it then leaves: the loop over its effects in plain terms. */
module Intake {
  import opened Basics
  import opened TaskModel
  import opened Transactions
  import opened Queue
  import opened Columns

  /** The effect stays in the task's repository, and is a complete pull request or aims at the task's own number. */
  predicate Permitted(t: Task, report: Report, e: EffectRequest) {
    && e.repo == t.repo && e.kind != UnknownEffect
    && (e.kind == PrCreate ==> e.head != "" && e.base != "" && e.title != "" && report.headSha != "")
    && (e.kind != PrCreate ==> e.number > 0 && (e.number == t.issue || e.number == t.pr))
  }

  function KeyOf(t: Task, e: EffectRequest, i: nat): IntentKey {
    if e.kind == PrCreate then PrKey(t.id, e.head) else Slot(t.id, t.token, i)
  }

  function RequestedMarker(key: IntentKey, e: EffectRequest): Marker {
    if e.runId == "" then Derived(key) else Assigned(e.runId)
  }

  /** An earlier intent for this pull request that a retry under a newer token asks for again. */
  predicate Renewable(t: Task, e: EffectRequest, existing: Intent) {
    e.kind == PrCreate && existing.epoch < t.token
  }

  /** The intent stored under the effect's key, if any, is the same request, or is renewed. */
  predicate Compatible(t: Task, e: EffectRequest, i: nat, before: map<IntentKey, Intent>) {
    var key := KeyOf(t, e, i);
    key in before && !Renewable(t, e, before[key]) ==>
      before[key].payload == e && before[key].runId == RequestedMarker(key, e)
  }

  /** The effect's own request is stored: as a new pending intent, renewed as pending, or as it already was. */
  predicate Stored(t: Task, e: EffectRequest, i: nat, before: map<IntentKey, Intent>, after: map<IntentKey, Intent>) {
    var key := KeyOf(t, e, i);
    && key in after && after[key].payload == e && after[key].runId == RequestedMarker(key, e)
    && (key !in before ==>
          after[key] == Intent(key, t.token, if e.kind == PrCreate then -1 else i, e, RequestedMarker(key, e),
                          IntentPending, ""))
    && (key in before && Renewable(t, e, before[key]) ==>
          after[key] == before[key].(epoch := t.token, payload := e, runId := RequestedMarker(key, e),
                                     status := IntentPending))
    && (key in before && !Renewable(t, e, before[key]) ==> after[key] == before[key])
  }

  /** Each of the first `n` effects is stored, and nothing else was written. */
  ghost predicate StoredUpTo(t: Task, es: seq<EffectRequest>, n: nat, before: map<IntentKey, Intent>,
      after: map<IntentKey, Intent>)
    requires n <= |es|
  {
    && (forall i :: 0 <= i < n ==> Stored(t, es[i], i, before, after))
    && (forall k :: k in before ==> k in after)
    && (forall k :: k in after && (k in before ==> after[k] != before[k]) ==> Requested(t, es, n, k))
  }

  ghost predicate Requested(t: Task, es: seq<EffectRequest>, n: nat, key: IntentKey)
    requires n <= |es|
  {
    exists i :: 0 <= i < n && KeyOf(t, es[i], i) == key
  }

  /** A report asks for at most one pull request, however often. */
  predicate OnePullRequest(es: seq<EffectRequest>, i: nat)
    requires i < |es|
  {
    forall j :: 0 <= j < i && es[j].kind == PrCreate && es[i].kind == PrCreate ==> es[j] == es[i]
  }

  predicate Acceptable(t: Task, report: Report, i: nat, before: map<IntentKey, Intent>)
    requires i < |report.effects|
  {
    && Permitted(t, report, report.effects[i]) && Compatible(t, report.effects[i], i, before)
    && OnePullRequest(report.effects, i)
  }

  predicate HeadSoFar(es: seq<EffectRequest>, n: nat, prHead: string)
    requires n <= |es|
  {
    && (forall i :: 0 <= i < n && es[i].kind == PrCreate ==> es[i].head == prHead != "")
    && (prHead != "" ==> exists i :: 0 <= i < n && es[i].kind == PrCreate)
  }

  lemma PermittedIsValid(t: Task, report: Report, prHead: string, e: EffectRequest)
    ensures ValidEffect(t, report, prHead, e)
            <==> Permitted(t, report, e) && (e.kind == PrCreate ==> prHead == "" || prHead == e.head)
    ensures Permitted(t, report, e) && e.kind == PrCreate ==> e.head != ""
  {
  }

  lemma NewIntentColumns(t: Task, i: nat, e: EffectRequest)
    ensures var key := KeyOf(t, e, i);
            NewIntent(t, i, e) == Intent(key, t.token, if e.kind == PrCreate then -1 else i, e,
                                    RequestedMarker(key, e), IntentPending, "")
  {
  }

  /** Writing the effect's own key keeps what was stored for the others. */
  lemma StoredNext(t: Task, es: seq<EffectRequest>, i: nat, before: map<IntentKey, Intent>,
      cur: map<IntentKey, Intent>, next: map<IntentKey, Intent>)
    requires i < |es| && StoredUpTo(t, es, i, before, cur)
    requires KeyOf(t, es[i], i) in next && next == cur[KeyOf(t, es[i], i) := next[KeyOf(t, es[i], i)]]
    requires Stored(t, es[i], i, before, next)
    requires next == cur || !Requested(t, es, i, KeyOf(t, es[i], i))
    ensures StoredUpTo(t, es, i + 1, before, next)
  {
    var key := KeyOf(t, es[i], i);
    forall j | 0 <= j < i + 1
      ensures Stored(t, es[j], j, before, next)
    {
      if j < i {
        assert Stored(t, es[j], j, before, cur);
        assert next == cur || KeyOf(t, es[j], j) != key;
      }
    }
    hide Stored;
    forall k | k in next && (k in before ==> next[k] != before[k])
      ensures Requested(t, es, i + 1, k)
    {
      if k == key {
        assert KeyOf(t, es[i], i) == k;
      } else {
        assert Requested(t, es, i, k);
        var j :| 0 <= j < i && KeyOf(t, es[j], j) == k;
        assert 0 <= j < i + 1;
      }
    }
  }

  /** The first effect under its key meets the row that was there before the report. */
  lemma AcceptFirst(t: Task, report: Report, i: nat, before: map<IntentKey, Intent>, cur: map<IntentKey, Intent>)
    requires i < |report.effects| && StoredUpTo(t, report.effects, i, before, cur)
    requires !Requested(t, report.effects, i, KeyOf(t, report.effects[i], i))
    ensures var e := report.effects[i];
            var r := AcceptOne(t, i, e, cur);
            && (r.Ok? <==> Compatible(t, e, i, before))
            && (r.Ok? ==> StoredUpTo(t, report.effects, i + 1, before, r.value))
  {
    var e := report.effects[i];
    var key := KeyOf(t, e, i);
    NewIntentColumns(t, i, e);
    assert key in cur <==> key in before;
    assert key in before ==> cur[key] == before[key];
    hide StoredUpTo, Requested, NewIntent;
    var r := AcceptOne(t, i, e, cur);
    if r.Ok? {
      assert Stored(t, e, i, before, r.value);
      StoredNext(t, report.effects, i, before, cur, r.value);
    }
  }

  /** A pull request asked for again in the same report must be the same one. */
  lemma AcceptAgain(t: Task, report: Report, i: nat, j: nat, before: map<IntentKey, Intent>,
      cur: map<IntentKey, Intent>)
    requires j < i < |report.effects| && StoredUpTo(t, report.effects, i, before, cur)
    requires KeyOf(t, report.effects[j], j) == KeyOf(t, report.effects[i], i)
    ensures var e := report.effects[i];
            var r := AcceptOne(t, i, e, cur);
            && (r.Ok? <==> report.effects[j] == e)
            && (r.Ok? ==> Compatible(t, e, i, before) && StoredUpTo(t, report.effects, i + 1, before, r.value))
  {
    var e := report.effects[i];
    assert Stored(t, report.effects[j], j, before, cur);
    NewIntentColumns(t, i, e);
    hide StoredUpTo, NewIntent;
    var r := AcceptOne(t, i, e, cur);
    if r.Ok? {
      assert r.value == cur && Stored(t, e, i, before, cur);
      StoredNext(t, report.effects, i, before, cur, r.value);
    }
  }

  /** What one effect does once the earlier ones are stored. */
  lemma AcceptNext(t: Task, report: Report, i: nat, before: map<IntentKey, Intent>, cur: map<IntentKey, Intent>)
    requires i < |report.effects| && StoredUpTo(t, report.effects, i, before, cur)
    requires forall j :: 0 <= j < i ==> OnePullRequest(report.effects, j)
    requires forall j :: 0 <= j < i && report.effects[j].kind == PrCreate && report.effects[i].kind == PrCreate ==>
               report.effects[j].head == report.effects[i].head
    ensures var e := report.effects[i];
            var r := AcceptOne(t, i, e, cur);
            && (r.Ok? <==> Compatible(t, e, i, before) && OnePullRequest(report.effects, i))
            && (r.Ok? ==> StoredUpTo(t, report.effects, i + 1, before, r.value))
  {
    hide StoredUpTo, AcceptOne, Compatible;
    var es := report.effects;
    if j :| 0 <= j < i && KeyOf(t, es[j], j) == KeyOf(t, es[i], i) {
      assert es[j].kind == PrCreate && es[i].kind == PrCreate;
      AcceptAgain(t, report, i, j, before, cur);
      assert OnePullRequest(es, i) <==> es[j] == es[i] by {
        assert OnePullRequest(es, j);
        forall k | 0 <= k < i && es[k].kind == PrCreate ensures es[k] == es[j] {
          assert OnePullRequest(es, k);
        }
      }
    } else {
      AcceptFirst(t, report, i, before, cur);
      assert forall j :: 0 <= j < i ==> KeyOf(t, es[j], j) != KeyOf(t, es[i], i);
    }
  }

  lemma {:induction false} AcceptRest(t: Task, report: Report, i: nat, prHead: string, before: map<IntentKey, Intent>,
      cur: map<IntentKey, Intent>)
    requires i <= |report.effects| && StoredUpTo(t, report.effects, i, before, cur)
    requires HeadSoFar(report.effects, i, prHead) && forall j :: 0 <= j < i ==> OnePullRequest(report.effects, j)
    ensures var r := AcceptFrom(t, report, i, prHead, cur);
            && (r.Ok? <==> forall j :: i <= j < |report.effects| ==> Acceptable(t, report, j, before))
            && (r.Ok? ==> StoredUpTo(t, report.effects, |report.effects|, before, r.value))
    decreases |report.effects| - i
  {
    hide StoredUpTo, AcceptOne, Permitted, Compatible, ValidEffect;
    if i < |report.effects| {
      var e := report.effects[i];
      PermittedIsValid(t, report, prHead, e);
      if e.kind == PrCreate && prHead != "" && prHead != e.head {
        var j :| 0 <= j < i && report.effects[j].kind == PrCreate;
        assert !OnePullRequest(report.effects, i);
      }
      if ValidEffect(t, report, prHead, e) {
        assert forall j :: 0 <= j < i && report.effects[j].kind == PrCreate && e.kind == PrCreate ==>
            report.effects[j].head == prHead == e.head;
        AcceptNext(t, report, i, before, cur);
        var r := AcceptOne(t, i, e, cur);
        if r.Ok? {
          AcceptRest(t, report, i + 1, if e.kind == PrCreate then e.head else prHead, before, r.value);
        } else {
          assert !Acceptable(t, report, i, before);
        }
      } else {
        assert !Acceptable(t, report, i, before);
      }
    }
  }

  /**
   A report is accepted exactly when every effect is permitted, repeats no stored request
   differently, and all pull requests it asks for are one; then the intents are those it asks for.
   */
  lemma AcceptedExactly(t: Task, report: Report, before: map<IntentKey, Intent>)
    ensures var r := AcceptIntents(t, report, before);
            && (r.Ok? <==> report.shaped && |report.effects| <= 100
                           && forall i :: 0 <= i < |report.effects| ==> Acceptable(t, report, i, before))
            && (r.Err? ==> r.error == Invalid)
            && (r.Ok? ==> StoredUpTo(t, report.effects, |report.effects|, before, r.value))
  {
    if report.shaped && |report.effects| <= 100 {
      AcceptRest(t, report, 0, "", before, before);
    }
    RefusedIsInvalid(t, report, before);
  }
}
