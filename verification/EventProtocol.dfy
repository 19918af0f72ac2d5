/** The automaton that checks the events of one execution, and the language it accepts. */
module EventProtocol {
  import opened Basics

  datatype Event = Event(
    version: int,
    kind: string,
    runId: string,
    callerRunId: string,
    seqNo: int,
    session: string,
    backend: string,
    model: string,
    nativeType: string,
    status: string,
    exitCode: int,
    errorKind: string,
    /** The record carried both a status and an exit code. */
    outcomeGiven: bool)

  datatype Request = Request(requestId: string, resume: bool, sessionKey: string)

  /** The result record the process wrote when it exited. */
  datatype Outcome = Outcome(
    runId: string,
    callerRunId: string,
    nativeSession: string,
    backend: string,
    status: string,
    exitCode: int,
    errorKind: string)

  datatype Fault =
    | InvalidEvent
    | MissingStart
    | SessionMismatch
    | IdentityMismatch
    | DuplicateStart
    | UnknownEvent
    | OutputLimit
    | Truncated
    | InvalidFile
    | FileChanged
    | MissingEvents
    | MissingFinal
    | FinalMismatch

  /** What the reader remembers between events. */
  datatype Track = Track(count: nat, runId: string, session: string, backend: string, model: string,
      final: Option<Event>)

  const START := Track(0, "", "", "", "", None)

  /** The status of a final event agrees with its exit code and error kind. */
  predicate Coherent(e: Event) {
    && e.outcomeGiven && e.status in {"ok", "error", "timeout"}
    && (e.status == "ok" ==> e.exitCode == 0 && e.errorKind == "")
    && (e.status != "ok" ==> e.exitCode != 0)
  }

  /** The checks of `accept`, in their order; None accepts. */
  function Check(req: Request, t: Track, e: Event): Option<Fault> {
    if e.version != 1 || e.seqNo != t.count + 1 || e.callerRunId != req.requestId || !ValidId(e.runId) || t.final.Some?
        then Some(InvalidEvent)
    else if t.count == 0 && e.kind != "start" then Some(MissingStart)
    else if t.runId != "" && e.runId != t.runId then Some(InvalidEvent)
    else if e.session != "" && (!ValidId(e.session) || (t.session != "" && e.session != t.session) ||
        (req.resume && e.session != req.sessionKey)) then
      Some(SessionMismatch)
    else if (t.backend != "" && e.backend != "" && e.backend != t.backend) ||
        (e.kind != "final" && t.model != "" && e.model != "" && e.model != t.model) then
      Some(IdentityMismatch)
    else if e.kind == "start" then (if t.count != 0 then Some(DuplicateStart) else None)
    else if e.kind == "progress" then None
    else if e.kind == "final" then
      if (t.session != "" && e.session != t.session) || (t.backend != "" && e.backend != t.backend)
          then Some(IdentityMismatch)
      else if !Coherent(e) then Some(InvalidEvent)
      else None
    else Some(UnknownEvent)
  }

  function Advance(t: Track, e: Event): Track {
    Track(
      t.count + 1,
      e.runId,
      if e.session != "" then e.session else t.session,
      if e.backend != "" then e.backend else t.backend,
      if e.model != "" then e.model else t.model,
      if e.kind == "final" then Some(e) else t.final)
  }

  /** The automaton over a whole stream of events: None once one is refused. */
  function Run(req: Request, es: seq<Event>): Option<Track> {
    if es == [] then Some(START)
    else
      var before := Run(req, es[..|es| - 1]);
      if before.Some? && Check(req, before.value, es[|es| - 1]).None? then Some(Advance(before.value, es[|es| - 1]))
          else None
  }

  // ----- the language -----

  predicate Agree(a: string, b: string) {
    a == "" || b == "" || a == b
  }

  predicate Numbered(req: Request, es: seq<Event>) {
    forall i :: 0 <= i < |es| ==>
      es[i].version == 1 && es[i].seqNo == i + 1 && es[i].callerRunId == req.requestId && ValidId(es[i].runId)
  }

  /** start, progress*, and at most one final, which is last. */
  predicate Shaped(es: seq<Event>) {
    && (forall i :: 0 <= i < |es| ==>
        es[i].kind in {"start", "progress", "final"} && (es[i].kind == "start" <==> i == 0))
    && (forall i :: 0 <= i < |es| - 1 ==> es[i].kind != "final")
  }

  predicate OneIdentity(req: Request, es: seq<Event>) {
    && (forall i :: 0 <= i < |es| && es[i].session != "" ==>
        ValidId(es[i].session) && (req.resume ==> es[i].session == req.sessionKey))
    && (forall i, j :: 0 <= i < j < |es| ==>
          && es[i].runId == es[j].runId
          && Agree(es[i].session, es[j].session)
          && Agree(es[i].backend, es[j].backend)
          && (es[j].kind != "final" ==> Agree(es[i].model, es[j].model)))
  }

  /** A final event repeats the identity the stream has shown, with a coherent outcome. */
  predicate Concluded(es: seq<Event>) {
    forall i, j :: 0 <= i <= j < |es| && es[j].kind == "final" ==>
      && Coherent(es[j])
      && (es[i].session != "" ==> es[j].session == es[i].session)
      && (es[i].backend != "" ==> es[j].backend == es[i].backend)
  }

  predicate Legal(req: Request, es: seq<Event>) {
    Numbered(req, es) && Shaped(es) && OneIdentity(req, es) && Concluded(es)
  }

  /** The remembered value is one the stream has shown, and empty only if it never showed any. */
  predicate Remembers(es: seq<Event>, field: Event -> string, value: string) {
    && (forall i :: 0 <= i < |es| && field(es[i]) != "" ==> value != "")
    && (value != "" ==> exists i :: 0 <= i < |es| && field(es[i]) == value)
  }

  function SessionOf(e: Event): string { e.session }
  function BackendOf(e: Event): string { e.backend }
  function ModelOf(e: Event): string { e.model }

  predicate Tracks(es: seq<Event>, t: Track) {
    && t.count == |es|
    && t.runId == (if es == [] then "" else es[0].runId)
    && Remembers(es, SessionOf, t.session)
    && Remembers(es, BackendOf, t.backend)
    && Remembers(es, ModelOf, t.model)
    && t.final == if es != [] && es[|es| - 1].kind == "final" then Some(es[|es| - 1]) else None
  }

  lemma RemembersNext(es: seq<Event>, e: Event, field: Event -> string, value: string)
    requires Remembers(es, field, value)
    ensures Remembers(es + [e], field, if field(e) != "" then field(e) else value)
  {
    var all := es + [e];
    assert all[|es|] == e;
    if field(e) == "" && value != "" {
      var i :| 0 <= i < |es| && field(es[i]) == value;
      assert all[i] == es[i];
    }
  }

  lemma RunIdGiven(req: Request, es: seq<Event>, t: Track)
    requires Numbered(req, es) && Tracks(es, t) && es != []
    ensures t.runId != ""
  {
    assert ValidId(es[0].runId);
  }

  lemma TracksNext(req: Request, es: seq<Event>, t: Track, e: Event)
    requires Legal(req, es) && Tracks(es, t) && Check(req, t, e).None?
    ensures Tracks(es + [e], Advance(t, e))
  {
    hide Remembers, Concluded, OneIdentity, Coherent, ValidId;
    assert SessionOf(e) == e.session && BackendOf(e) == e.backend && ModelOf(e) == e.model;
    if es != [] {
      RunIdGiven(req, es, t);
    }
    RemembersNext(es, e, SessionOf, t.session);
    RemembersNext(es, e, BackendOf, t.backend);
    RemembersNext(es, e, ModelOf, t.model);
  }

  lemma Remembered(es: seq<Event>, field: Event -> string, value: string, i: nat)
    requires Remembers(es, field, value) && i < |es|
    requires forall j, k :: 0 <= j < k < |es| ==> Agree(field(es[j]), field(es[k]))
    ensures Agree(field(es[i]), value) && (field(es[i]) != "" ==> value != "")
  {
    if value != "" {
      var k :| 0 <= k < |es| && field(es[k]) == value;
      assert i < k || k < i || i == k;
    }
  }

  /** In a legal stream every value shown is the remembered one. */
  lemma ShownIsRemembered(req: Request, es: seq<Event>, t: Track, i: nat)
    requires Legal(req, es) && Tracks(es, t) && i < |es|
    ensures es[i].runId == t.runId && Agree(es[i].session, t.session) && Agree(es[i].backend, t.backend)
    ensures t.final.None? ==> Agree(es[i].model, t.model)
    ensures (es[i].session != "" ==> t.session != "") && (es[i].backend != "" ==> t.backend != "") &&
              (es[i].model != "" ==> t.model != "")
  {
    hide Coherent, ValidId, Concluded, Remembers, Numbered;
    assert forall j, k :: 0 <= j < k < |es| ==>
        Agree(SessionOf(es[j]), SessionOf(es[k])) && Agree(BackendOf(es[j]), BackendOf(es[k]));
    Remembered(es, SessionOf, t.session, i);
    Remembered(es, BackendOf, t.backend, i);
    if t.final.None? {
      assert forall k :: 0 <= k < |es| ==> es[k].kind != "final" by {
        assert es[|es| - 1].kind != "final";
      }
      assert forall j, k :: 0 <= j < k < |es| ==> Agree(ModelOf(es[j]), ModelOf(es[k]));
      Remembered(es, ModelOf, t.model, i);
    }
    ModelKnown(es, t, i);
  }

  lemma ModelKnown(es: seq<Event>, t: Track, i: nat)
    requires Tracks(es, t) && i < |es|
    ensures es[i].model != "" ==> t.model != ""
  {
    assert ModelOf(es[i]) == es[i].model;
  }

  lemma ShapeNext(req: Request, es: seq<Event>, t: Track, e: Event)
    requires Legal(req, es) && Tracks(es, t) && Check(req, t, e).None?
    ensures Numbered(req, es + [e]) && Shaped(es + [e])
  {
    hide Coherent, ValidId, Remembers, OneIdentity, Concluded;
    var all := es + [e];
    assert forall i :: 0 <= i < |es| ==> all[i] == es[i];
    assert all[|es|] == e;
  }

  lemma LegalNext(req: Request, es: seq<Event>, t: Track, e: Event)
    requires Legal(req, es) && Tracks(es, t) && Check(req, t, e).None?
    ensures Legal(req, es + [e])
  {
    hide Coherent, ValidId, Remembers;
    var all := es + [e];
    forall i | 0 <= i < |es|
      ensures all[i] == es[i] && es[i].runId == t.runId && Agree(es[i].session, t.session) &&
                Agree(es[i].backend, t.backend)
      ensures t.final.None? ==> Agree(es[i].model, t.model)
      ensures (es[i].session != "" ==> t.session != "") && (es[i].backend != "" ==> t.backend != "") &&
                (es[i].model != "" ==> t.model != "")
    {
      ShownIsRemembered(req, es, t, i);
    }
    assert all[|es|] == e;
    ShapeNext(req, es, t, e);
    hide Numbered, Shaped;
    forall i | 0 <= i < |es|
      ensures es[i].runId == e.runId && Agree(es[i].session, e.session) && Agree(es[i].backend, e.backend)
      ensures e.kind != "final" ==> Agree(es[i].model, e.model)
    {
      assert all[i] == es[i];
      RunIdGiven(req, es, t);
    }
    assert OneIdentity(req, all);
    assert Concluded(all);
  }

  lemma LegalOnly(req: Request, es: seq<Event>, t: Track, e: Event)
    requires Legal(req, es) && Tracks(es, t) && Legal(req, es + [e])
    ensures Check(req, t, e).None?
  {
    hide Coherent, ValidId;
    var all := es + [e];
    assert forall i :: 0 <= i < |es| ==> all[i] == es[i];
    assert all[|es|] == e;
  }

  lemma LegalPrefix(req: Request, es: seq<Event>, e: Event)
    requires Legal(req, es + [e])
    ensures Legal(req, es)
  {
    hide Coherent, ValidId;
    var all := es + [e];
    assert forall i :: 0 <= i < |es| ==> all[i] == es[i];
  }

  /** The automaton accepts exactly the legal streams, and remembers what they showed. */
  lemma {:induction false} AcceptsExactlyLegal(req: Request, es: seq<Event>)
    ensures Run(req, es).Some? <==> Legal(req, es)
    ensures Run(req, es).Some? ==> Tracks(es, Run(req, es).value)
  {
    hide Check, Advance, Legal, Tracks;
    if es == [] {
      assert Legal(req, []) && Tracks([], START) by {
        EmptyIsLegal(req);
      }
    } else {
      var init, e := es[..|es| - 1], es[|es| - 1];
      assert es == init + [e];
      AcceptsExactlyLegal(req, init);
      if Legal(req, es) {
        LegalPrefix(req, init, e);
        LegalOnly(req, init, Run(req, init).value, e);
      }
      if Run(req, es).Some? {
        LegalNext(req, init, Run(req, init).value, e);
        TracksNext(req, init, Run(req, init).value, e);
      }
    }
  }

  lemma EmptyIsLegal(req: Request)
    ensures Legal(req, []) && Tracks([], START)
  {
  }

  // ----- agreement with the result -----

  /** `finishStream`; None accepts. */
  function FinishStream(t: Track, r: Outcome): Option<Fault> {
    if t.final.None? then Some(MissingFinal)
    else
      var e := t.final.value;
      if t.runId != r.runId || e.callerRunId != r.callerRunId || e.session != r.nativeSession || e.backend != r.backend
         || e.status != r.status || e.exitCode != r.exitCode || e.errorKind != r.errorKind then Some(FinalMismatch)
      else if (t.session != "" && t.session != r.nativeSession) || (t.backend != "" && t.backend != r.backend)
          then Some(IdentityMismatch)
      else None
  }

  /** The result repeats the final event of the stream. */
  predicate Repeats(e: Event, r: Outcome) {
    r == Outcome(e.runId, e.callerRunId, e.session, e.backend, e.status, e.exitCode, e.errorKind)
  }

  /**
   A stream is finished exactly when it ends in a final event that the result repeats. The
   last identity check never refuses: the automaton has already made every event agree.
   */
  lemma FinishAcceptsExactly(req: Request, es: seq<Event>, r: Outcome)
    requires Run(req, es).Some?
    ensures FinishStream(Run(req, es).value, r).None? <==>
              es != [] && es[|es| - 1].kind == "final" && Repeats(es[|es| - 1], r)
    ensures FinishStream(Run(req, es).value, r) != Some(IdentityMismatch)
  {
    hide Run, Coherent, ValidId;
    AcceptsExactlyLegal(req, es);
  }
}
