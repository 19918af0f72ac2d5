/** How a report is normalized and which reports are refused, in terms of the report's fields. */
module ReportRules {
  import opened Basics
  import opened Texts
  import opened Review
  import opened Findings
  import opened Reports

  /** The finding reports a process gap and demonstrates nothing. */
  predicate ProcessNote(reader: Reader, f: Finding) {
    && f.kind in {RequirementFinding, DefectFinding, Unstructured} && f.locations == []
    && (f.observation.None? || f.observation.value.result == Unverified) && reader.processGap(f)
  }

  lemma {:induction false} LastBlocked(checks: seq<Check>)
    ensures var (status, owner, action) := AfterChecks(checks);
            || (status == Passed && owner == "runner" && action == "Apply CI and merge gates"
                && forall i :: 0 <= i < |checks| ==> checks[i].status != Blocked)
            || (status == Blocked && owner == "owner"
                && exists i :: 0 <= i < |checks| && checks[i].status == Blocked && checks[i].missing == action
                               && forall j :: i < j < |checks| ==> checks[j].status != Blocked)
  {
    if checks != [] && checks[|checks| - 1].status != Blocked {
      LastBlocked(checks[..|checks| - 1]);
    }
  }

  /**
   Process notes become advisory. A report that called itself failed for them is judged again:
   failed if another finding fails, else blocked by its last blocked check, else passed.
   */
  lemma ProcessRules(reader: Reader, o: Output)
    ensures var n := ProcessAdjusted(reader, o);
            var noted := exists i :: 0 <= i < |o.findings| && ProcessNote(reader, o.findings[i]);
            && n.checks == o.checks && n.evidence == o.evidence && |n.findings| == |o.findings|
            && (forall i :: 0 <= i < |o.findings| ==>
                  n.findings[i] == if ProcessNote(reader, o.findings[i]) then o.findings[i].(kind := Advisory)
                                   else o.findings[i])
            && (!noted ==> n == o)
            && (noted ==> n.summary == o.summary + PROCESS_NOTE)
            && (noted && o.status != Failed ==>
                  n.status == o.status && n.nextOwner == o.nextOwner && n.nextAction == o.nextAction)
            && (noted && o.status == Failed ==> Rejudged(o, n))
  {
    hide AfterChecks, Rejudged;
    if o.status == Failed {
      JudgedAgain(reader, o);
    }
    forall i | 0 <= i < |o.findings|
      ensures ProcessOnly(reader, o.findings[i]) <==> ProcessNote(reader, o.findings[i])
    {
    }
    hide ProcessNote, ProcessOnly;
    if i :| 0 <= i < |o.findings| && ProcessNote(reader, o.findings[i]) {
      assert ProcessOnly(reader, o.findings[i]);
    }
    if i :| 0 <= i < |o.findings| && ProcessOnly(reader, o.findings[i]) {
      assert ProcessNote(reader, o.findings[i]);
    } else {
      NothingInformational(reader, o.findings);
    }
  }

  lemma JudgedAgain(reader: Reader, o: Output)
    requires o.status == Failed
    ensures (exists i :: 0 <= i < |o.findings| && ProcessOnly(reader, o.findings[i])) ==>
              Rejudged(o, ProcessAdjusted(reader, o))
  {
    hide AfterChecks, Informational, ProcessOnly;
    LastBlocked(o.checks);
  }

  ghost predicate Rejudged(o: Output, n: Output) {
    var failing := exists i :: (0 <= i < |n.findings|
                                && n.findings[i].kind in {RequirementFinding, DefectFinding, Unstructured});
    if failing then
      && n.status == Failed && n.nextOwner == "implementation"
      && n.nextAction == "Repair the demonstrated defects, then run fresh acceptance"
    else
      || (n.status == Passed && n.nextOwner == "runner" && n.nextAction == "Apply CI and merge gates"
          && forall i :: 0 <= i < |o.checks| ==> o.checks[i].status != Blocked)
      || (n.status == Blocked && n.nextOwner == "owner"
          && exists i :: 0 <= i < |o.checks| && o.checks[i].status == Blocked && o.checks[i].missing == n.nextAction
                         && forall j :: i < j < |o.checks| ==> o.checks[j].status != Blocked)
  }

  // ----- stated gaps -----

  /** The requirement the plan's last criterion of this id names. */
  predicate Planned(criteria: seq<Criterion>, id: string, requirement: string) {
    exists k :: 0 <= k < |criteria| && criteria[k].id == id && criteria[k].requirement == requirement
                && forall j :: k < j < |criteria| ==> criteria[j].id != id
  }

  lemma {:induction false} RequirementsMean(criteria: seq<Criterion>, id: string, requirement: string)
    ensures id in Requirements(criteria) && Requirements(criteria)[id] == requirement
            <==> Planned(criteria, id, requirement)
  {
    if criteria != [] {
      var init, last := criteria[..|criteria| - 1], criteria[|criteria| - 1];
      RequirementsMean(init, id, requirement);
      if last.id == id && last.requirement == requirement {
        assert criteria[|criteria| - 1].id == id;
      }
      if k :| 0 <= k < |init| && init[k].id == id && init[k].requirement == requirement
              && forall j :: k < j < |init| ==> init[j].id != id {
        assert last.id != id ==> criteria[k].id == id && forall j :: k < j < |criteria| ==> criteria[j].id != id;
      }
      if k :| 0 <= k < |criteria| && criteria[k].id == id && criteria[k].requirement == requirement
              && forall j :: k < j < |criteria| ==> criteria[j].id != id {
        assert k < |init| ==> init[k].id == id && forall j :: k < j < |init| ==> init[j].id != id;
      }
    }
  }

  /** The checks of the finding's requirement are blocked with a stated gap, and nothing was seen to fail. */
  ghost predicate OnlyAGap(criteria: seq<Criterion>, checks: seq<Check>, f: Finding) {
    && f.kind in {RequirementFinding, DefectFinding} && NonBlank(f.requirement)
    && (f.observation.None? || f.observation.value.result != FoundDefect)
    && (exists i :: 0 <= i < |checks| && Planned(criteria, checks[i].id, f.requirement))
    && forall i :: 0 <= i < |checks| && Planned(criteria, checks[i].id, f.requirement) ==>
         && checks[i].status == Blocked && NonBlank(checks[i].missing)
         && forall e :: e in checks[i].evidence ==> e.result != FoundDefect
  }

  lemma GapMeans(criteria: seq<Criterion>, checks: seq<Check>, f: Finding)
    ensures GapOnly(Requirements(criteria), checks, f) <==> OnlyAGap(criteria, checks, f)
  {
    hide NonBlank, Planned, Requirements;
    BlankText();
    forall i | 0 <= i < |checks|
      ensures NonBlank(f.requirement) ==>
                (Names(Requirements(criteria), checks[i], f.requirement)
                 <==> Planned(criteria, checks[i].id, f.requirement))
      ensures StatedGap(checks[i]) <==> checks[i].status == Blocked && NonBlank(checks[i].missing)
                                        && forall e :: e in checks[i].evidence ==> e.result != FoundDefect
    {
      RequirementsMean(criteria, checks[i].id, f.requirement);
    }
    hide Names, StatedGap;
    if i :| 0 <= i < |checks| && Names(Requirements(criteria), checks[i], f.requirement) {
      assert NonBlank(f.requirement) ==> Planned(criteria, checks[i].id, f.requirement);
    }
    if i :| 0 <= i < |checks| && Planned(criteria, checks[i].id, f.requirement) {
      assert NonBlank(f.requirement) ==> Names(Requirements(criteria), checks[i], f.requirement);
    }
  }

  lemma BlankText()
    ensures !NonBlank("")
  {
  }

  /** Findings that are only gaps become advisory; then, and only then, the verdict may fall from failed to blocked. */
  lemma GapRules(criteria: seq<Criterion>, o: Output)
    ensures var n := GapsDowngraded(criteria, o);
            var gaps := exists i :: 0 <= i < |o.findings| && OnlyAGap(criteria, o.checks, o.findings[i]);
            && n.checks == o.checks && n.summary == o.summary && n.evidence == o.evidence
            && |n.findings| == |o.findings|
            && (forall i :: 0 <= i < |o.findings| ==>
                  n.findings[i] == if OnlyAGap(criteria, o.checks, o.findings[i]) then o.findings[i].(kind := Advisory)
                                   else o.findings[i])
            && (!gaps ==> n == o)
            && (n.status != o.status ==> o.status == Failed && n.status == Blocked)
            && (gaps && o.status == Failed ==>
                  (n.status == Failed <==> AnyFailing(n.findings) || AnyCheck(o.checks, Failed)))
            && (gaps ==> n.nextOwner == if KnownOwner(o.nextOwner) then o.nextOwner else "implementer")
            && (gaps ==> n.nextAction == if NonBlank(o.nextAction) then o.nextAction
                                         else "Provide the missing execution evidence, then run fresh acceptance")
  {
    hide NonBlank, KnownOwner, AnyFailing, AnyCheck, GapOnly, OnlyAGap, Requirements;
    forall i | 0 <= i < |o.findings|
      ensures GapOnly(Requirements(criteria), o.checks, o.findings[i]) <==> OnlyAGap(criteria, o.checks, o.findings[i])
    {
      GapMeans(criteria, o.checks, o.findings[i]);
    }
    if i :| 0 <= i < |o.findings| && GapOnly(Requirements(criteria), o.checks, o.findings[i]) {
      assert OnlyAGap(criteria, o.checks, o.findings[i]);
    }
    if i :| 0 <= i < |o.findings| && OnlyAGap(criteria, o.checks, o.findings[i]) {
      assert GapOnly(Requirements(criteria), o.checks, o.findings[i]);
    }
  }

  // ----- refused reports -----

  /** A report is malformed exactly when it lacks a verdict, a summary or evidence, or its verdict has no ground. */
  lemma RefusedExactly(c: Contract, p: Plan, reader: Reader, o: Output)
    ensures var a := ProcessAdjusted(reader, o);
            var n := if c.evidenceSchema == 1 then GapsDowngraded(p.criteria, a) else a;
            Judged(c, p, reader, o).None? <==>
              || o.status == OtherVerdict || !NonBlank(o.summary) || o.evidence == []
              || (exists i :: 0 <= i < |o.evidence| && !NonBlank(o.evidence[i]))
              || (exists i :: 0 <= i < |o.findings| && o.findings[i].kind == Unstructured)
              || (exists i :: 0 <= i < |n.findings| && !ValidFinding(n.findings[i]))
              || (n.status == Failed && n.findings == [])
              || (c.evidenceSchema != 1 && n.status != Blocked
                  && (forall i :: 0 <= i < |n.findings| ==>
                        n.findings[i].kind !in {RequirementFinding, DefectFinding, Unstructured})
                  && forall i :: 0 <= i < |o.evidence| ==> !ExecutedCommand(o.evidence[i]))
  {
    hide NonBlank, ProcessAdjusted, GapsDowngraded, ValidFinding, ExecutedCommand;
    EvidenceUntouched(c, p, reader, o);
  }
}
