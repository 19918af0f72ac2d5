/** How a decoded review report is normalized, judged and stored in a record. */
module Reports {
  import opened Basics
  import opened Texts
  import opened Review
  import opened Findings
  import opened ReviewLaws

  /** The decoded report. */
  datatype Output = Output(
    checks: seq<Check>,
    nextAction: string,
    nextOwner: string,
    status: Verdict,
    findings: seq<Finding>,
    summary: string,
    evidence: seq<string>)

  /** The judgements about free text that are not modelled. */
  datatype Reader = Reader(processRequirement: string -> bool, processGap: Finding -> bool)

  const PROCESS_NOTE :=
    " Historical/process-only findings are informational; the verdict follows the remaining criteria."

  // ----- process-only findings -----

  /**
   A failing finding without a location, and without an observation other than an unverified
   one, whose text only reports a process gap.
   */
  predicate ProcessOnly(reader: Reader, f: Finding) {
    && Failing(f) && f.locations == []
    && (f.observation.Some? ==> f.observation.value.result == Unverified)
    && reader.processGap(f)
  }

  function Informational(reader: Reader, fs: seq<Finding>): seq<Finding> {
    seq(|fs|, i requires 0 <= i < |fs| => if ProcessOnly(reader, fs[i]) then fs[i].(kind := Advisory) else fs[i])
  }

  method NormalizeProcessFindings(reader: Reader, fs: seq<Finding>) returns (out: seq<Finding>, changed: bool)
    ensures out == Informational(reader, fs)
    ensures changed <==> exists i :: 0 <= i < |fs| && ProcessOnly(reader, fs[i])
  {
    hide ProcessOnly;
    out, changed := fs, false;
    for i := 0 to |fs|
      invariant |out| == |fs|
      invariant forall j :: 0 <= j < i ==>
                  out[j] == if ProcessOnly(reader, fs[j]) then fs[j].(kind := Advisory) else fs[j]
      invariant forall j :: i <= j < |fs| ==> out[j] == fs[j]
      invariant changed <==> exists j :: 0 <= j < i && ProcessOnly(reader, fs[j])
    {
      if ProcessOnly(reader, out[i]) {
        out := out[i := out[i].(kind := Advisory)];
        changed := true;
      }
    }
    assert out == Informational(reader, fs);
  }

  // ----- missing evidence -----

  function Requirements(criteria: seq<Criterion>): map<string, string> {
    if criteria == [] then map[]
    else Requirements(criteria[..|criteria| - 1])[criteria[|criteria| - 1].id := criteria[|criteria| - 1].requirement]
  }

  predicate Names(req: map<string, string>, check: Check, requirement: string) {
    (if check.id in req then req[check.id] else "") == requirement
  }

  predicate StatedGap(check: Check) {
    check.status == Blocked && NonBlank(check.missing) && !Defective(check)
  }

  /**
   Nothing failed for this finding's requirement: it has checks, all blocked with a stated gap,
   and no failed observation of its own.
   */
  predicate GapOnly(req: map<string, string>, checks: seq<Check>, f: Finding) {
    && (f.kind == RequirementFinding || f.kind == DefectFinding)
    && !(f.observation.Some? && f.observation.value.result == FoundDefect)
    && NonBlank(f.requirement)
    && (exists i :: 0 <= i < |checks| && Names(req, checks[i], f.requirement))
    && (forall i :: 0 <= i < |checks| && Names(req, checks[i], f.requirement) ==> StatedGap(checks[i]))
  }

  predicate KnownOwner(owner: string) {
    Lower(Trim(owner)) in {"implementer", "implementation", "owner", "runner", "acceptance", "environment", "human"}
  }

  const ASK_EVIDENCE := "Provide the missing execution evidence, then run fresh acceptance"

  /** The result of `normalizeMissingEvidence`. */
  function GapsDowngraded(criteria: seq<Criterion>, o: Output): Output {
    var req := Requirements(criteria);
    var out := seq(|o.findings|, i requires 0 <= i < |o.findings| =>
                     if GapOnly(req, o.checks, o.findings[i]) then o.findings[i].(kind := Advisory) else o.findings[i]);
    if !(exists i :: 0 <= i < |o.findings| && GapOnly(req, o.checks, o.findings[i])) then o
    else
      o.(findings := out,
         status := if o.status == Failed && !AnyFailing(out) && !AnyCheck(o.checks, Failed) then Blocked else o.status,
         nextOwner := if KnownOwner(o.nextOwner) then o.nextOwner else "implementer",
         nextAction := if NonBlank(o.nextAction) then o.nextAction else ASK_EVIDENCE)
  }

  method IsGapOnly(req: map<string, string>, checks: seq<Check>, f: Finding) returns (gap: bool)
    ensures gap == GapOnly(req, checks, f)
  {
    hide NonBlank, Names;
    if f.kind != RequirementFinding && f.kind != DefectFinding {
      return false;
    }
    if f.observation.Some? && f.observation.value.result == FoundDefect {
      return false;
    }
    if !NonBlank(f.requirement) {
      return false;
    }
    var matched, ok := 0, true;
    for i := 0 to |checks|
      invariant matched > 0 <==> exists j :: 0 <= j < i && Names(req, checks[j], f.requirement)
      invariant matched >= 0
      invariant ok <==> forall j :: 0 <= j < i && Names(req, checks[j], f.requirement) ==> StatedGap(checks[j])
    {
      if !Names(req, checks[i], f.requirement) {
        continue;
      }
      matched := matched + 1;
      if checks[i].status != Blocked || !NonBlank(checks[i].missing) {
        ok := false;
      }
      var defect := false;
      for k := 0 to |checks[i].evidence|
        invariant defect <==> exists n :: 0 <= n < k && checks[i].evidence[n].result == FoundDefect
      {
        if checks[i].evidence[k].result == FoundDefect {
          defect := true;
        }
      }
      ok := ok && !defect;
    }
    return matched > 0 && ok;
  }

  method NormalizeMissingEvidence(criteria: seq<Criterion>, o: Output) returns (n: Output)
    ensures n == GapsDowngraded(criteria, o)
  {
    hide GapOnly, NonBlank, KnownOwner;
    var req: map<string, string> := map[];
    for i := 0 to |criteria|
      invariant req == Requirements(criteria[..i])
    {
      assert criteria[..i + 1][..i] == criteria[..i];
      req := req[criteria[i].id := criteria[i].requirement];
    }
    assert criteria[..|criteria|] == criteria;
    var out, changed := o.findings, false;
    for i := 0 to |o.findings|
      invariant |out| == |o.findings|
      invariant forall j :: 0 <= j < i ==>
                  out[j] == if GapOnly(req, o.checks, o.findings[j]) then o.findings[j].(kind := Advisory)
                      else o.findings[j]
      invariant forall j :: i <= j < |out| ==> out[j] == o.findings[j]
      invariant changed <==> exists j :: 0 <= j < i && GapOnly(req, o.checks, o.findings[j])
    {
      var gap := IsGapOnly(req, o.checks, out[i]);
      if gap {
        out := out[i := out[i].(kind := Advisory)];
        changed := true;
      }
    }
    if !changed {
      return o;
    }
    n := o.(findings := out);
    if o.status == Failed {
      var stillFailing := AnyFailing(out) || AnyCheck(o.checks, Failed);
      if !stillFailing {
        n := n.(status := Blocked);
      }
    }
    if !KnownOwner(o.nextOwner) {
      n := n.(nextOwner := "implementer");
    }
    if !NonBlank(o.nextAction) {
      n := n.(nextAction := ASK_EVIDENCE);
    }
    assert out == seq(|o.findings|, i requires 0 <= i < |o.findings| =>
                     if GapOnly(req, o.checks, o.findings[i]) then o.findings[i].(kind := Advisory) else o.findings[i]);
  }

  // ----- the whole report -----

  predicate Shaped(o: Output) {
    && o.status != OtherVerdict && NonBlank(o.summary) && o.evidence != []
    && (forall i :: 0 <= i < |o.evidence| ==> NonBlank(o.evidence[i]))
    && (forall i :: 0 <= i < |o.findings| ==> o.findings[i].kind != Unstructured)
  }

  const GATES := "Apply CI and merge gates"
  const REPAIR := "Repair the demonstrated defects, then run fresh acceptance"

  /** The last blocked check decides what is asked of the owner. */
  function AfterChecks(checks: seq<Check>): (Verdict, string, string) {
    if checks == [] then (Passed, "runner", GATES)
    else
      var last := checks[|checks| - 1];
      if last.status == Blocked then (Blocked, "owner", last.missing) else AfterChecks(checks[..|checks| - 1])
  }

  /** Process-only findings become informational; a failed verdict is recomputed from what remains. */
  function ProcessAdjusted(reader: Reader, o: Output): Output {
    if !(exists i :: 0 <= i < |o.findings| && ProcessOnly(reader, o.findings[i])) then o
    else
      var findings := Informational(reader, o.findings);
      var n := o.(findings := findings, summary := o.summary + PROCESS_NOTE);
      if o.status != Failed then n
      else if AnyFailing(findings) then n.(nextOwner := "implementation", nextAction := REPAIR)
      else
        var (status, owner, action) := AfterChecks(o.checks);
        n.(status := status, nextOwner := owner, nextAction := action)
  }

  const COMMAND := "command:"

  predicate ExecutedCommand(entry: string) {
    var t := Trim(entry);
    |t| > |COMMAND| && Lower(t[..|COMMAND|]) == COMMAND && NonBlank(t[|COMMAND|..])
  }

  predicate HasExecutedCommand(evidence: seq<string>) {
    exists i :: 0 <= i < |evidence| && ExecutedCommand(evidence[i])
  }

  /** The normalized output, before the requirement checks; None is a malformed report. */
  function Judged(c: Contract, p: Plan, reader: Reader, o: Output): Option<Output> {
    if !Shaped(o) then None
    else
      var a := ProcessAdjusted(reader, o);
      var n := if c.evidenceSchema == 1 then GapsDowngraded(p.criteria, a) else a;
      if !ValidFindings(n.findings) || (n.status == Failed && n.findings == []) then None
      else if c.evidenceSchema == 1 || n.status == Blocked then Some(n)
      else if AnyFailing(n.findings) then Some(n.(status := Failed))
      else if HasExecutedCommand(n.evidence) then Some(n.(status := Passed))
      else None
  }

  function Candidate(p: Plan, n: Output): Assessment {
    Assessment(p, n.nextAction, n.nextOwner, n.checks, n.findings, n.status)
  }

  class ReviewRecord {
    var plan: Plan
    var checks: seq<Check>
    var nextAction: string
    var nextOwner: string
    var findings: seq<Finding>
    var verdict: Verdict
    var report: string
    var evidence: seq<string>

    constructor (plan: Plan)
      ensures this.plan == plan && findings == [] && checks == [] && evidence == []
    {
      this.plan := plan;
      checks, nextAction, nextOwner, findings, verdict, report, evidence := [], "", "", [], OtherVerdict, "", [];
    }

    function Assessed(): Assessment
      reads this
    {
      Assessment(plan, nextAction, nextOwner, checks, findings, verdict)
    }

    method CheckShape(o: Output) returns (ok: bool)
      ensures ok <==> Shaped(o)
    {
      hide NonBlank;
      if o.status == OtherVerdict || !NonBlank(o.summary) || |o.evidence| == 0 {
        return false;
      }
      for i := 0 to |o.evidence|
        invariant forall j :: 0 <= j < i ==> NonBlank(o.evidence[j])
      {
        if !NonBlank(o.evidence[i]) {
          return false;
        }
      }
      for i := 0 to |o.findings|
        invariant forall j :: 0 <= j < i ==> o.findings[j].kind != Unstructured
      {
        if o.findings[i].kind == Unstructured {
          return false;
        }
      }
      return true;
    }

    method AdjustProcess(reader: Reader, o: Output) returns (n: Output)
      ensures n == ProcessAdjusted(reader, o)
    {
      hide ProcessOnly, Informational, Failing;
      var findings, normalized := NormalizeProcessFindings(reader, o.findings);
      n := o.(findings := findings);
      if normalized {
        n := n.(summary := o.summary + PROCESS_NOTE);
      } else {
        NothingInformational(reader, o.findings);
      }
      if normalized && n.status == Failed {
        n := n.(status := Passed, nextOwner := "runner", nextAction := GATES);
        for i := 0 to |o.checks|
          invariant n == o.(findings := findings, summary := o.summary + PROCESS_NOTE,
                            status := AfterChecks(o.checks[..i]).0,
                            nextOwner := AfterChecks(o.checks[..i]).1, nextAction := AfterChecks(o.checks[..i]).2)
        {
          assert o.checks[..i + 1][..i] == o.checks[..i];
          if o.checks[i].status == Blocked {
            n := n.(status := Blocked, nextOwner := "owner", nextAction := o.checks[i].missing);
          }
        }
        assert o.checks[..|o.checks|] == o.checks;
        ghost var before := n;
        for i := 0 to |findings|
          invariant n == if exists j :: 0 <= j < i && Failing(findings[j])
                         then before.(status := Failed, nextOwner := "implementation", nextAction := REPAIR) else before
        {
          if Failing(findings[i]) {
            n := n.(status := Failed, nextOwner := "implementation", nextAction := REPAIR);
          }
        }
      }
    }

    /** Applies a report: only a report that meets the rules is stored as judged, with its findings consolidated. */
    method Apply(c: Contract, reader: Reader, o: Output) returns (ok: bool)
      modifies this
      ensures plan == old(plan)
      ensures var n := Judged(c, plan, reader, o);
              && (ok <==> n.Some? && Valid(c, reader.processRequirement, Candidate(plan, n.value)))
              && (ok ==> Assessed() == Candidate(plan, n.value).(findings := Deduplicated(n.value.findings))
                         && report == n.value.summary && evidence == o.evidence)
              && (n.Some? && !ok ==>
                  Assessed() == Candidate(plan, n.value) && report == n.value.summary && evidence == old(evidence))
              && (n.None? ==> Assessed() == old(Assessed()) && report == old(report) && evidence == old(evidence))
    {
      hide Valid, Shaped, ProcessAdjusted, GapsDowngraded, ValidFindings, AnyFailing, Deduplicated, ExecutedCommand;
      var shaped := CheckShape(o);
      if !shaped {
        return false;
      }
      var n := AdjustProcess(reader, o);
      if c.evidenceSchema == 1 {
        n := NormalizeMissingEvidence(plan.criteria, n);
      }
      EvidenceUntouched(c, plan, reader, o);
      var failing, wellFormed := ValidateFindings(n.findings);
      if !wellFormed {
        return false;
      }
      if n.status == Failed && |n.findings| == 0 {
        return false;
      }
      if c.evidenceSchema != 1 && n.status != Blocked {
        if failing {
          n := n.(status := Failed);
        } else {
          n := n.(status := Passed);
        }
      }
      if c.evidenceSchema != 1 && n.status == Passed && !HasExecutedCommand(n.evidence) {
        return false;
      }
      findings := n.findings;
      checks, nextAction, nextOwner := n.checks, n.nextAction, n.nextOwner;
      verdict := n.status;
      report := n.summary;
      var valid := Validate(c, reader.processRequirement, Assessed());
      if !valid {
        return false;
      }
      findings := DeduplicateFindings(findings);
      evidence := o.evidence;
      return true;
    }
  }

  lemma NothingInformational(reader: Reader, fs: seq<Finding>)
    requires !exists i :: 0 <= i < |fs| && ProcessOnly(reader, fs[i])
    ensures Informational(reader, fs) == fs
  {
    hide ProcessOnly;
  }

  lemma EvidenceUntouched(c: Contract, p: Plan, reader: Reader, o: Output)
    ensures var a := ProcessAdjusted(reader, o);
            a.evidence == o.evidence && a.checks == o.checks && GapsDowngraded(p.criteria, a).evidence == o.evidence
            && GapsDowngraded(p.criteria, a).checks == o.checks
  {
    hide GapOnly, ProcessOnly, AnyFailing, KnownOwner, NonBlank, AnyCheck;
  }

  // ----- what normalization cannot do -----

  /** A demonstrated defect: a failing finding with a failed observation. */
  predicate Demonstrated(f: Finding) {
    Failing(f) && f.observation.Some? && f.observation.value.result == FoundDefect
  }

  /** Normalization leaves demonstrated defects as they are. */
  lemma DemonstratedStays(c: Contract, p: Plan, reader: Reader, o: Output, i: nat)
    requires i < |o.findings| && Demonstrated(o.findings[i]) && Judged(c, p, reader, o).Some?
    ensures var n := Judged(c, p, reader, o).value; |n.findings| == |o.findings| && n.findings[i] == o.findings[i]
  {
    hide AnyFailing, KnownOwner, NonBlank, AnyCheck, ValidFindings, HasExecutedCommand, Shaped, AfterChecks;
    var a := ProcessAdjusted(reader, o);
    assert |a.findings| == |o.findings| && a.findings[i] == o.findings[i];
    var n := GapsDowngraded(p.criteria, a);
    assert |n.findings| == |a.findings| && n.findings[i] == a.findings[i];
  }

  lemma DefectKeepsFailing(c: Contract, p: Plan, reader: Reader, o: Output, i: nat)
    requires i < |o.findings| && Demonstrated(o.findings[i]) && Judged(c, p, reader, o).Some?
    ensures AnyFailing(Judged(c, p, reader, o).value.findings) && AnyFailing(Informational(reader, o.findings))
  {
    DemonstratedStays(c, p, reader, o, i);
    assert Failing(Judged(c, p, reader, o).value.findings[i]);
    assert Failing(Informational(reader, o.findings)[i]);
  }

  /**
   An accepted report with a demonstrated defect is stored as failed, whatever verdict it
   claims, exactly when it is judged under evidence schema 1 or does not call itself blocked.
   Otherwise it stays blocked.
   */
  lemma DemonstratedDefectFails(c: Contract, p: Plan, reader: Reader, o: Output, i: nat)
    requires i < |o.findings| && Demonstrated(o.findings[i])
    requires Judged(c, p, reader, o).Some? &&
               Valid(c, reader.processRequirement, Candidate(p, Judged(c, p, reader, o).value))
    ensures Judged(c, p, reader, o).value.status == if c.evidenceSchema == 1 || o.status != Blocked then Failed
              else Blocked
  {
    var n := Judged(c, p, reader, o).value;
    DefectKeepsFailing(c, p, reader, o, i);
    hide Valid, Informational, AnyFailing;
    if c.evidenceSchema == 1 {
      hide Judged;
      VerdictIsDetermined(c, reader.processRequirement, Candidate(p, n), n.status);
      assert Candidate(p, n).(verdict := n.status) == Candidate(p, n);
    } else {
      StatusWithoutSchema(c, p, reader, o);
    }
  }

  /** The report calls itself blocked, or claims failure by process gaps only while a check is blocked. */
  predicate ComesOutBlocked(reader: Reader, o: Output) {
    || o.status == Blocked
    || (&& o.status == Failed && !AnyFailing(Informational(reader, o.findings)) && AnyCheck(o.checks, Blocked)
        && exists i :: 0 <= i < |o.findings| && ProcessOnly(reader, o.findings[i]))
  }

  lemma {:induction false} AfterChecksBlocks(checks: seq<Check>)
    ensures AfterChecks(checks).0 == if AnyCheck(checks, Blocked) then Blocked else Passed
  {
    if checks != [] {
      var init := checks[..|checks| - 1];
      AfterChecksBlocks(init);
      assert checks == init + [checks[|checks| - 1]];
    }
  }

  lemma StatusWithoutSchema(c: Contract, p: Plan, reader: Reader, o: Output)
    requires c.evidenceSchema != 1 && Judged(c, p, reader, o).Some?
    ensures var n := Judged(c, p, reader, o).value;
            n.status == if ComesOutBlocked(reader, o) then Blocked else if AnyFailing(n.findings) then Failed
                else Passed
  {
    hide AnyFailing, AnyCheck, AfterChecks, ProcessOnly, Informational, ValidFindings, HasExecutedCommand, Shaped;
    AfterChecksBlocks(o.checks);
  }

  /**
   The verdict that is stored follows from the checks and findings; without a schema, being
   blocked follows from the report's claim.
   */
  lemma StoredVerdict(c: Contract, p: Plan, reader: Reader, o: Output)
    requires Judged(c, p, reader, o).Some? &&
               Valid(c, reader.processRequirement, Candidate(p, Judged(c, p, reader, o).value))
    ensures var n := Judged(c, p, reader, o).value;
            if c.evidenceSchema == 1 then n.status == OnlyVerdict(o.checks, n.findings)
            else n.status == if ComesOutBlocked(reader, o) then Blocked else if AnyFailing(n.findings) then Failed
                else Passed
  {
    var n := Judged(c, p, reader, o).value;
    EvidenceUntouched(c, p, reader, o);
    if c.evidenceSchema == 1 {
      assert n.checks == o.checks;
      hide Valid, Judged;
      VerdictIsDetermined(c, reader.processRequirement, Candidate(p, n), n.status);
      assert Candidate(p, n).(verdict := n.status) == Candidate(p, n);
    } else {
      StatusWithoutSchema(c, p, reader, o);
    }
  }

  // ----- a defect that stays blocked -----

  const NO_SCHEMA := Contract(0, WORD, WORD)
  const NO_PLAN := Plan(None, [])
  const BLOCKED_DEFECT := Output([], WORD, WORD, Blocked, [Defect(WORD, WORD)], WORD, [WORD])

  predicate NoGap(f: Finding) {
    false
  }

  const PLAIN_READER := Reader(NeverProcessOnly, NoGap)

  /** Without an evidence schema a report that demonstrates a defect and calls itself blocked is accepted as blocked. */
  lemma DefectCanStayBlocked()
    ensures Demonstrated(BLOCKED_DEFECT.findings[0])
    ensures Judged(NO_SCHEMA, NO_PLAN, PLAIN_READER, BLOCKED_DEFECT) == Some(BLOCKED_DEFECT)
    ensures Valid(NO_SCHEMA, NeverProcessOnly, Candidate(NO_PLAN, BLOCKED_DEFECT))
  {
    Word();
    DefectIsValid(WORD, WORD);
    hide NonBlank, ValidFinding;
  }

  /** What is stored still meets the rules it was accepted under, when the planned requirements are separable. */
  lemma StoredRecordIsValid(c: Contract, p: Plan, reader: Reader, o: Output)
    requires Judged(c, p, reader, o).Some? &&
               Valid(c, reader.processRequirement, Candidate(p, Judged(c, p, reader, o).value))
    requires Separable(p.criteria)
    ensures var n := Judged(c, p, reader, o).value;
            Valid(c, reader.processRequirement, Candidate(p, n).(findings := Deduplicated(n.findings)))
  {
    var n := Judged(c, p, reader, o).value;
    if c.evidenceSchema == 1 {
      hide Valid, Judged, Separable;
      SeparableStaysValid(c, reader.processRequirement, Candidate(p, n));
    }
  }

  /** Downgrading gaps never turns a verdict into a pass, and doing it again changes nothing. */
  lemma GapsNeverPass(criteria: seq<Criterion>, o: Output)
    ensures GapsDowngraded(criteria, o).status == Passed ==> o.status == Passed
    ensures GapsDowngraded(criteria, GapsDowngraded(criteria, o)) == GapsDowngraded(criteria, o)
  {
    hide KnownOwner, NonBlank, AnyFailing, AnyCheck, StatedGap, Names;
    var req := Requirements(criteria);
    var n := GapsDowngraded(criteria, o);
    forall i | 0 <= i < |n.findings| ensures !GapOnly(req, n.checks, n.findings[i]) {
    }
  }
}
