/** What the acceptance rules determine, and when consolidating findings keeps a report acceptable. */
module ReviewLaws {
  import opened Basics
  import opened Texts
  import opened Review
  import opened Findings

  // ----- the verdict -----

  function OnlyVerdict(checks: seq<Check>, fs: seq<Finding>): Verdict {
    if AnyFailing(fs) then Failed else if AnyCheck(checks, Blocked) then Blocked else Passed
  }

  /**
   A report that meets the rules meets them under no other verdict, and a report whose checks
   and findings meet them has one.
   */
  lemma VerdictIsDetermined(c: Contract, processOnly: string -> bool, r: Assessment, v: Verdict)
    requires c.evidenceSchema == 1 && Valid(c, processOnly, r)
    ensures Valid(c, processOnly, r.(verdict := v)) <==> v == OnlyVerdict(r.checks, r.findings)
  {
    hide ValidCriteria, NonBlank, ValidFindings;
    assert AnyCheck(r.checks, Failed) ==> AnyFailing(r.findings) by {
      FailedCheckHasFinding(c, r);
    }
    var s := r.(verdict := v);
    assert ValidChecks(c, s) && AllFailingValid(c, s) by {
      SameRules(c, r, s);
    }
  }

  lemma FailedCheckHasFinding(c: Contract, r: Assessment)
    requires Covers(r.plan.criteria, r.checks) && ValidChecks(c, r)
    ensures AnyCheck(r.checks, Failed) ==> AnyFailing(r.findings)
  {
    if AnyCheck(r.checks, Failed) {
      var i :| 0 <= i < |r.checks| && r.checks[i].status == Failed;
      assert HasCriterion(r.plan.criteria, r.checks[i].id);
      var k :| 0 <= k < |r.plan.criteria| && r.plan.criteria[k].id == r.checks[i].id;
      assert ValidCheck(c, r.plan.criteria[k], r.checks[i], r.findings);
    }
  }

  lemma SameRules(c: Contract, r: Assessment, s: Assessment)
    requires r.plan == s.plan && r.checks == s.checks && r.findings == s.findings
    ensures ValidChecks(c, r) == ValidChecks(c, s) && AllFailingValid(c, r) == AllFailingValid(c, s)
  {
    hide ValidCheck, Contains, NonBlank;
    forall f ensures Agrees(r, f) == Agrees(s, f) {
    }
  }

  // ----- keys and kinds -----

  /** Two texts followed by a separator that neither contains are equal when the wholes are. */
  lemma {:induction false} SplitAtNul(a: string, b: string, x: string, y: string)
    requires '\0' !in a && '\0' !in b && a + NUL + x == b + NUL + y
    ensures a == b && x == y
  {
    if a == "" || b == "" {
      assert (a + NUL + x)[0] == (b + NUL + y)[0];
      assert a == "" ==> (a + NUL + x)[0] == '\0';
      assert b == "" ==> (b + NUL + y)[0] == '\0';
      assert a == b;
      assert x == (a + NUL + x)[1..] == (b + NUL + y)[1..] == y;
    } else {
      assert (a + NUL + x)[0] == a[0] && (b + NUL + y)[0] == b[0];
      assert (a + NUL + x)[1..] == a[1..] + NUL + x;
      assert (b + NUL + y)[1..] == b[1..] + NUL + y;
      SplitAtNul(a[1..], b[1..], x, y);
    }
  }

  function AfterRequirement(f: Finding): string {
    Trim(f.defect) + if f.kind == Advisory || f.defect == "" then Trim(f.summary) else ""
  }

  lemma KeyParts(f: Finding)
    ensures Key(f) == KindName(f.kind) + NUL + (Trim(f.requirement) + NUL + AfterRequirement(f))
  {
    hide Trim;
    var k, r, d := KindName(f.kind), Trim(f.requirement), Trim(f.defect);
    var s := if f.kind == Advisory || f.defect == "" then Trim(f.summary) else "";
    assert k + NUL + r + NUL + d == k + NUL + (r + NUL + d);
    assert k + NUL + (r + NUL + d) + s == k + NUL + (r + NUL + (d + s));
  }

  lemma KindOfKey(f: Finding, g: Finding)
    requires Key(f) == Key(g) && ValidFinding(f) && ValidFinding(g)
    ensures f.kind == g.kind
    ensures '\0' !in f.requirement && '\0' !in g.requirement ==> Trim(f.requirement) == Trim(g.requirement)
  {
    hide Key, Trim, AfterRequirement, NonBlank, ValidLocation;
    KeyParts(f);
    KeyParts(g);
    var x, y := Trim(f.requirement) + NUL + AfterRequirement(f), Trim(g.requirement) + NUL + AfterRequirement(g);
    SplitAtNul(KindName(f.kind), KindName(g.kind), x, y);
    assert KindName(f.kind)[0] == KindName(g.kind)[0];
    if '\0' !in f.requirement && '\0' !in g.requirement {
      SplitAtNul(Trim(f.requirement), Trim(g.requirement), AfterRequirement(f), AfterRequirement(g));
    }
  }

  // ----- consolidation keeps everything but, possibly, a link -----

  lemma SurvivorIsValid(fs: seq<Finding>, g: Finding)
    requires ValidFindings(fs) && LocationsFrom(fs, g) && HasOrigin(fs, g)
    ensures ValidFinding(g)
  {
    hide NonBlank, ValidLocation, Key;
    var k :| 0 <= k < |fs| && GrownFrom(fs, g, k);
    forall i | 0 <= i < |g.locations| ensures ValidLocation(g.locations[i]) {
      assert g.locations[i] in g.locations;
      var j :| 0 <= j < |fs| && g.locations[i] in fs[j].locations;
      assert ValidFinding(fs[j]);
    }
    assert ValidFinding(fs[k]);
  }

  lemma SurvivorAgrees(c: Contract, r: Assessment, out: seq<Finding>, g: Finding)
    requires AllFailingValid(c, r) && HasOrigin(r.findings, g) && Failing(g)
    ensures ValidFailing(c, r.(findings := out), g)
  {
    hide NonBlank, Contains, Key, RequirementOf;
    var k :| 0 <= k < |r.findings| && GrownFrom(r.findings, g, k);
    assert ValidFailing(c, r, r.findings[k]);
    assert Agrees(r, r.findings[k]) ==> Agrees(r.(findings := out), g);
  }

  lemma FailingSurvives(fs: seq<Finding>)
    requires ValidFindings(fs)
    ensures AnyFailing(Deduplicated(fs)) == AnyFailing(fs)
  {
    hide Key, ValidFinding, Deduplicated, LocationsFrom;
    DeduplicatedSurvivors(fs);
    var out := Deduplicated(fs);
    if AnyFailing(out) {
      var i :| 0 <= i < |out| && Failing(out[i]);
      assert HasOrigin(fs, out[i]);
      var k :| 0 <= k < |fs| && GrownFrom(fs, out[i], k);
      GrownKey(fs[k], out[i]);
    }
    if AnyFailing(fs) {
      var j :| 0 <= j < |fs| && Failing(fs[j]);
      FirstExists(fs, j);
      var k :| 0 <= k <= j && FirstOfKey(fs, k) && Key(fs[k]) == Key(fs[j]);
      KindOfKey(fs[k], fs[j]);
      assert Survives(fs[k], out);
      var i :| 0 <= i < |out| && Grown(fs[k], out[i]);
      GrownKey(fs[k], out[i]);
    }
  }

  /** No finding before it has its key and another requirement. */
  predicate Unmixed(fs: seq<Finding>, i: nat)
    requires i < |fs|
  {
    forall j :: 0 <= j < i && Key(fs[j]) == Key(fs[i]) ==> fs[j].requirement == fs[i].requirement
  }

  /** Some failing finding names exactly this requirement and is not merged into one that does not. */
  predicate KeepsName(fs: seq<Finding>, requirement: string) {
    exists i :: 0 <= i < |fs| && Failing(fs[i]) && fs[i].requirement == requirement && Unmixed(fs, i)
  }

  lemma LinkSurvives(fs: seq<Finding>, requirement: string)
    requires ValidFindings(fs)
    ensures Linked(requirement, Deduplicated(fs)) <==> KeepsName(fs, requirement)
  {
    hide Key, ValidFinding, Deduplicated, ValidFindings, Survivors, Unmixed, Failing;
    DeduplicatedSurvivors(fs);
    if Linked(requirement, Deduplicated(fs)) {
      LinkHasOrigin(fs, Deduplicated(fs), requirement);
    }
    if KeepsName(fs, requirement) {
      var j :| 0 <= j < |fs| && Failing(fs[j]) && fs[j].requirement == requirement && Unmixed(fs, j);
      NameSurvives(fs, Deduplicated(fs), j);
    }
  }

  lemma LinkHasOrigin(fs: seq<Finding>, out: seq<Finding>, requirement: string)
    requires Survivors(fs, out) && Linked(requirement, out)
    ensures KeepsName(fs, requirement)
  {
    hide Key, NonBlank, LocationsFrom, Failing;
    var i :| 0 <= i < |out| && Failing(out[i]) && out[i].requirement == requirement;
    assert HasOrigin(fs, out[i]);
    var k :| 0 <= k < |fs| && GrownFrom(fs, out[i], k);
    GrownKey(fs[k], out[i]);
    assert Unmixed(fs, k);
  }

  lemma NameSurvives(fs: seq<Finding>, out: seq<Finding>, j: nat)
    requires Survivors(fs, out) && ValidFindings(fs) && j < |fs| && Failing(fs[j]) && Unmixed(fs, j)
    ensures Linked(fs[j].requirement, out)
  {
    hide Key, ValidFinding, NonBlank, LocationsFrom, Failing, HasOrigin;
    FirstExists(fs, j);
    var k :| 0 <= k <= j && FirstOfKey(fs, k) && Key(fs[k]) == Key(fs[j]);
    SameKindFails(fs[k], fs[j]);
    assert Survives(fs[k], out);
    var i :| 0 <= i < |out| && Grown(fs[k], out[i]);
    GrownKey(fs[k], out[i]);
    assert out[i].requirement == fs[j].requirement;
  }

  lemma SameKindFails(f: Finding, g: Finding)
    requires Key(f) == Key(g) && ValidFinding(f) && ValidFinding(g)
    ensures Failing(f) == Failing(g)
  {
    hide Key, ValidFinding;
    KindOfKey(f, g);
  }

  /** Every failed requirement keeps a finding of its own name. */
  predicate NamesKept(r: Assessment) {
    forall i, k :: (0 <= i < |r.checks| && 0 <= k < |r.plan.criteria| && r.checks[i].id == r.plan.criteria[k].id
                    && r.checks[i].status == Failed) ==>
      KeepsName(r.findings, r.plan.criteria[k].requirement)
  }

  /**
   Consolidating the findings of an acceptable report leaves it acceptable exactly when each
   failed requirement is named by a failing finding that no earlier one absorbs under a
   different requirement text.
   */
  lemma ConsolidationKeepsValid(c: Contract, processOnly: string -> bool, r: Assessment)
    requires c.evidenceSchema == 1 && Valid(c, processOnly, r)
    ensures Valid(c, processOnly, r.(findings := Deduplicated(r.findings))) <==> NamesKept(r)
  {
    hide ValidCriteria, Covers, NonBlank, Deduplicated, ValidCheck, ValidFinding, KeepsName, Failing, Survivors,
        AnyCheck, AnyFailing, LocationsFrom, HasOrigin;
    var out := Deduplicated(r.findings);
    var s := r.(findings := out);
    SurvivorsMeet(c, r);
    FailingSurvives(r.findings);
    forall i, k | 0 <= i < |r.checks| && 0 <= k < |r.plan.criteria| && r.checks[i].id == r.plan.criteria[k].id
      ensures ValidCheck(c, r.plan.criteria[k], r.checks[i], out)
              <==> (r.checks[i].status == Failed ==> KeepsName(r.findings, r.plan.criteria[k].requirement))
    {
      LinkSurvives(r.findings, r.plan.criteria[k].requirement);
      CheckWithFindings(c, r.plan.criteria[k], r.checks[i], r.findings, out);
    }
  }

  lemma SurvivorsMeet(c: Contract, r: Assessment)
    requires ValidFindings(r.findings) && AllFailingValid(c, r)
    ensures ValidFindings(Deduplicated(r.findings))
    ensures AllFailingValid(c, r.(findings := Deduplicated(r.findings)))
  {
    hide ValidFinding, ValidFailing, Failing, Deduplicated, LocationsFrom, HasOrigin, Key;
    DeduplicatedSurvivors(r.findings);
    var out := Deduplicated(r.findings);
    forall i | 0 <= i < |out|
        ensures ValidFinding(out[i]) && (Failing(out[i]) ==> ValidFailing(c, r.(findings := out), out[i])) {
      SurvivorIsValid(r.findings, out[i]);
      if Failing(out[i]) {
        SurvivorAgrees(c, r, out, out[i]);
      }
    }
  }

  lemma CheckWithFindings(c: Contract, item: Criterion, check: Check, fs: seq<Finding>, out: seq<Finding>)
    requires ValidCheck(c, item, check, fs)
    ensures ValidCheck(c, item, check, out) <==> (check.status == Failed ==> Linked(item.requirement, out))
  {
  }

  // ----- plans for which it always does -----

  /**
   Requirement texts that stay apart in keys: no separator inside, and none that differ only in
   surrounding white space.
   */
  predicate Separable(criteria: seq<Criterion>) {
    && (forall k :: 0 <= k < |criteria| ==> '\0' !in criteria[k].requirement)
    && (forall i, j :: (0 <= i < |criteria| && 0 <= j < |criteria|
                        && Trim(criteria[i].requirement) == Trim(criteria[j].requirement)) ==>
          criteria[i].requirement == criteria[j].requirement)
  }

  /** A failing finding either names a planned requirement exactly, or none at all. */
  lemma NamesPlanned(c: Contract, r: Assessment, f: Finding)
    requires AllFailingValid(c, r) && f in r.findings && Failing(f)
    ensures NonBlank(f.requirement) ==>
              exists k :: 0 <= k < |r.plan.criteria| && r.plan.criteria[k].requirement == f.requirement
  {
    hide NonBlank, Contains;
    if NonBlank(f.requirement) {
      assert Agrees(r, f);
      var i :| 0 <= i < |r.checks| && RequirementOf(r.plan.criteria, r.checks[i].id, f.requirement);
    }
  }

  lemma BlankHasNoNul(s: string)
    requires !NonBlank(s)
    ensures '\0' !in s
  {
    TrimBlank(s);
    assert !IsSpace('\0');
  }

  lemma NameIsUnmixed(c: Contract, r: Assessment, k: nat, n: nat)
    requires Separable(r.plan.criteria) && AllFailingValid(c, r) && ValidFindings(r.findings)
    requires k < |r.plan.criteria| && NonBlank(r.plan.criteria[k].requirement)
    requires n < |r.findings| && Failing(r.findings[n]) && r.findings[n].requirement == r.plan.criteria[k].requirement
    ensures Unmixed(r.findings, n)
  {
    hide Key, Trim, ValidFinding, ValidFailing, Failing;
    var g := r.findings[n];
    forall j | 0 <= j < n && Key(r.findings[j]) == Key(g) ensures r.findings[j].requirement == g.requirement {
      var f := r.findings[j];
      SameKindFails(f, g);
      NamesPlanned(c, r, f);
      if NonBlank(f.requirement) {
        var m :| 0 <= m < |r.plan.criteria| && r.plan.criteria[m].requirement == f.requirement;
      } else {
        BlankHasNoNul(f.requirement);
      }
      KindOfKey(f, g);
    }
  }

  /** With separable requirements, consolidation keeps every acceptable report acceptable, whatever its findings say. */
  lemma SeparableStaysValid(c: Contract, processOnly: string -> bool, r: Assessment)
    requires c.evidenceSchema == 1 && Valid(c, processOnly, r) && Separable(r.plan.criteria)
    ensures Valid(c, processOnly, r.(findings := Deduplicated(r.findings)))
  {
    hide NonBlank, Deduplicated, ValidFinding, Failing, Key, Contains, Separable, Unmixed, ValidFailing, Covers,
        VerdictAllowed;
    ConsolidationKeepsValid(c, processOnly, r);
    forall i, k | 0 <= i < |r.checks| && 0 <= k < |r.plan.criteria| && r.checks[i].id == r.plan.criteria[k].id &&
        r.checks[i].status == Failed
      ensures KeepsName(r.findings, r.plan.criteria[k].requirement)
    {
      assert ValidCheck(c, r.plan.criteria[k], r.checks[i], r.findings);
      assert ValidCriterion(c, processOnly, r.plan.criteria[k]);
      var n :| 0 <= n < |r.findings| && Failing(r.findings[n]) &&
          r.findings[n].requirement == r.plan.criteria[k].requirement;
      NameIsUnmixed(c, r, k, n);
    }
  }

  // ----- plans for which it need not -----

  const WORD := "x"

  function FailedEvidence(head: string): Evidence {
    Evidence(None, SourceEvidence, WORD, WORD, head, FoundDefect)
  }

  function Defect(head: string, requirement: string): Finding {
    Finding(Some(FailedEvidence(head)), [], RequirementFinding, WORD, requirement, WORD, WORD)
  }

  function FailedCheck(head: string, id: string): Check {
    Check(id, Failed, [FailedEvidence(head)], "")
  }

  /** A report in which every criterion failed, each with a finding of its own. */
  function AllFailed(head: string, p: Plan): Assessment {
    Assessment(
      p, WORD, WORD,
      seq(|p.criteria|, k requires 0 <= k < |p.criteria| => FailedCheck(head, p.criteria[k].id)),
      seq(|p.criteria|, k requires 0 <= k < |p.criteria| => Defect(head, p.criteria[k].requirement)),
      Failed)
  }

  lemma Word()
    ensures NonBlank(WORD)
  {
    TrimLeftKeeps(WORD);
    assert TrimRight(WORD) == WORD;
  }

  lemma FailedEvidenceIsValid(c: Contract)
    requires NonBlank(c.headSha)
    ensures ValidEvidence(c, FailedEvidence(c.headSha)) && FailedEvidence(c.headSha).result == FoundDefect
  {
    Word();
    hide NonBlank, Missing;
  }

  lemma FailedCheckIsValid(c: Contract, item: Criterion, id: string, fs: seq<Finding>)
    requires NonBlank(c.headSha) && Linked(item.requirement, fs)
    ensures ValidCheck(c, item, FailedCheck(c.headSha, id), fs)
  {
    FailedEvidenceIsValid(c);
    var check := FailedCheck(c.headSha, id);
    assert check.evidence[0] == FailedEvidence(c.headSha);
    hide ValidEvidence, NonBlank, FailedEvidence, Linked;
  }

  lemma DefectIsValid(head: string, requirement: string)
    requires NonBlank(requirement)
    ensures Failing(Defect(head, requirement)) && ValidFinding(Defect(head, requirement))
    ensures Defect(head, requirement).requirement == requirement
  {
    Word();
    hide NonBlank;
  }

  lemma DefectAgrees(c: Contract, r: Assessment, requirement: string)
    requires Contains(c.requirements, requirement) && Agrees(r, Defect(c.headSha, requirement))
    ensures ValidFailing(c, r, Defect(c.headSha, requirement))
  {
    Word();
    hide NonBlank, Contains, Agrees;
  }

  lemma AllFailedAt(head: string, p: Plan, k: nat)
    requires k < |p.criteria|
    ensures var r := AllFailed(head, p);
            && r.plan == p && |r.checks| == |p.criteria| == |r.findings|
            && r.checks[k] == FailedCheck(head, p.criteria[k].id) &&
                r.findings[k] == Defect(head, p.criteria[k].requirement)
  {
  }

  lemma AllFailedChecks(c: Contract, p: Plan)
    requires DistinctIds(p.criteria) && NonBlank(c.headSha)
    requires forall k :: 0 <= k < |p.criteria| ==> NonBlank(p.criteria[k].requirement)
    ensures Covers(p.criteria, AllFailed(c.headSha, p).checks) && ValidChecks(c, AllFailed(c.headSha, p))
  {
    var r := AllFailed(c.headSha, p);
    forall k | 0 <= k < |p.criteria|
      ensures r.checks[k].id == p.criteria[k].id && ValidCheck(c, p.criteria[k], r.checks[k], r.findings)
      ensures HasCriterion(p.criteria, r.checks[k].id) && HasCheck(r.checks, p.criteria[k].id)
    {
      AllFailedAt(c.headSha, p, k);
      DefectIsValid(c.headSha, p.criteria[k].requirement);
      hide Failing, ValidFinding, NonBlank, Defect, AllFailed;
      assert Linked(p.criteria[k].requirement, r.findings);
      FailedCheckIsValid(c, p.criteria[k], p.criteria[k].id, r.findings);
      hide ValidCheck;
    }
    hide ValidCheck;
  }

  lemma AllFailedFinding(c: Contract, processOnly: string -> bool, p: Plan, k: nat)
    requires ValidCriteria(c, processOnly, p) && k < |p.criteria|
    ensures var r := AllFailed(c.headSha, p);
            Failing(r.findings[k]) && ValidFinding(r.findings[k]) && ValidFailing(c, r, r.findings[k])
  {
    var r := AllFailed(c.headSha, p);
    var requirement := p.criteria[k].requirement;
    forall i | 0 <= i < |p.criteria| ensures r.checks[i] == FailedCheck(c.headSha, p.criteria[i].id) {
      AllFailedAt(c.headSha, p, i);
    }
    AllFailedAt(c.headSha, p, k);
    assert NonBlank(requirement) && Contains(c.requirements, requirement) by {
      assert ValidCriterion(c, processOnly, p.criteria[k]);
    }
    hide NonBlank, Contains, Failing, ValidFinding, Defect, ValidCriteria, AllFailed, ValidFailing, FailedEvidence;
    DefectIsValid(c.headSha, requirement);
    assert RequirementOf(p.criteria, r.checks[k].id, requirement);
    assert Agrees(r, Defect(c.headSha, requirement));
    DefectAgrees(c, r, requirement);
  }

  lemma AllFailedIsValid(c: Contract, processOnly: string -> bool, p: Plan)
    requires ValidCriteria(c, processOnly, p) && NonBlank(c.headSha)
    ensures Valid(c, processOnly, AllFailed(c.headSha, p))
  {
    var r := AllFailed(c.headSha, p);
    Word();
    hide NonBlank, Covers, ValidChecks, ValidFinding, ValidFailing, Failing, ValidEvidence, FailedEvidence, Contains,
        Defect, FailedCheck;
    forall k | 0 <= k < |p.criteria| ensures NonBlank(p.criteria[k].requirement) {
      assert ValidCriterion(c, processOnly, p.criteria[k]);
    }
    AllFailedChecks(c, p);
    forall k | 0 <= k < |r.findings|
        ensures Failing(r.findings[k]) && ValidFinding(r.findings[k]) && ValidFailing(c, r, r.findings[k]) {
      AllFailedFinding(c, processOnly, p, k);
    }
    hide ValidCriteria;
    assert AnyFailing(r.findings) by {
      assert Failing(r.findings[0]);
    }
  }

  lemma SameTrimSameKey(head: string, a: string, b: string)
    requires Trim(a) == Trim(b)
    ensures Key(Defect(head, a)) == Key(Defect(head, b))
  {
    hide Trim;
  }

  lemma AllFailedSizes(head: string, p: Plan)
    ensures var r := AllFailed(head, p); r.plan == p && |r.checks| == |r.findings| == |p.criteria|
  {
  }

  lemma DefectNames(head: string, requirement: string)
    ensures Defect(head, requirement).requirement == requirement
  {
  }

  /** Of two findings with one key and different requirements, one loses its name, if no others repeat it elsewhere. */
  lemma OneNameIsLost(fs: seq<Finding>, i: nat, j: nat) returns (n: nat)
    requires i < |fs| && j < |fs| && Key(fs[i]) == Key(fs[j]) && fs[i].requirement != fs[j].requirement
    requires forall x, y :: 0 <= x < |fs| && 0 <= y < |fs| && fs[x].requirement == fs[y].requirement ==> fs[x] == fs[y]
    ensures (n == i || n == j) && !KeepsName(fs, fs[n].requirement)
  {
    hide Key, Failing;
    FirstExists(fs, i);
    var first :| 0 <= first <= i && FirstOfKey(fs, first) && Key(fs[first]) == Key(fs[i]);
    n := if fs[i].requirement != fs[first].requirement then i else j;
    forall x | 0 <= x < |fs| && fs[x].requirement == fs[n].requirement ensures !Unmixed(fs, x) {
      assert fs[x] == fs[n];
    }
  }

  /**
   For any plan with two requirements that differ only in surrounding white space, some
   acceptable report is spoiled by consolidation.
   */
  lemma WhiteSpaceTwinsSpoil(c: Contract, processOnly: string -> bool, p: Plan, i: nat, j: nat)
    requires c.evidenceSchema == 1 && ValidCriteria(c, processOnly, p) && NonBlank(c.headSha)
    requires i < |p.criteria| && j < |p.criteria| && p.criteria[i].requirement != p.criteria[j].requirement
    requires Trim(p.criteria[i].requirement) == Trim(p.criteria[j].requirement)
    ensures var r := AllFailed(c.headSha, p);
            && Valid(c, processOnly, r)
            && !Valid(c, processOnly, r.(findings := Deduplicated(r.findings)))
  {
    hide ValidCriteria, Key, Trim, Defect, AllFailed, NonBlank, KeepsName, Valid;
    var r := AllFailed(c.headSha, p);
    AllFailedIsValid(c, processOnly, p);
    AllFailedSizes(c.headSha, p);
    SameTrimSameKey(c.headSha, p.criteria[i].requirement, p.criteria[j].requirement);
    forall k | 0 <= k < |p.criteria|
      ensures r.findings[k] == Defect(c.headSha, p.criteria[k].requirement) &&
                r.findings[k].requirement == p.criteria[k].requirement
      ensures r.checks[k].id == p.criteria[k].id && r.checks[k].status == Failed
    {
      AllFailedAt(c.headSha, p, k);
      DefectNames(c.headSha, p.criteria[k].requirement);
    }
    ConsolidationKeepsValid(c, processOnly, r);
    var n := OneNameIsLost(r.findings, i, j);
    assert r.checks[n].id == p.criteria[n].id;
  }

  // ----- one such plan -----

  const TWIN := WORD + " "
  const TWIN_CRITERIA := [Criterion(WORD, WORD, SourceProof), Criterion(TWIN, TWIN, SourceProof)]
  const TWIN_PLAN := Plan(Some(TWIN_CRITERIA), TWIN_CRITERIA)
  const TWIN_CONTRACT := Contract(1, WORD, TWIN)

  predicate NeverProcessOnly(requirement: string) {
    false
  }

  lemma TwinIsTrimmed()
    ensures Trim(TWIN) == Trim(WORD)
  {
    hide TrimLeft, TrimRight;
    TrimLeftKeeps(WORD);
    TrimLeftKeeps(TWIN);
    TrimRightSpace(WORD, ' ');
    assert TWIN == WORD + [' '];
  }

  lemma TwinContains()
    ensures Contains(TWIN, WORD) && Contains(TWIN, TWIN)
  {
    assert OccursAt(TWIN, WORD, 0) && OccursAt(TWIN, TWIN, 0);
  }

  lemma Twins()
    ensures NonBlank(WORD) && NonBlank(TWIN) && Trim(WORD) == Trim(TWIN) && |WORD| != |TWIN|
    ensures Contains(TWIN, WORD) && Contains(TWIN, TWIN)
  {
    Word();
    TwinIsTrimmed();
    TwinContains();
    hide Trim, TrimRight, Contains;
  }

  /** A concrete plan and report: accepted as it stands, not acceptable once consolidated. */
  lemma ConsolidationCanSpoil()
    ensures ValidCriteria(TWIN_CONTRACT, NeverProcessOnly, TWIN_PLAN) && !Separable(TWIN_PLAN.criteria)
    ensures var r := AllFailed(WORD, TWIN_PLAN);
            && Valid(TWIN_CONTRACT, NeverProcessOnly, r)
            && !Valid(TWIN_CONTRACT, NeverProcessOnly, r.(findings := Deduplicated(r.findings)))
  {
    Twins();
    hide NonBlank, Contains, Trim, Valid, Deduplicated, AllFailed;
    var cs := TWIN_PLAN.criteria;
    assert cs[0].requirement == WORD && cs[1].requirement == TWIN;
    assert forall i :: 0 <= i < |cs| ==> ValidCriterion(TWIN_CONTRACT, NeverProcessOnly, cs[i]);
    assert DistinctIds(cs);
    WhiteSpaceTwinsSpoil(TWIN_CONTRACT, NeverProcessOnly, TWIN_PLAN, 0, 1);
  }
}
