/** The rules an acceptance review must meet, as stated and as the program checks them. */
module Review {
  import opened Basics
  import opened Texts

  datatype Verdict = Passed | Failed | Blocked | OtherVerdict

  /** The minimum observation a requirement justifies. */
  datatype Proof = SourceProof | ExecutionProof | LiveProof | OtherProof

  datatype Criterion = Criterion(id: string, requirement: string, proof: Proof)

  /** Runtime identity of live evidence; `otherGaps` stands for the layers and bindings it must also show. */
  datatype Environment = Environment(candidate: string, loadedCandidate: string, otherGaps: bool)

  datatype EvidenceKind = SourceEvidence | UnitEvidence | IntegrationEvidence | LiveEvidence | OtherEvidence

  datatype EvidenceResult = Inspected | Exists | Succeeded | FoundDefect | Unverified | OtherResult

  datatype Evidence = Evidence(
    environment: Option<Environment>,
    kind: EvidenceKind,
    check: string,
    reference: string,
    commit: string,
    result: EvidenceResult)

  datatype Check = Check(id: string, status: Verdict, evidence: seq<Evidence>, missing: string)

  datatype Location = Location(path: string, line: int, side: string)

  datatype FindingKind = RequirementFinding | DefectFinding | Unstructured | Advisory | OtherKind(name: string)

  datatype Finding = Finding(
    observation: Option<Evidence>,
    locations: seq<Location>,
    kind: FindingKind,
    summary: string,
    requirement: string,
    defect: string,
    evidence: string)

  /** `planned` is what the planner's text decodes to, `criteria` the saved criteria. */
  datatype Plan = Plan(planned: Option<seq<Criterion>>, criteria: seq<Criterion>)

  datatype Contract = Contract(evidenceSchema: int, headSha: string, requirements: string)

  /** The part of a record the rules read. */
  datatype Assessment = Assessment(
    plan: Plan,
    nextAction: string,
    nextOwner: string,
    checks: seq<Check>,
    findings: seq<Finding>,
    verdict: Verdict)

  // ----- findings -----

  predicate Failing(f: Finding) {
    f.kind.RequirementFinding? || f.kind.DefectFinding? || f.kind.Unstructured?
  }

  predicate AnyFailing(fs: seq<Finding>) {
    exists i :: 0 <= i < |fs| && Failing(fs[i])
  }

  /** No component of a slash-separated path is empty, "." or "..". */
  predicate CleanPath(p: string) {
    var n := FirstSlash(p);
    && p[..n] !in {"", ".", ".."}
    && (n < |p| ==> CleanPath(p[n + 1..]))
  }

  function FirstSlash(p: string): (n: nat)
    ensures n <= |p| && '/' !in p[..n] && (n < |p| ==> p[n] == '/')
  {
    if p == "" || p[0] == '/' then 0
    else
      assert p[..1 + FirstSlash(p[1..])] == [p[0]] + p[1..][..FirstSlash(p[1..])];
      1 + FirstSlash(p[1..])
  }

  /** A repository-relative path, a positive line and the head side. */
  predicate ValidLocation(l: Location) {
    && CleanPath(l.path) && (forall c :: c in l.path ==> c !in "\\\0\r\n:")
    && l.line >= 1 && l.side == "head"
  }

  predicate ValidFinding(f: Finding) {
    && (forall i :: 0 <= i < |f.locations| ==> ValidLocation(f.locations[i]))
    && NonBlank(f.summary)
    && (f.kind == Advisory
        || (f.kind == Unstructured && NonBlank(f.evidence))
        || (f.kind == RequirementFinding && NonBlank(f.requirement) && NonBlank(f.evidence))
        || (f.kind == DefectFinding && NonBlank(f.defect) && NonBlank(f.evidence)))
  }

  predicate ValidFindings(fs: seq<Finding>) {
    forall i :: 0 <= i < |fs| ==> ValidFinding(fs[i])
  }

  method ValidateFinding(f: Finding) returns (ok: bool)
    ensures ok <==> ValidFinding(f)
  {
    hide ValidLocation, NonBlank;
    for k := 0 to |f.locations|
      invariant forall j :: 0 <= j < k ==> ValidLocation(f.locations[j])
    {
      if !ValidLocation(f.locations[k]) {
        return false;
      }
    }
    if !NonBlank(f.summary) {
      return false;
    }
    if f.kind == Unstructured {
      return NonBlank(f.evidence);
    } else if f.kind == RequirementFinding {
      return NonBlank(f.requirement) && NonBlank(f.evidence);
    } else if f.kind == DefectFinding {
      return NonBlank(f.defect) && NonBlank(f.evidence);
    }
    return f.kind == Advisory;
  }

  method ValidateFindings(fs: seq<Finding>) returns (failing: bool, ok: bool)
    ensures ok <==> ValidFindings(fs)
    ensures failing == (ok && AnyFailing(fs))
  {
    hide ValidFinding, Failing;
    failing := false;
    for i := 0 to |fs|
      invariant forall j :: 0 <= j < i ==> ValidFinding(fs[j])
      invariant failing <==> exists j :: 0 <= j < i && Failing(fs[j])
    {
      var valid := ValidateFinding(fs[i]);
      if !valid {
        return false, false;
      }
      failing := failing || Failing(fs[i]);
    }
    return failing, true;
  }

  // ----- criteria and checks -----

  predicate DistinctIds(cs: seq<Criterion>) {
    forall i, j :: 0 <= i < j < |cs| ==> cs[i].id != cs[j].id
  }

  predicate ValidCriterion(c: Contract, processOnly: string -> bool, item: Criterion) {
    && NonBlank(item.id) && NonBlank(item.requirement) && Contains(c.requirements, item.requirement)
    && item.proof != OtherProof && !processOnly(item.requirement)
  }

  predicate ValidCriteria(c: Contract, processOnly: string -> bool, p: Plan) {
    && p.planned == Some(p.criteria) && p.criteria != [] && DistinctIds(p.criteria)
    && forall i :: 0 <= i < |p.criteria| ==> ValidCriterion(c, processOnly, p.criteria[i])
  }

  /** Live evidence lacks something it must identify. */
  predicate Missing(e: Environment, head: string) {
    e.otherGaps || !NonBlank(head) || e.candidate != head || e.loadedCandidate != e.candidate
  }

  predicate ValidEvidence(c: Contract, e: Evidence) {
    && NonBlank(e.check) && NonBlank(e.reference) && NonBlank(e.commit)
    && e.kind != OtherEvidence && e.result != OtherResult
    && e.commit == c.headSha
    && (e.kind == LiveEvidence && e.result == Succeeded ==>
        e.environment.Some? && !Missing(e.environment.value, c.headSha))
  }

  /** The observation meets the proof the criterion asks for. */
  predicate Proves(item: Criterion, e: Evidence) {
    || (item.proof == SourceProof && e.kind == SourceEvidence && e.result == Inspected)
    || (e.result == Succeeded && e.kind in {UnitEvidence, IntegrationEvidence, LiveEvidence} &&
        (item.proof != LiveProof || e.kind == LiveEvidence))
  }

  predicate Defective(check: Check) {
    exists i :: 0 <= i < |check.evidence| && check.evidence[i].result == FoundDefect
  }

  predicate Proved(item: Criterion, check: Check) {
    exists i :: 0 <= i < |check.evidence| && Proves(item, check.evidence[i])
  }

  /** Some failing finding names exactly this requirement. */
  predicate Linked(requirement: string, fs: seq<Finding>) {
    exists i :: 0 <= i < |fs| && Failing(fs[i]) && fs[i].requirement == requirement
  }

  predicate ValidCheck(c: Contract, item: Criterion, check: Check, fs: seq<Finding>) {
    && (forall i :: 0 <= i < |check.evidence| ==> ValidEvidence(c, check.evidence[i]))
    && match check.status
       case Passed => Proved(item, check) && !Defective(check) && check.missing == ""
       case Failed => Defective(check) && Linked(item.requirement, fs)
       case Blocked => NonBlank(check.missing)
       case OtherVerdict => false
  }

  /** Each criterion has exactly one check, and each check its criterion. */
  predicate Covers(criteria: seq<Criterion>, checks: seq<Check>) {
    && (forall i, j :: 0 <= i < j < |checks| ==> checks[i].id != checks[j].id)
    && (forall i :: 0 <= i < |checks| ==> HasCriterion(criteria, checks[i].id))
    && (forall k :: 0 <= k < |criteria| ==> HasCheck(checks, criteria[k].id))
  }

  predicate HasCheck(checks: seq<Check>, id: string) {
    exists i :: 0 <= i < |checks| && checks[i].id == id
  }

  predicate HasCriterion(criteria: seq<Criterion>, id: string) {
    exists k :: 0 <= k < |criteria| && criteria[k].id == id
  }

  predicate ValidChecks(c: Contract, r: Assessment) {
    forall i, k :: 0 <= i < |r.checks| && 0 <= k < |r.plan.criteria| && r.checks[i].id == r.plan.criteria[k].id ==>
      ValidCheck(c, r.plan.criteria[k], r.checks[i], r.findings)
  }

  predicate RequirementOf(criteria: seq<Criterion>, id: string, requirement: string) {
    exists k :: 0 <= k < |criteria| && criteria[k].id == id && criteria[k].requirement == requirement
  }

  /** Every check of the finding's requirement failed, and there is one. */
  predicate Agrees(r: Assessment, f: Finding) {
    && (forall i :: 0 <= i < |r.checks| && RequirementOf(r.plan.criteria, r.checks[i].id, f.requirement) ==>
        r.checks[i].status == Failed)
    && (exists i :: 0 <= i < |r.checks| && RequirementOf(r.plan.criteria, r.checks[i].id, f.requirement))
  }

  predicate ValidFailing(c: Contract, r: Assessment, f: Finding) {
    && f.observation.Some?
    && NonBlank(f.observation.value.check) && NonBlank(f.observation.value.reference)
    && f.observation.value.commit == c.headSha && f.observation.value.result == FoundDefect &&
        f.observation.value.kind != OtherEvidence
    && (f.kind == RequirementFinding ==> Contains(c.requirements, f.requirement))
    && (f.kind == RequirementFinding || NonBlank(f.requirement) ==> Agrees(r, f))
  }

  predicate AllFailingValid(c: Contract, r: Assessment) {
    forall i :: 0 <= i < |r.findings| && Failing(r.findings[i]) ==> ValidFailing(c, r, r.findings[i])
  }

  predicate AnyCheck(checks: seq<Check>, status: Verdict) {
    exists i :: 0 <= i < |checks| && checks[i].status == status
  }

  predicate VerdictAllowed(r: Assessment) {
    match r.verdict
    case Passed => !AnyCheck(r.checks, Failed) && !AnyCheck(r.checks, Blocked) && !AnyFailing(r.findings)
    case Failed => AnyFailing(r.findings)
    case Blocked => AnyCheck(r.checks, Blocked) && !AnyCheck(r.checks, Failed) && !AnyFailing(r.findings)
    case OtherVerdict => false
  }

  /** The rules of evidence schema 1; other schemas have none. */
  predicate Valid(c: Contract, processOnly: string -> bool, r: Assessment) {
    c.evidenceSchema == 1 ==>
      && ValidCriteria(c, processOnly, r.plan)
      && NonBlank(r.nextAction) && NonBlank(r.nextOwner)
      && Covers(r.plan.criteria, r.checks)
      && ValidChecks(c, r)
      && AllFailingValid(c, r)
      && ValidFindings(r.findings)
      && VerdictAllowed(r)
  }

  // ----- the checks as the program makes them -----

  method ValidateCriteria(c: Contract, processOnly: string -> bool, p: Plan) returns (ok: bool)
    ensures ok <==> ValidCriteria(c, processOnly, p)
  {
    hide Contains, NonBlank;
    if p.planned.None? || p.planned.value != p.criteria || |p.criteria| == 0 {
      return false;
    }
    var seen: set<string> := {};
    for i := 0 to |p.criteria|
      invariant forall id :: id in seen <==> exists j :: 0 <= j < i && p.criteria[j].id == id
      invariant DistinctIds(p.criteria[..i])
      invariant forall j :: 0 <= j < i ==> ValidCriterion(c, processOnly, p.criteria[j])
    {
      var item := p.criteria[i];
      if !NonBlank(item.id) || !NonBlank(item.requirement) || item.id in seen ||
          !Contains(c.requirements, item.requirement) {
        return false;
      }
      if item.proof == OtherProof || processOnly(item.requirement) {
        return false;
      }
      assert p.criteria[..i + 1] == p.criteria[..i] + [item];
      seen := seen + {item.id};
    }
    assert p.criteria[..|p.criteria|] == p.criteria;
    return true;
  }

  /** The body of the loop over one check. */
  method ValidateCheck(c: Contract, item: Criterion, check: Check, fs: seq<Finding>) returns (ok: bool)
    ensures ok <==> ValidCheck(c, item, check, fs)
  {
    hide Contains, NonBlank, Missing;
    var proof, defect := false, false;
    for i := 0 to |check.evidence|
      invariant forall j :: 0 <= j < i ==> ValidEvidence(c, check.evidence[j])
      invariant proof <==> exists j :: 0 <= j < i && Proves(item, check.evidence[j])
      invariant defect <==> exists j :: 0 <= j < i && check.evidence[j].result == FoundDefect
    {
      var e := check.evidence[i];
      if !NonBlank(e.check) || !NonBlank(e.reference) || !NonBlank(e.commit) {
        return false;
      }
      if e.kind == OtherEvidence || e.result == OtherResult {
        return false;
      }
      if e.commit != c.headSha {
        return false;
      }
      if e.kind == LiveEvidence && e.result == Succeeded &&
          (e.environment.None? || Missing(e.environment.value, c.headSha)) {
        return false;
      }
      if e.result == FoundDefect {
        defect := true;
      }
      if item.proof == SourceProof && e.kind == SourceEvidence && e.result == Inspected {
        proof := true;
      }
      if e.result == Succeeded && e.kind in {UnitEvidence, IntegrationEvidence, LiveEvidence} &&
          (item.proof != LiveProof || e.kind == LiveEvidence) {
        proof := true;
      }
    }
    match check.status {
      case Passed =>
        return proof && !defect && check.missing == "";
      case Failed =>
        if !defect {
          return false;
        }
        var linked := false;
        for i := 0 to |fs|
          invariant linked <==> exists j :: 0 <= j < i && Failing(fs[j]) && fs[j].requirement == item.requirement
        {
          if Failing(fs[i]) && fs[i].requirement == item.requirement {
            linked := true;
          }
        }
        return linked;
      case Blocked =>
        return NonBlank(check.missing);
      case OtherVerdict =>
        return false;
    }
  }

  predicate IndexedBy(criteria: seq<Criterion>, m: map<string, Criterion>) {
    && (forall k :: 0 <= k < |criteria| ==> criteria[k].id in m && m[criteria[k].id] == criteria[k])
    && (forall id :: id in m ==> exists k :: 0 <= k < |criteria| && criteria[k].id == id && m[id] == criteria[k])
  }

  /** The first `n` checks are known, new and valid, seen through the index the program builds. */
  predicate MappedUpTo(c: Contract, r: Assessment, criteria: map<string, Criterion>, n: nat)
    requires n <= |r.checks|
  {
    && (forall i, j :: 0 <= i < j < n ==> r.checks[i].id != r.checks[j].id)
    && (forall i :: 0 <= i < n ==>
          r.checks[i].id in criteria && ValidCheck(c, criteria[r.checks[i].id], r.checks[i], r.findings))
  }

  predicate SeenIn(checks: seq<Check>, seen: set<string>, n: nat)
    requires n <= |checks|
  {
    && (forall i :: 0 <= i < n ==> checks[i].id in seen)
    && (forall id :: id in seen ==> exists i :: 0 <= i < n && checks[i].id == id)
  }

  predicate Mapped(c: Contract, r: Assessment, criteria: map<string, Criterion>) {
    && MappedUpTo(c, r, criteria, |r.checks|)
    && (forall id :: id in criteria ==> HasCheck(r.checks, id))
  }

  /** The loop over the checks: each is known, new and valid, and none is missing. */
  method ValidateAllChecks(c: Contract, r: Assessment, criteria: map<string, Criterion>)
    returns (failed: bool, blocked: bool, ok: bool)
    requires DistinctIds(r.plan.criteria) && IndexedBy(r.plan.criteria, criteria)
    ensures ok <==> Covers(r.plan.criteria, r.checks) && ValidChecks(c, r)
    ensures ok ==> failed == AnyCheck(r.checks, Failed) && blocked == AnyCheck(r.checks, Blocked)
  {
    hide ValidCheck, IndexedBy, DistinctIds, Covers, ValidChecks, MappedUpTo, SeenIn, AnyCheck, Mapped;
    MappedMeansCovered(c, r, criteria);
    CoveredMeansMapped(c, r, criteria);
    var seen: set<string> := {};
    failed, blocked := false, false;
    assert MappedUpTo(c, r, criteria, 0) && SeenIn(r.checks, seen, 0) && !AnyCheck(r.checks[..0], Failed) &&
        !AnyCheck(r.checks[..0], Blocked) by {
      NoChecksYet(c, r, criteria);
    }
    for i := 0 to |r.checks|
      invariant MappedUpTo(c, r, criteria, i) && SeenIn(r.checks, seen, i) && seen <= criteria.Keys
      invariant failed == AnyCheck(r.checks[..i], Failed) && blocked == AnyCheck(r.checks[..i], Blocked)
    {
      var check := r.checks[i];
      NextCheck(c, r, criteria, seen, i);
      if check.id !in criteria || check.id in seen {
        return failed, blocked, false;
      }
      seen := seen + {check.id};
      var valid := ValidateCheck(c, criteria[check.id], check, r.findings);
      if !valid {
        return failed, blocked, false;
      }
      if check.status == Failed {
        failed := true;
      } else if check.status == Blocked {
        blocked := true;
      }
    }
    assert r.checks[..|r.checks|] == r.checks;
    SeenAll(seen, criteria.Keys);
    AllSeen(c, r, criteria, seen);
    return failed, blocked, |seen| == |criteria|;
  }

  lemma NoChecksYet(c: Contract, r: Assessment, criteria: map<string, Criterion>)
    ensures MappedUpTo(c, r, criteria, 0) && SeenIn(r.checks, {}, 0) && !AnyCheck(r.checks[..0], Failed) &&
              !AnyCheck(r.checks[..0], Blocked)
  {
  }

  lemma NextCheck(c: Contract, r: Assessment, criteria: map<string, Criterion>, seen: set<string>, n: nat)
    requires n < |r.checks| && MappedUpTo(c, r, criteria, n) && SeenIn(r.checks, seen, n)
    ensures var check := r.checks[n];
            var good := check.id in criteria && check.id !in seen &&
                ValidCheck(c, criteria[check.id], check, r.findings);
            && (good ==> MappedUpTo(c, r, criteria, n + 1))
            && SeenIn(r.checks, seen + {check.id}, n + 1)
            && (!good ==> !Mapped(c, r, criteria))
    ensures forall v :: AnyCheck(r.checks[..n + 1], v) == (AnyCheck(r.checks[..n], v) || r.checks[n].status == v)
  {
    hide ValidCheck;
    forall v ensures AnyCheck(r.checks[..n + 1], v) == (AnyCheck(r.checks[..n], v) || r.checks[n].status == v) {
      assert r.checks[..n + 1] == r.checks[..n] + [r.checks[n]];
    }
  }

  lemma AllSeen(c: Contract, r: Assessment, criteria: map<string, Criterion>, seen: set<string>)
    requires MappedUpTo(c, r, criteria, |r.checks|) && SeenIn(r.checks, seen, |r.checks|)
    ensures Mapped(c, r, criteria) <==> criteria.Keys <= seen
  {
    hide ValidCheck;
  }

  lemma MappedMeansCovered(c: Contract, r: Assessment, criteria: map<string, Criterion>)
    requires DistinctIds(r.plan.criteria) && IndexedBy(r.plan.criteria, criteria)
    ensures Mapped(c, r, criteria) ==> Covers(r.plan.criteria, r.checks) && ValidChecks(c, r)
  {
    hide ValidCheck, DistinctIds;
    if Mapped(c, r, criteria) {
      forall i | 0 <= i < |r.checks| ensures HasCriterion(r.plan.criteria, r.checks[i].id) {
        var id := r.checks[i].id;
        assert id in criteria;
        var k :| 0 <= k < |r.plan.criteria| && r.plan.criteria[k].id == id;
      }
      forall k | 0 <= k < |r.plan.criteria| ensures HasCheck(r.checks, r.plan.criteria[k].id) {
        assert r.plan.criteria[k].id in criteria;
      }
    }
  }

  lemma CoveredMeansMapped(c: Contract, r: Assessment, criteria: map<string, Criterion>)
    requires IndexedBy(r.plan.criteria, criteria)
    ensures Covers(r.plan.criteria, r.checks) && ValidChecks(c, r) ==> Mapped(c, r, criteria)
  {
    hide ValidCheck;
    if Covers(r.plan.criteria, r.checks) && ValidChecks(c, r) {
      forall i | 0 <= i < |r.checks|
        ensures r.checks[i].id in criteria && ValidCheck(c, criteria[r.checks[i].id], r.checks[i], r.findings)
      {
        assert HasCriterion(r.plan.criteria, r.checks[i].id);
      }
      forall id | id in criteria ensures HasCheck(r.checks, id) {
        var k :| 0 <= k < |r.plan.criteria| && r.plan.criteria[k].id == id;
      }
    }
  }

  lemma SeenAll<T>(seen: set<T>, all: set<T>)
    requires seen <= all
    ensures |seen| == |all| <==> seen == all
  {
    assert all == seen + (all - seen);
  }

  /** The loop over the findings against the checklist. */
  method ValidateFailing(c: Contract, r: Assessment, criteria: map<string, Criterion>, f: Finding) returns (ok: bool)
    requires DistinctIds(r.plan.criteria) && IndexedBy(r.plan.criteria, criteria) && Covers(r.plan.criteria, r.checks)
    ensures ok <==> ValidFailing(c, r, f)
  {
    hide Contains, NonBlank, IndexedBy, DistinctIds, Covers, RequirementOf;
    if f.observation.None? {
      return false;
    }
    var e := f.observation.value;
    if !NonBlank(e.check) || !NonBlank(e.reference) || e.commit != c.headSha || e.result != FoundDefect ||
        e.kind == OtherEvidence {
      return false;
    }
    if f.kind == RequirementFinding && !Contains(c.requirements, f.requirement) {
      return false;
    }
    if f.kind == RequirementFinding || NonBlank(f.requirement) {
      var linked := false;
      for i := 0 to |r.checks|
        invariant forall j :: 0 <= j < i && RequirementOf(r.plan.criteria, r.checks[j].id, f.requirement) ==>
                    r.checks[j].status == Failed
        invariant linked <==> exists j :: 0 <= j < i && RequirementOf(r.plan.criteria, r.checks[j].id, f.requirement)
      {
        var check := r.checks[i];
        RequirementByMap(r, criteria, i, f.requirement);
        if criteria[check.id].requirement != f.requirement {
          continue;
        }
        linked := true;
        if check.status != Failed {
          return false;
        }
      }
      return linked;
    }
    return true;
  }

  lemma RequirementByMap(r: Assessment, criteria: map<string, Criterion>, i: nat, requirement: string)
    requires IndexedBy(r.plan.criteria, criteria) && Covers(r.plan.criteria, r.checks) && i < |r.checks|
    ensures r.checks[i].id in criteria
    ensures RequirementOf(r.plan.criteria, r.checks[i].id, requirement) <==>
              criteria[r.checks[i].id].requirement == requirement
  {
    assert HasCriterion(r.plan.criteria, r.checks[i].id);
  }

  /** The rules as the program checks them, in its order. */
  method Validate(c: Contract, processOnly: string -> bool, r: Assessment) returns (ok: bool)
    ensures ok <==> Valid(c, processOnly, r)
  {
    hide NonBlank, ValidCriterion, ValidFindings, Covers, ValidChecks, ValidFailing, AnyCheck, AnyFailing, Failing;
    if c.evidenceSchema != 1 {
      return true;
    }
    var planned := ValidateCriteria(c, processOnly, r.plan);
    if !planned || !NonBlank(r.nextAction) || !NonBlank(r.nextOwner) {
      return false;
    }
    var criteria: map<string, Criterion> := map[];
    for i := 0 to |r.plan.criteria|
      invariant IndexedBy(r.plan.criteria[..i], criteria)
    {
      IndexNext(r.plan.criteria, criteria, i);
      criteria := criteria[r.plan.criteria[i].id := r.plan.criteria[i]];
    }
    assert r.plan.criteria[..|r.plan.criteria|] == r.plan.criteria;
    var failed, blocked, checked := ValidateAllChecks(c, r, criteria);
    if !checked {
      return false;
    }
    for i := 0 to |r.findings|
      invariant forall j :: 0 <= j < i && Failing(r.findings[j]) ==> ValidFailing(c, r, r.findings[j])
    {
      if Failing(r.findings[i]) {
        var valid := ValidateFailing(c, r, criteria, r.findings[i]);
        if !valid {
          return false;
        }
      }
    }
    var failing, wellFormed := ValidateFindings(r.findings);
    if !wellFormed {
      return false;
    }
    match r.verdict {
      case Passed => return !failed && !blocked && !failing;
      case Failed => return failing;
      case Blocked => return blocked && !failed && !failing;
      case OtherVerdict => return false;
    }
  }

  lemma IndexNext(criteria: seq<Criterion>, m: map<string, Criterion>, i: nat)
    requires i < |criteria| && DistinctIds(criteria) && IndexedBy(criteria[..i], m)
    ensures IndexedBy(criteria[..i + 1], m[criteria[i].id := criteria[i]])
  {
    var next, n := criteria[..i + 1], m[criteria[i].id := criteria[i]];
    assert forall k :: 0 <= k < i ==> next[k] == criteria[..i][k];
    forall id | id in n ensures exists k :: 0 <= k < |next| && next[k].id == id && n[id] == next[k] {
      if id == criteria[i].id {
        assert next[i].id == id;
      } else {
        var k :| 0 <= k < i && criteria[..i][k].id == id && m[id] == criteria[..i][k];
        assert next[k].id == id;
      }
    }
  }
}
