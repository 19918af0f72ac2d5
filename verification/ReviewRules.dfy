/** The rules of an acceptance review in terms of the fields of the report, and what an accepted verdict entails. */
module ReviewRules {
  import opened Basics
  import opened Texts
  import opened Review

  // ----- locations -----

  /** p[i..j] is a whole component of the path. */
  predicate ComponentAt(p: string, i: nat, j: nat) {
    && i <= j <= |p| && '/' !in p[i..j]
    && (i == 0 || p[i - 1] == '/') && (j == |p| || p[j] == '/')
  }

  predicate Unclean(name: string) {
    name == "" || name == "." || name == ".."
  }

  ghost predicate CleanComponents(p: string) {
    forall i: nat, j: nat :: ComponentAt(p, i, j) ==> !Unclean(p[i..j])
  }

  lemma ComponentLater(p: string, n: nat, i: nat, j: nat)
    requires n < |p| && p[n] == '/'
    ensures ComponentAt(p[n + 1..], i, j) <==> ComponentAt(p, n + 1 + i, n + 1 + j)
    ensures ComponentAt(p[n + 1..], i, j) ==> p[n + 1..][i..j] == p[n + 1 + i..n + 1 + j]
  {
    if i <= j && n + 1 + j <= |p| {
      assert p[n + 1..][i..j] == p[n + 1 + i..n + 1 + j];
      assert j < |p[n + 1..]| ==> p[n + 1..][j] == p[n + 1 + j];
      assert i > 0 ==> p[n + 1..][i - 1] == p[n + i];
    }
  }

  predicate IsFirstSlash(p: string, n: nat) {
    n <= |p| && '/' !in p[..n] && (n < |p| ==> p[n] == '/')
  }

  /** A component starts at the beginning and ends at the first slash, or lies after it. */
  lemma FirstComponent(p: string, n: nat, i: nat, j: nat)
    requires IsFirstSlash(p, n) && ComponentAt(p, i, j)
    ensures (i == 0 && j == n) || i > n
  {
    forall x | 0 <= x < n ensures p[x] != '/' {
      assert p[x] == p[..n][x];
    }
    forall x | i <= x < j ensures p[x] != '/' {
      assert p[x] == p[i..j][x - i];
    }
  }

  lemma CleanRest(p: string, n: nat)
    requires CleanComponents(p) && n < |p| && p[n] == '/'
    ensures CleanComponents(p[n + 1..])
  {
    var rest := p[n + 1..];
    forall i: nat, j: nat | ComponentAt(rest, i, j)
      ensures !Unclean(rest[i..j])
    {
      ComponentLater(p, n, i, j);
    }
  }

  lemma CleanWhole(p: string, n: nat)
    requires IsFirstSlash(p, n) && !Unclean(p[..n]) && (n < |p| ==> CleanComponents(p[n + 1..]))
    ensures CleanComponents(p)
  {
    hide Unclean;
    forall i: nat, j: nat | ComponentAt(p, i, j)
      ensures !Unclean(p[i..j])
    {
      CleanOne(p, n, i, j);
    }
  }

  lemma CleanOne(p: string, n: nat, i: nat, j: nat)
    requires IsFirstSlash(p, n) && !Unclean(p[..n]) && (n < |p| ==> CleanComponents(p[n + 1..]))
    requires ComponentAt(p, i, j)
    ensures !Unclean(p[i..j])
  {
    hide Unclean, CleanComponents;
    FirstComponent(p, n, i, j);
    if i > n {
      CleanLater(p, n, i - n - 1, j - n - 1);
    } else {
      assert p[i..j] == p[..n];
    }
  }

  lemma CleanLater(p: string, n: nat, i: nat, j: nat)
    requires n < |p| && p[n] == '/' && CleanComponents(p[n + 1..]) && ComponentAt(p, n + 1 + i, n + 1 + j)
    ensures !Unclean(p[n + 1 + i..n + 1 + j])
  {
    ComponentLater(p, n, i, j);
    var rest := p[n + 1..];
    assert ComponentAt(rest, i, j);
  }

  /** A path is clean exactly when no component is empty, "." or "..". */
  lemma {:induction false} CleanPathMeans(p: string)
    ensures CleanPath(p) <==> CleanComponents(p)
    decreases |p|
  {
    var n := FirstSlash(p);
    assert ComponentAt(p, 0, n) && p[0..n] == p[..n];
    hide ComponentAt;
    if n < |p| {
      CleanPathMeans(p[n + 1..]);
      if CleanComponents(p) {
        CleanRest(p, n);
      }
    }
    if CleanPath(p) {
      CleanWhole(p, n);
    }
  }

  // ----- evidence and checks -----

  lemma EvidenceRules(c: Contract, e: Evidence)
    ensures ValidEvidence(c, e) <==>
              && NonBlank(e.check) && NonBlank(e.reference) && NonBlank(c.headSha) && e.commit == c.headSha
              && e.kind in {SourceEvidence, UnitEvidence, IntegrationEvidence, LiveEvidence}
              && e.result in {Inspected, Exists, Succeeded, FoundDefect, Unverified}
              && (e.kind == LiveEvidence && e.result == Succeeded ==>
                    e.environment.Some? && e.environment.value == Environment(c.headSha, c.headSha, false))
  {
    hide NonBlank;
  }

  /** An inspection proves a source criterion; a passing run proves any, but only a live one a live criterion. */
  predicate Shows(proof: Proof, e: Evidence) {
    match e.kind
    case SourceEvidence => proof == SourceProof && e.result == Inspected
    case UnitEvidence => proof != LiveProof && e.result == Succeeded
    case IntegrationEvidence => proof != LiveProof && e.result == Succeeded
    case LiveEvidence => e.result == Succeeded
    case OtherEvidence => false
  }

  lemma CheckRules(c: Contract, item: Criterion, check: Check, fs: seq<Finding>)
    ensures ValidCheck(c, item, check, fs) <==>
              && (forall i :: 0 <= i < |check.evidence| ==> ValidEvidence(c, check.evidence[i]))
              && var defective := exists i :: 0 <= i < |check.evidence| && check.evidence[i].result == FoundDefect;
                 || (check.status == Passed && check.missing == "" && !defective
                     && exists i :: 0 <= i < |check.evidence| && Shows(item.proof, check.evidence[i]))
                 || (check.status == Failed && defective
                     && exists i :: 0 <= i < |fs| && fs[i].requirement == item.requirement
                                    && fs[i].kind in {RequirementFinding, DefectFinding, Unstructured})
                 || (check.status == Blocked && NonBlank(check.missing))
  {
    hide ValidEvidence, NonBlank;
    forall i | 0 <= i < |check.evidence|
      ensures Proves(item, check.evidence[i]) <==> Shows(item.proof, check.evidence[i])
    {
    }
    forall i | 0 <= i < |fs|
      ensures Failing(fs[i]) <==> fs[i].kind in {RequirementFinding, DefectFinding, Unstructured}
    {
    }
    hide Proves, Shows, Failing;
    if i :| 0 <= i < |check.evidence| && Shows(item.proof, check.evidence[i]) {
      assert Proves(item, check.evidence[i]);
    }
    if i :| 0 <= i < |check.evidence| && Proves(item, check.evidence[i]) {
      assert Shows(item.proof, check.evidence[i]);
    }
    if i :| 0 <= i < |fs| && Failing(fs[i]) && fs[i].requirement == item.requirement {
      assert fs[i].kind in {RequirementFinding, DefectFinding, Unstructured};
    }
    if i :| 0 <= i < |fs| && fs[i].requirement == item.requirement
            && fs[i].kind in {RequirementFinding, DefectFinding, Unstructured} {
      assert Failing(fs[i]);
    }
  }

  lemma FindingRules(f: Finding)
    ensures ValidFinding(f) <==>
              && NonBlank(f.summary)
              && (match f.kind
                  case Advisory => true
                  case Unstructured => NonBlank(f.evidence)
                  case RequirementFinding => NonBlank(f.evidence) && NonBlank(f.requirement)
                  case DefectFinding => NonBlank(f.evidence) && NonBlank(f.defect)
                  case OtherKind(_) => false)
              && forall i :: 0 <= i < |f.locations| ==>
                   && f.locations[i].line > 0 && f.locations[i].side == "head" && CleanPath(f.locations[i].path)
                   && forall c :: c in f.locations[i].path ==> c !in {'\\', '\0', '\r', '\n', ':'}
  {
    hide NonBlank, CleanPath;
    assert forall c: char :: c in "\\\0\r\n:" <==> c in {'\\', '\0', '\r', '\n', ':'};
  }

  // ----- what an accepted verdict entails -----

  /** The check carries an observation at the submitted head that meets the criterion's proof, and none of a defect. */
  predicate Established(c: Contract, item: Criterion, check: Check) {
    && check.id == item.id && check.status == Passed && check.missing == ""
    && (forall i :: 0 <= i < |check.evidence| ==>
          check.evidence[i].commit == c.headSha && check.evidence[i].result != FoundDefect)
    && exists i :: 0 <= i < |check.evidence| && Shows(item.proof, check.evidence[i])
  }

  /** A passed review established every criterion, and holds no failing finding. */
  lemma PassedMeans(c: Contract, processOnly: string -> bool, r: Assessment, k: nat) returns (i: nat)
    requires c.evidenceSchema == 1 && Valid(c, processOnly, r) && r.verdict == Passed && k < |r.plan.criteria|
    ensures i < |r.checks| && Established(c, r.plan.criteria[k], r.checks[i])
    ensures forall n :: 0 <= n < |r.findings| ==> r.findings[n].kind == Advisory
  {
    hide NonBlank, ValidCriteria, AllFailingValid, Shows, ValidLocation;
    assert HasCheck(r.checks, r.plan.criteria[k].id);
    i :| 0 <= i < |r.checks| && r.checks[i].id == r.plan.criteria[k].id;
    assert ValidCheck(c, r.plan.criteria[k], r.checks[i], r.findings);
    CheckRules(c, r.plan.criteria[k], r.checks[i], r.findings);
    forall n | 0 <= n < |r.findings| ensures r.findings[n].kind == Advisory {
      assert ValidFinding(r.findings[n]) && !Failing(r.findings[n]);
    }
  }

  /** A failed review demonstrates a defect at the submitted head, and not against a check that did not fail. */
  lemma FailedMeans(c: Contract, processOnly: string -> bool, r: Assessment) returns (n: nat)
    requires c.evidenceSchema == 1 && Valid(c, processOnly, r) && r.verdict == Failed
    ensures n < |r.findings| && r.findings[n].kind in {RequirementFinding, DefectFinding, Unstructured}
    ensures var o := r.findings[n].observation;
            o.Some? && o.value.commit == c.headSha && o.value.result == FoundDefect && o.value.kind != OtherEvidence
    ensures r.findings[n].kind == RequirementFinding ==> Contains(c.requirements, r.findings[n].requirement)
    ensures forall i, k :: (0 <= i < |r.checks| && 0 <= k < |r.plan.criteria| && r.checks[i].id == r.plan.criteria[k].id
                            && r.plan.criteria[k].requirement == r.findings[n].requirement
                            && NonBlank(r.findings[n].requirement)) ==> r.checks[i].status == Failed
  {
    hide NonBlank, ValidCriteria, ValidChecks, Covers, ValidFindings, Contains;
    n :| 0 <= n < |r.findings| && Failing(r.findings[n]);
    assert ValidFailing(c, r, r.findings[n]);
    forall i, k | 0 <= i < |r.checks| && 0 <= k < |r.plan.criteria| && r.checks[i].id == r.plan.criteria[k].id
                  && r.plan.criteria[k].requirement == r.findings[n].requirement && NonBlank(r.findings[n].requirement)
      ensures r.checks[i].status == Failed
    {
      assert RequirementOf(r.plan.criteria, r.checks[i].id, r.findings[n].requirement);
    }
  }

  /** A blocked review names what is missing for some criterion, and nothing in it failed. */
  lemma BlockedMeans(c: Contract, processOnly: string -> bool, r: Assessment) returns (i: nat)
    requires c.evidenceSchema == 1 && Valid(c, processOnly, r) && r.verdict == Blocked
    ensures i < |r.checks| && r.checks[i].status == Blocked && NonBlank(r.checks[i].missing)
    ensures forall n :: 0 <= n < |r.checks| ==> r.checks[n].status in {Passed, Blocked}
    ensures forall n :: 0 <= n < |r.findings| ==> r.findings[n].kind == Advisory
  {
    hide NonBlank, ValidCriteria, AllFailingValid, Proved, Defective, ValidEvidence, Linked;
    i :| 0 <= i < |r.checks| && r.checks[i].status == Blocked;
    forall n | 0 <= n < |r.checks|
      ensures r.checks[n].status in {Passed, Blocked}
      ensures r.checks[n].status == Blocked ==> NonBlank(r.checks[n].missing)
    {
      assert HasCriterion(r.plan.criteria, r.checks[n].id);
      var k :| 0 <= k < |r.plan.criteria| && r.plan.criteria[k].id == r.checks[n].id;
      assert ValidCheck(c, r.plan.criteria[k], r.checks[n], r.findings);
    }
    forall n | 0 <= n < |r.findings| ensures r.findings[n].kind == Advisory {
      assert ValidFinding(r.findings[n]) && !Failing(r.findings[n]);
    }
  }
}
