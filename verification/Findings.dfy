/** Consolidating repeated findings: what is merged, what is kept, and when the report stays valid. */
module Findings {
  import opened Texts
  import opened Review

  const NUL := "\0"

  function KindName(kind: FindingKind): string {
    match kind
    case RequirementFinding => "requirement"
    case DefectFinding => "defect"
    case Unstructured => "unstructured"
    case Advisory => "advisory"
    case OtherKind(name) => name
  }

  /** The concern a finding is about. */
  function Key(f: Finding): string {
    var k := KindName(f.kind) + NUL + Trim(f.requirement) + NUL + Trim(f.defect);
    if f.kind == Advisory || f.defect == "" then k + Trim(f.summary) else k
  }

  function AddLocations(known: seq<Location>, more: seq<Location>): seq<Location> {
    if more == [] then known
    else
      var before := AddLocations(known, more[..|more| - 1]);
      var l := more[|more| - 1];
      if l in before then before else before + [l]
  }

  function MergedEvidence(a: string, b: string): string {
    if b != "" && !Contains(a, b) then a + "\n" + b else a
  }

  function Absorb(g: Finding, f: Finding): Finding {
    g.(evidence := MergedEvidence(g.evidence, f.evidence), locations := AddLocations(g.locations, f.locations))
  }

  predicate KeyAt(out: seq<Finding>, key: string, i: nat) {
    i < |out| && Key(out[i]) == key
  }

  predicate HasKey(out: seq<Finding>, key: string) {
    exists i :: 0 <= i < |out| && KeyAt(out, key, i)
  }

  /** The result so far after one more finding. */
  function AddFinding(out: seq<Finding>, f: Finding): seq<Finding>
  {
    seq(|out|, i requires 0 <= i < |out| => if Key(out[i]) == Key(f) then Absorb(out[i], f) else out[i])
    + if HasKey(out, Key(f)) then [] else [f]
  }

  function Deduplicated(fs: seq<Finding>): seq<Finding> {
    if fs == [] then [] else AddFinding(Deduplicated(fs[..|fs| - 1]), fs[|fs| - 1])
  }

  predicate DistinctKeys(fs: seq<Finding>) {
    forall i, j :: 0 <= i < j < |fs| ==> Key(fs[i]) != Key(fs[j])
  }

  // ----- the loop -----

  method MergeLocations(known: seq<Location>, more: seq<Location>) returns (r: seq<Location>)
    ensures r == AddLocations(known, more)
  {
    r := known;
    for k := 0 to |more|
      invariant r == AddLocations(known, more[..k])
    {
      assert more[..k + 1][..k] == more[..k];
      var found := false;
      for j := 0 to |r|
        invariant found <==> more[k] in r[..j]
      {
        assert r[..j + 1] == r[..j] + [r[j]];
        if more[k] == r[j] {
          found := true;
        }
      }
      assert r[..|r|] == r;
      if !found {
        r := r + [more[k]];
      }
    }
    assert more[..|more|] == more;
  }

  /** `seen` maps each key to the place of its first finding. */
  predicate Indexes(seen: map<string, nat>, out: seq<Finding>) {
    && (forall i :: 0 <= i < |out| ==> Key(out[i]) in seen && seen[Key(out[i])] == i)
    && (forall k :: k in seen ==> seen[k] < |out| && Key(out[seen[k]]) == k)
  }

  lemma AbsorbKeepsKey(g: Finding, f: Finding)
    ensures Key(Absorb(g, f)) == Key(g)
  {
  }

  lemma AddSeen(out: seq<Finding>, f: Finding, seen: map<string, nat>)
    requires Indexes(seen, out)
    ensures Key(f) in seen ==>
              AddFinding(out, f) == out[seen[Key(f)] := Absorb(out[seen[Key(f)]], f)] &&
                  Indexes(seen, AddFinding(out, f))
    ensures Key(f) !in seen ==>
              AddFinding(out, f) == out + [f] && Indexes(seen[Key(f) := |out|], AddFinding(out, f))
  {
    var next := AddFinding(out, f);
    hide Key, Absorb;
    if Key(f) in seen {
      assert KeyAt(out, Key(f), seen[Key(f)]);
      AbsorbKeepsKey(out[seen[Key(f)]], f);
      assert next == out[seen[Key(f)] := Absorb(out[seen[Key(f)]], f)];
    } else {
      assert !HasKey(out, Key(f));
      assert next == out + [f];
    }
  }

  method DeduplicateFindings(fs: seq<Finding>) returns (out: seq<Finding>)
    ensures out == Deduplicated(fs)
  {
    hide Contains, Key, AddFinding;
    out := [];
    var seen: map<string, nat> := map[];
    for n := 0 to |fs|
      invariant out == Deduplicated(fs[..n]) && Indexes(seen, out)
    {
      var f := fs[n];
      assert fs[..n + 1][..n] == fs[..n];
      AddSeen(out, f, seen);
      var key := Key(f);
      if key in seen {
        var i := seen[key];
        var g := out[i];
        if f.evidence != "" && !Contains(g.evidence, f.evidence) {
          g := g.(evidence := g.evidence + "\n" + f.evidence);
        }
        var locations := MergeLocations(g.locations, f.locations);
        out := out[i := g.(locations := locations)];
        continue;
      }
      seen := seen[key := |out|];
      out := out + [f];
    }
    assert fs[..|fs|] == fs;
  }

  // ----- what is kept -----

  /** A finding consolidated into another: same concern, and nothing it reported is lost. */
  predicate Covered(f: Finding, g: Finding) {
    && Key(g) == Key(f)
    && (f.evidence == "" || Contains(g.evidence, f.evidence))
    && (forall l :: l in f.locations ==> l in g.locations)
  }

  lemma {:induction false} LocationsKept(known: seq<Location>, more: seq<Location>)
    ensures forall l :: l in AddLocations(known, more) <==> l in known || l in more
    ensures known <= AddLocations(known, more)
  {
    if more != [] {
      LocationsKept(known, more[..|more| - 1]);
      assert more == more[..|more| - 1] + [more[|more| - 1]];
    }
  }

  lemma AbsorbCovers(g: Finding, f: Finding, h: Finding)
    requires Key(f) == Key(g)
    ensures Covered(f, Absorb(g, f))
    ensures Covered(h, g) ==> Covered(h, Absorb(g, f))
    ensures NonBlank(g.evidence) ==> NonBlank(Absorb(g, f).evidence)
  {
    hide Key, NonBlank;
    AbsorbKeepsKey(g, f);
    LocationsKept(g.locations, f.locations);
    if f.evidence != "" && !Contains(g.evidence, f.evidence) {
      ContainsSuffix(g.evidence + "\n", f.evidence);
      assert g.evidence + ("\n" + f.evidence) == g.evidence + "\n" + f.evidence;
      if NonBlank(g.evidence) {
        NonBlankAfterAppend(g.evidence, "\n" + f.evidence);
      }
      if h.evidence != "" && Contains(g.evidence, h.evidence) {
        ContainsAfterAppend(g.evidence, "\n" + f.evidence, h.evidence);
      }
    }
  }

  predicate CoveredBy(f: Finding, out: seq<Finding>) {
    exists i :: 0 <= i < |out| && Covered(f, out[i])
  }

  lemma AddFindingCovers(out: seq<Finding>, f: Finding, h: Finding)
    requires h == f || CoveredBy(h, out)
    ensures CoveredBy(h, AddFinding(out, f))
  {
    hide Key, Contains;
    var next := AddFinding(out, f);
    if h == f {
      if HasKey(out, Key(f)) {
        var i :| 0 <= i < |out| && KeyAt(out, Key(f), i);
        AbsorbCovers(out[i], f, f);
        assert Covered(f, next[i]);
      } else {
        assert next[|out|] == f;
        CoversItself(f);
      }
    } else {
      var i :| 0 <= i < |out| && Covered(h, out[i]);
      if Key(out[i]) == Key(f) {
        AbsorbCovers(out[i], f, h);
      }
      assert Covered(h, next[i]);
    }
  }

  lemma CoversItself(f: Finding)
    ensures Covered(f, f)
  {
    assert OccursAt(f.evidence, f.evidence, 0);
  }

  /** Every finding's concern survives with all of its evidence and locations. */
  lemma {:induction false} NothingIsLost(fs: seq<Finding>, k: nat)
    requires k < |fs|
    ensures CoveredBy(fs[k], Deduplicated(fs))
  {
    hide AddFinding, CoveredBy;
    var init := fs[..|fs| - 1];
    if k < |init| {
      NothingIsLost(init, k);
      assert init[k] == fs[k];
    }
    AddFindingCovers(Deduplicated(init), fs[|fs| - 1], fs[k]);
  }

  /** The first finding of a key. */
  predicate FirstOfKey(fs: seq<Finding>, k: nat) {
    k < |fs| && forall j :: 0 <= j < k ==> Key(fs[j]) != Key(fs[k])
  }

  /** The same finding but for evidence and locations gathered from others. */
  predicate Grown(f: Finding, g: Finding) {
    && g == f.(evidence := g.evidence, locations := g.locations)
    && (NonBlank(f.evidence) ==> NonBlank(g.evidence))
  }

  predicate GrownFrom(fs: seq<Finding>, g: Finding, k: nat) {
    FirstOfKey(fs, k) && Grown(fs[k], g)
  }

  predicate LocationsFrom(fs: seq<Finding>, g: Finding) {
    forall l :: l in g.locations ==> exists k :: 0 <= k < |fs| && l in fs[k].locations
  }

  predicate HasOrigin(fs: seq<Finding>, g: Finding) {
    exists k :: 0 <= k < |fs| && GrownFrom(fs, g, k)
  }

  predicate Survives(f: Finding, out: seq<Finding>) {
    exists i :: 0 <= i < |out| && Grown(f, out[i])
  }

  /** Each surviving finding is the first of its key, grown by the others; every first finding survives. */
  predicate Survivors(fs: seq<Finding>, out: seq<Finding>) {
    && DistinctKeys(out)
    && (forall i :: 0 <= i < |out| ==> LocationsFrom(fs, out[i]) && HasOrigin(fs, out[i]))
    && (forall k :: 0 <= k < |fs| && FirstOfKey(fs, k) ==> Survives(fs[k], out))
  }

  lemma LocationsFromMore(fs: seq<Finding>, f: Finding, g: Finding)
    requires LocationsFrom(fs, g)
    ensures LocationsFrom(fs + [f], g)
    ensures LocationsFrom(fs + [f], Absorb(g, f))
    ensures LocationsFrom(fs + [f], f)
  {
    hide Key, MergedEvidence;
    var all := fs + [f];
    LocationsKept(g.locations, f.locations);
    forall l | l in g.locations ensures exists k :: 0 <= k < |all| && l in all[k].locations {
      var k :| 0 <= k < |fs| && l in fs[k].locations;
      assert all[k] == fs[k];
    }
    assert all[|fs|] == f;
  }

  lemma GrownMore(fs: seq<Finding>, f: Finding, g: Finding, k: nat)
    requires GrownFrom(fs, g, k)
    ensures GrownFrom(fs + [f], g, k)
    ensures Key(g) == Key(f) ==> GrownFrom(fs + [f], Absorb(g, f), k)
  {
    hide Contains, NonBlank, MergedEvidence, AddLocations;
    var all := fs + [f];
    assert all[k] == fs[k];
    assert forall j :: 0 <= j < k ==> all[j] == fs[j];
    hide Key;
    if Key(g) == Key(f) {
      AbsorbCovers(g, f, g);
    }
  }

  lemma GrownKey(f: Finding, g: Finding)
    requires Grown(f, g)
    ensures Key(g) == Key(f) && Failing(g) == Failing(f)
  {
  }

  lemma KeySurvives(fs: seq<Finding>, out: seq<Finding>, j: nat)
    requires Survivors(fs, out) && j < |fs|
    ensures HasKey(out, Key(fs[j]))
  {
    hide Key, NonBlank;
    FirstExists(fs, j);
    var k :| 0 <= k <= j && FirstOfKey(fs, k) && Key(fs[k]) == Key(fs[j]);
    assert Survives(fs[k], out);
    var i :| 0 <= i < |out| && Grown(fs[k], out[i]);
    GrownKey(fs[k], out[i]);
    assert KeyAt(out, Key(fs[j]), i);
  }

  lemma NewIsFirst(fs: seq<Finding>, out: seq<Finding>, f: Finding)
    requires Survivors(fs, out)
    ensures FirstOfKey(fs + [f], |fs|) <==> !HasKey(out, Key(f))
    ensures GrownFrom(fs + [f], f, |fs|) <==> !HasKey(out, Key(f))
  {
    hide Key, NonBlank;
    var all := fs + [f];
    assert all[|fs|] == f;
    assert forall j :: 0 <= j < |fs| ==> all[j] == fs[j];
    if HasKey(out, Key(f)) {
      var i :| 0 <= i < |out| && KeyAt(out, Key(f), i);
      var k :| 0 <= k < |fs| && GrownFrom(fs, out[i], k);
      GrownKey(fs[k], out[i]);
      assert Key(all[k]) == Key(f);
    } else {
      forall j | 0 <= j < |fs| ensures HasKey(out, Key(fs[j])) {
        KeySurvives(fs, out, j);
      }
    }
  }

  lemma {:induction false} FirstExists(fs: seq<Finding>, j: nat)
    requires j < |fs|
    ensures exists k :: 0 <= k <= j && FirstOfKey(fs, k) && Key(fs[k]) == Key(fs[j])
    decreases j
  {
    hide Key;
    if !FirstOfKey(fs, j) {
      var i :| 0 <= i < j && Key(fs[i]) == Key(fs[j]);
      FirstExists(fs, i);
      var k :| 0 <= k <= i && FirstOfKey(fs, k) && Key(fs[k]) == Key(fs[i]);
      assert 0 <= k <= j && FirstOfKey(fs, k) && Key(fs[k]) == Key(fs[j]);
    } else {
      assert 0 <= j <= j && FirstOfKey(fs, j) && Key(fs[j]) == Key(fs[j]);
    }
  }

  lemma SurvivorsNext(fs: seq<Finding>, out: seq<Finding>, f: Finding)
    requires Survivors(fs, out)
    ensures Survivors(fs + [f], AddFinding(out, f))
  {
    hide Key, Absorb, LocationsFrom, GrownFrom, Grown, FirstOfKey, HasKey;
    var all, next := fs + [f], AddFinding(out, f);
    NewIsFirst(fs, out, f);
    KeysStayDistinct(out, f);
    forall i | 0 <= i < |next| ensures LocationsFrom(all, next[i]) && HasOrigin(all, next[i]) {
      if i < |out| {
        LocationsFromMore(fs, f, out[i]);
        var k :| 0 <= k < |fs| && GrownFrom(fs, out[i], k);
        GrownMore(fs, f, out[i], k);
        assert GrownFrom(all, next[i], k);
      } else {
        NewLocations(fs, f);
        assert GrownFrom(all, next[i], |fs|);
      }
    }
    forall k | 0 <= k < |all| && FirstOfKey(all, k) ensures Survives(all[k], next) {
      SurvivesNext(fs, out, f, k);
    }
  }

  lemma NewLocations(fs: seq<Finding>, f: Finding)
    ensures LocationsFrom(fs + [f], f)
  {
    assert (fs + [f])[|fs|] == f;
  }

  lemma KeysStayDistinct(out: seq<Finding>, f: Finding)
    requires DistinctKeys(out)
    ensures DistinctKeys(AddFinding(out, f))
  {
    var next := AddFinding(out, f);
    hide Key, Absorb;
    forall i | 0 <= i < |out| ensures Key(next[i]) == Key(out[i]) {
      AbsorbKeepsKey(out[i], f);
    }
    forall i | 0 <= i < |out| && |next| > |out| ensures Key(out[i]) != Key(f) {
      assert KeyAt(out, Key(f), i) <==> Key(out[i]) == Key(f);
    }
  }

  lemma SurvivesNext(fs: seq<Finding>, out: seq<Finding>, f: Finding, k: nat)
    requires Survivors(fs, out) && k < |fs + [f]| && FirstOfKey(fs + [f], k)
    ensures Survives((fs + [f])[k], AddFinding(out, f))
  {
    hide Key, LocationsFrom, HasOrigin, NonBlank, MergedEvidence;
    var all, next := fs + [f], AddFinding(out, f);
    if k < |fs| {
      assert forall j :: 0 <= j <= k ==> all[j] == fs[j];
      assert FirstOfKey(fs, k);
      var i :| 0 <= i < |out| && Grown(fs[k], out[i]);
      AbsorbGrows(fs[k], out[i], f);
      assert Grown(fs[k], next[i]);
    } else {
      NewIsFirst(fs, out, f);
      assert next[|out|] == f;
      assert Grown(f, next[|out|]);
    }
  }

  lemma AbsorbGrows(f: Finding, g: Finding, h: Finding)
    requires Grown(f, g)
    ensures Key(g) == Key(h) ==> Grown(f, Absorb(g, h))
  {
    hide Key, NonBlank;
    if Key(g) == Key(h) {
      AbsorbCovers(g, h, g);
    }
  }

  lemma NoSurvivors()
    ensures Survivors([], [])
  {
  }

  lemma {:induction false} DeduplicatedSurvivors(fs: seq<Finding>)
    ensures Survivors(fs, Deduplicated(fs))
  {
    hide AddFinding, Key, Survivors;
    if fs == [] {
      NoSurvivors();
    } else {
      var init, last := fs[..|fs| - 1], fs[|fs| - 1];
      DeduplicatedSurvivors(init);
      SurvivorsNext(init, Deduplicated(init), last);
      assert init + [last] == fs;
      assert Deduplicated(fs) == AddFinding(Deduplicated(init), last);
    }
  }

  /** Findings of distinct concerns are left alone. */
  lemma {:induction false} DistinctIsUnchanged(fs: seq<Finding>)
    requires DistinctKeys(fs)
    ensures Deduplicated(fs) == fs
  {
    hide Key;
    if fs != [] {
      var init, f := fs[..|fs| - 1], fs[|fs| - 1];
      DistinctIsUnchanged(init);
      assert forall i :: 0 <= i < |init| ==> init[i] == fs[i] && !KeyAt(init, Key(f), i);
      assert AddFinding(init, f) == init + [f];
      assert init + [f] == fs;
    }
  }

  /** Consolidating twice is consolidating once. */
  lemma DeduplicationIsIdempotent(fs: seq<Finding>)
    ensures Deduplicated(Deduplicated(fs)) == Deduplicated(fs)
  {
    DeduplicatedSurvivors(fs);
    DistinctIsUnchanged(Deduplicated(fs));
  }
}
