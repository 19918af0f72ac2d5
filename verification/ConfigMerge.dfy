/** Synchronizing repository entries between machines: the last write of an entry wins. */
module ConfigMerge {
  import opened Basics
  import opened Texts

  /** UpdatedAt; Never is the zero time of entries that predate it. */
  datatype Stamp = Never | At(time: int)

  /** The entry as it is uploaded. */
  datatype Syncable = Syncable(
    acceptanceMaxParallel: int,
    acceptanceWorker: string,
    workerTags: seq<string>,
    workerTagsByKind: map<string, seq<string>>,
    allowedIssueAuthors: seq<string>,
    priority: int,
    acceptanceSetupCommand: string,
    enabled: bool,
    platform: string,
    baseUrl: string,
    baseBranch: string,
    owner: string,
    description: string,
    addedAt: string,
    webhookConfigured: bool,
    labels: map<string, string>,
    testCommand: string,
    ciRequired: bool,
    ciTimeout: int,
    autoMerge: bool,
    pilotOverrideMerge: bool,
    selfUpgrade: bool,
    boundMachine: string,
    maxInFlight: int,
    updatedAt: Stamp,
    updatedBy: string)

  /** Fields of an entry that the upload has no place for. */
  datatype Unsynced = Unsynced(
    testingSopRequired: bool,
    testingSopDigest: string,
    requiredCapabilities: seq<string>,
    coordinatorActive: map<int, bool>,
    coordinatorMode: bool,
    acceptanceRequired: bool,
    acceptanceOverlapCi: Option<bool>,
    primaryProject: string)

  const UNSET := Unsynced(false, "", [], map[], false, false, None, "")

  datatype Repo = Repo(
    acceptanceMaxParallel: int,
    acceptanceWorker: string,
    workerTags: seq<string>,
    workerTagsByKind: map<string, seq<string>>,
    allowedIssueAuthors: seq<string>,
    priority: int,
    acceptanceSetupCommand: string,
    enabled: bool,
    platform: string,
    baseUrl: string,
    baseBranch: string,
    localPath: string,
    owner: string,
    description: string,
    addedAt: string,
    webhookConfigured: bool,
    labels: map<string, string>,
    testCommand: string,
    ciRequired: bool,
    ciTimeout: int,
    autoMerge: bool,
    pilotOverrideMerge: bool,
    selfUpgrade: bool,
    boundMachine: string,
    maxInFlight: int,
    updatedAt: Stamp,
    updatedBy: string,
    unsynced: Unsynced)

  type Repos = map<string, Repo>
  type Remote = map<string, Syncable>

  function ToSyncable(r: Repo): Syncable {
    Syncable(
      r.acceptanceMaxParallel, r.acceptanceWorker, r.workerTags, r.workerTagsByKind, r.allowedIssueAuthors, r.priority,
      r.acceptanceSetupCommand, r.enabled, r.platform, r.baseUrl, r.baseBranch, r.owner, r.description, r.addedAt,
      r.webhookConfigured, r.labels, r.testCommand, r.ciRequired, r.ciTimeout, r.autoMerge, r.pilotOverrideMerge,
      r.selfUpgrade, r.boundMachine, r.maxInFlight, r.updatedAt, r.updatedBy)
  }

  function FromSyncable(s: Syncable, localPath: string): Repo {
    Repo(
      s.acceptanceMaxParallel, s.acceptanceWorker, s.workerTags, s.workerTagsByKind, s.allowedIssueAuthors, s.priority,
      s.acceptanceSetupCommand, s.enabled, s.platform, s.baseUrl, s.baseBranch, localPath, s.owner, s.description,
          s.addedAt,
      s.webhookConfigured, s.labels, s.testCommand, s.ciRequired, s.ciTimeout, s.autoMerge, s.pilotOverrideMerge,
      s.selfUpgrade, s.boundMachine, s.maxInFlight, s.updatedAt, s.updatedBy, UNSET)
  }

  function TrimSuffix(s: string, suffix: string): string {
    if |s| >= |suffix| && s[|s| - |suffix|..] == suffix then s[..|s| - |suffix|] else s
  }

  function HostTag(hostname: string): string {
    if hostname == "" then "" else "host-" + TrimSuffix(Lower(hostname), ".local")
  }

  /** What YAML carries of an uploaded entry: its machine binding only as a host tag. */
  function Carried(s: Syncable): Syncable {
    var tag := HostTag(s.boundMachine);
    s.(boundMachine := "",
       workerTags := if tag != "" && tag !in s.workerTags then s.workerTags + [tag] else s.workerTags)
  }

  /** Equality of the encodings without the timestamp fields. */
  predicate SyncableEqual(a: Syncable, b: Syncable) {
    Carried(a).(updatedAt := Never, updatedBy := "") == Carried(b).(updatedAt := Never, updatedBy := "")
  }

  // ----- the merge -----

  predicate After(a: Stamp, b: Stamp) {
    a.At? && b.At? && a.time > b.time
  }

  /** The remote entry replaces the local one. */
  predicate RemoteWins(local: Repo, remote: Syncable) {
    local.updatedAt.Never? || After(remote.updatedAt, local.updatedAt)
  }

  predicate Conflicting(local: Repo, remote: Syncable) {
    local.updatedAt.At? && remote.updatedAt == local.updatedAt && !SyncableEqual(ToSyncable(local), remote)
  }

  function MergedEntry(local: Repo, remote: Syncable): Repo {
    if RemoteWins(local, remote) then FromSyncable(remote, local.localPath) else local
  }

  function Chosen(local: Repos, remote: Remote, k: string): Repo
    requires k in local || k in remote
  {
    if k !in remote then local[k]
    else if k !in local then FromSyncable(remote[k], "")
    else MergedEntry(local[k], remote[k])
  }

  function MergedRepos(local: Repos, remote: Remote): Repos {
    map k | k in local.Keys + remote.Keys :: Chosen(local, remote, k)
  }

  function Conflicts(local: Repos, remote: Remote): set<string> {
    set k | k in local && k in remote && Conflicting(local[k], remote[k])
  }

  /** One iteration over the remote entries: None keeps what is there. */
  method Decide(local: Repos, k: string, remote: Syncable) returns (entry: Option<Repo>, conflict: bool)
    ensures entry == if k !in local then Some(FromSyncable(remote, ""))
                     else if RemoteWins(local[k], remote) then Some(FromSyncable(remote, local[k].localPath))
                     else None
    ensures conflict <==> k in local && Conflicting(local[k], remote)
  {
    hide FromSyncable, SyncableEqual;
    entry, conflict := None, false;
    if k !in local {
      return Some(FromSyncable(remote, "")), false;
    }
    var localTs, remoteTs := local[k].updatedAt, remote.updatedAt;
    if remoteTs.Never? && localTs.Never? {
      entry := Some(FromSyncable(remote, local[k].localPath));
    } else if remoteTs.Never? {
      // The local entry has a timestamp: keep it.
    } else if localTs.Never? || After(remoteTs, localTs) {
      entry := Some(FromSyncable(remote, local[k].localPath));
    } else if After(localTs, remoteTs) {
      // The local entry is newer: keep it.
    } else {
      conflict := !SyncableEqual(ToSyncable(local[k]), remote);
    }
  }

  lemma ChosenCases(local: Repos, remote: Remote, k: string)
    ensures k in local && k !in remote ==> Chosen(local, remote, k) == local[k]
    ensures k in remote && k !in local ==> Chosen(local, remote, k) == FromSyncable(remote[k], "")
    ensures k in remote && k in local ==>
              Chosen(local, remote, k) == if RemoteWins(local[k], remote[k])
                  then FromSyncable(remote[k], local[k].localPath) else local[k]
  {
  }

  /** The remote entries not in `left` have been merged. */
  ghost predicate MergedSoFar(local: Repos, remote: Remote, left: set<string>, merged: Repos) {
    && merged.Keys == local.Keys + (remote.Keys - left)
    && (forall k :: k in merged && k in left ==> k in local && merged[k] == local[k])
    && (forall k :: k in merged && k !in left ==> merged[k] == Chosen(local, remote, k))
  }

  lemma MergeStep(local: Repos, remote: Remote, left: set<string>, merged: Repos, k: string)
    requires left <= remote.Keys && k in left && MergedSoFar(local, remote, left, merged)
    ensures MergedSoFar(local, remote, left - {k}, merged[k := Chosen(local, remote, k)])
  {
    hide Chosen;
  }

  /** The merge; on a conflict the local entry is kept and, when fatal, the caller is told which keys conflict. */
  method MergeConfigs(local: Repos, remote: Remote) returns (merged: Repos, conflicts: set<string>)
    ensures merged == MergedRepos(local, remote)
    ensures conflicts == Conflicts(local, remote)
  {
    hide Conflicting, FromSyncable, Chosen, RemoteWins, MergedSoFar;
    merged, conflicts := local, {};
    var left := remote.Keys;
    assert MergedSoFar(local, remote, left, merged) by {
      MergeStart(local, remote);
    }
    while left != {}
      invariant left <= remote.Keys && MergedSoFar(local, remote, left, merged)
      invariant forall k :: k in conflicts <==>
                  k in local && k in remote && k !in left && Conflicting(local[k], remote[k])
      decreases |left|
    {
      var k :| k in left;
      var entry, conflict := Decide(local, k, remote[k]);
      ChosenCases(local, remote, k);
      MergeStep(local, remote, left, merged, k);
      if k in local {
        KeptIsThere(local, remote, left, merged, k);
      }
      if entry.Some? {
        merged := merged[k := entry.value];
      }
      if conflict {
        conflicts := conflicts + {k};
      }
      left := left - {k};
    }
    MergeDone(local, remote, merged);
  }

  lemma MergeStart(local: Repos, remote: Remote)
    ensures MergedSoFar(local, remote, remote.Keys, local)
  {
    forall k | k in local && k !in remote.Keys ensures local[k] == Chosen(local, remote, k) {
      ChosenCases(local, remote, k);
    }
    hide Chosen;
  }

  lemma KeptIsThere(local: Repos, remote: Remote, left: set<string>, merged: Repos, k: string)
    requires k in left && k in local && MergedSoFar(local, remote, left, merged)
    ensures k in merged && merged[k := local[k]] == merged
  {
    hide Chosen;
  }

  lemma MergeDone(local: Repos, remote: Remote, merged: Repos)
    requires MergedSoFar(local, remote, {}, merged)
    ensures merged == MergedRepos(local, remote)
  {
    hide Chosen;
  }

  /** A machine's configuration. */
  class Config {
    var repos: Repos

    constructor (repos: Repos)
      ensures this.repos == repos
    {
      this.repos := repos;
    }

    /** Stamps every entry that has no timestamp. */
    method MigrateTimestamps(now: int, hostname: string) returns (migrated: bool)
      modifies this
      ensures repos == Migrated(old(repos), now, hostname)
      ensures migrated <==> exists k :: k in old(repos) && old(repos)[k].updatedAt.Never?
    {
      hide MigratedEntry, MigratedSoFar, AnyLegacy;
      migrated := false;
      var left := repos.Keys;
      ghost var before := repos;
      assert MigratedSoFar(before, repos, left, now, hostname) && !AnyLegacy(before, left) by {
        MigrationStart(before, now, hostname);
      }
      while left != {}
        invariant left <= repos.Keys == before.Keys
        invariant MigratedSoFar(before, repos, left, now, hostname)
        invariant migrated == AnyLegacy(before, left)
        decreases |left|
      {
        var k :| k in left;
        var r := repos[k];
        MigrationStep(before, repos, left, now, hostname, k);
        if r.updatedAt.Never? {
          r := r.(updatedAt := At(now), updatedBy := hostname);
          migrated := true;
        }
        repos := repos[k := r];
        left := left - {k};
      }
      MigrationDone(before, repos, now, hostname);
    }
  }

  ghost predicate MigratedSoFar(before: Repos, repos: Repos, left: set<string>, now: int, hostname: string) {
    && repos.Keys == before.Keys
    && forall k :: k in before ==> repos[k] == if k in left then before[k] else MigratedEntry(before[k], now, hostname)
  }

  ghost predicate AnyLegacy(before: Repos, left: set<string>) {
    exists k :: k in before && k !in left && before[k].updatedAt.Never?
  }

  lemma MigrationStart(before: Repos, now: int, hostname: string)
    ensures MigratedSoFar(before, before, before.Keys, now, hostname) && !AnyLegacy(before, before.Keys)
  {
    hide MigratedEntry;
  }

  lemma MigrationStep(before: Repos, repos: Repos, left: set<string>, now: int, hostname: string, k: string)
    requires left <= before.Keys && k in left && MigratedSoFar(before, repos, left, now, hostname)
    ensures var r := if repos[k].updatedAt.Never? then repos[k].(updatedAt := At(now), updatedBy := hostname)
              else repos[k];
            MigratedSoFar(before, repos[k := r], left - {k}, now, hostname)
    ensures AnyLegacy(before, left - {k}) == (AnyLegacy(before, left) || repos[k].updatedAt.Never?)
  {
    MigratedIsStamped(before[k], now, hostname);
    hide MigratedEntry;
    if AnyLegacy(before, left) {
      var l :| l in before && l !in left && before[l].updatedAt.Never?;
      assert l !in left - {k};
    }
    if before[k].updatedAt.Never? {
      assert k !in left - {k};
    }
  }

  lemma MigrationDone(before: Repos, repos: Repos, now: int, hostname: string)
    requires MigratedSoFar(before, repos, {}, now, hostname)
    ensures repos == Migrated(before, now, hostname)
    ensures AnyLegacy(before, {}) == exists k :: k in before && before[k].updatedAt.Never?
  {
    hide MigratedEntry;
    if exists k :: k in before && before[k].updatedAt.Never? {
      var k :| k in before && before[k].updatedAt.Never?;
      assert k !in {};
    }
  }

  function MigratedEntry(r: Repo, now: int, hostname: string): Repo {
    if r.updatedAt.Never? then r.(updatedAt := At(now), updatedBy := hostname) else r
  }

  lemma MigratedIsStamped(r: Repo, now: int, hostname: string)
    ensures MigratedEntry(r, now, hostname) == if r.updatedAt.Never?
              then r.(updatedAt := At(now), updatedBy := hostname) else r
  {
  }

  function Migrated(repos: Repos, now: int, hostname: string): Repos {
    map k | k in repos :: MigratedEntry(repos[k], now, hostname)
  }

  // ----- conversions -----

  /** Uploading what was downloaded gives back the upload. */
  lemma UploadOfDownload(s: Syncable, localPath: string)
    ensures ToSyncable(FromSyncable(s, localPath)) == s
    ensures FromSyncable(s, localPath).localPath == localPath
  {
  }

  /**
   Downloading one's own upload gives the entry back exactly when it sets none of the fields
   the upload leaves out.
   */
  lemma DownloadOfUpload(r: Repo)
    ensures FromSyncable(ToSyncable(r), r.localPath) == r <==> r.unsynced == UNSET
  {
  }

  // ----- last write wins, on the uploaded fields -----

  /** The synchronized content of an entry, without the informational machine name. */
  function Content(s: Syncable): Syncable {
    Carried(s).(updatedBy := "")
  }

  function View(repos: Repos): map<string, Syncable> {
    map k | k in repos :: Content(ToSyncable(repos[k]))
  }

  /** What another machine downloads of these entries. */
  function Sent(repos: Repos): Remote {
    map k | k in repos :: Carried(ToSyncable(repos[k]))
  }

  function StampOf(s: Syncable): Stamp {
    s.updatedAt
  }

  function Later<T>(at: T -> Stamp, a: T, b: T): T {
    if After(at(b), at(a)) then b else a
  }

  /** Per entry, the one written later. */
  function LastWrites<T>(at: T -> Stamp, x: map<string, T>, y: map<string, T>): map<string, T> {
    map k | k in x.Keys + y.Keys :: if k !in y then x[k] else if k !in x then y[k] else Later(at, x[k], y[k])
  }

  predicate Timestamped<T>(at: T -> Stamp, x: map<string, T>) {
    forall k :: k in x ==> at(x[k]).At?
  }

  /** Entries written at the same time are the same. */
  predicate Agreeing<T(==)>(at: T -> Stamp, x: map<string, T>, y: map<string, T>) {
    forall k :: k in x && k in y && at(x[k]) == at(y[k]) ==> x[k] == y[k]
  }

  lemma CarriedTwice(s: Syncable)
    ensures Carried(Carried(s)) == Carried(s)
  {
  }

  lemma CarriedKeepsStamp(s: Syncable)
    ensures Carried(s).updatedAt == s.updatedAt == Content(s).updatedAt
  {
    hide HostTag;
  }

  lemma AddedEntry(b: Repo, localPath: string)
    ensures Content(ToSyncable(FromSyncable(Carried(ToSyncable(b)), localPath))) == Content(ToSyncable(b))
  {
    hide HostTag;
    UploadOfDownload(Carried(ToSyncable(b)), localPath);
    CarriedTwice(ToSyncable(b));
  }

  lemma MergedEntryIsLater(a: Repo, b: Repo)
    requires a.updatedAt.At? && b.updatedAt.At?
    ensures Content(ToSyncable(MergedEntry(a, Carried(ToSyncable(b))))) ==
              Later(StampOf, Content(ToSyncable(a)), Content(ToSyncable(b)))
  {
    AddedEntry(b, a.localPath);
    CarriedKeepsStamp(ToSyncable(a));
    CarriedKeepsStamp(ToSyncable(b));
    hide Carried, Content, FromSyncable;
  }

  lemma ViewStamps(a: Repos, k: string)
    requires k in a && Timestamped(StampOf, View(a))
    ensures a[k].updatedAt.At?
  {
    CarriedKeepsStamp(ToSyncable(a[k]));
    assert StampOf(View(a)[k]).At?;
  }

  lemma ChosenIsLastWrite(a: Repos, b: Repos, k: string)
    requires Timestamped(StampOf, View(a)) && Timestamped(StampOf, View(b)) && (k in a || k in b)
    ensures k in LastWrites(StampOf, View(a), View(b))
    ensures Content(ToSyncable(Chosen(a, Sent(b), k))) == LastWrites(StampOf, View(a), View(b))[k]
  {
    if k in b {
      AddedEntry(b[k], "");
      if k in a {
        ViewStamps(a, k);
        ViewStamps(b, k);
        MergedEntryIsLater(a[k], b[k]);
      }
    }
    hide Carried, Content, FromSyncable, MergedEntry, ToSyncable, Later, Timestamped;
  }

  /** Merging with what another machine sent is last-write-wins on the synchronized content. */
  lemma MergeIsLastWriteWins(a: Repos, b: Repos)
    requires Timestamped(StampOf, View(a)) && Timestamped(StampOf, View(b))
    ensures View(MergedRepos(a, Sent(b))) == LastWrites(StampOf, View(a), View(b))
  {
    hide Carried, Content, ToSyncable, Later, Timestamped, Chosen;
    var m := MergedRepos(a, Sent(b));
    forall k | k in m ensures Content(ToSyncable(m[k])) == LastWrites(StampOf, View(a), View(b))[k] {
      ChosenIsLastWrite(a, b, k);
    }
    assert View(m).Keys == LastWrites(StampOf, View(a), View(b)).Keys;
  }

  /** Two machines conflict exactly where their contents disagree at one time. */
  lemma ConflictsAreDisagreements(a: Repos, b: Repos)
    requires Timestamped(StampOf, View(a)) && Timestamped(StampOf, View(b))
    ensures Conflicts(a, Sent(b)) == {} <==> Agreeing(StampOf, View(a), View(b))
  {
    hide Lower, TrimSuffix, HostTag;
    forall k | k in a && k in b ensures Conflicting(a[k], Sent(b)[k]) <==>
                                         View(a)[k].updatedAt == View(b)[k].updatedAt && View(a)[k] != View(b)[k]
    {
      assert View(a)[k].updatedAt.At?;
      CarriedTwice(ToSyncable(b[k]));
    }
    if Agreeing(StampOf, View(a), View(b)) {
      forall k ensures k !in Conflicts(a, Sent(b)) {
      }
    }
    if Conflicts(a, Sent(b)) == {} {
      forall k | k in a && k in b && View(a)[k].updatedAt == View(b)[k].updatedAt ensures View(a)[k] == View(b)[k] {
        assert k !in Conflicts(a, Sent(b));
      }
    }
  }

  /** It does not matter who merges: both machines end with the same content. */
  lemma MergeCommutes(a: Repos, b: Repos)
    requires Timestamped(StampOf, View(a)) && Timestamped(StampOf, View(b)) && Agreeing(StampOf, View(a), View(b))
    ensures View(MergedRepos(a, Sent(b))) == View(MergedRepos(b, Sent(a)))
  {
    hide View, Sent, MergedRepos, LastWrites, Timestamped, Agreeing;
    MergeIsLastWriteWins(a, b);
    MergeIsLastWriteWins(b, a);
    LastWritesCommute(StampOf, View(a), View(b));
  }

  lemma LastWritesAssociate<T>(at: T -> Stamp, x: map<string, T>, y: map<string, T>, z: map<string, T>)
    requires Timestamped(at, x) && Timestamped(at, y) && Timestamped(at, z)
    ensures LastWrites(at, LastWrites(at, x, y), z) == LastWrites(at, x, LastWrites(at, y, z))
  {
    var l, r := LastWrites(at, LastWrites(at, x, y), z), LastWrites(at, x, LastWrites(at, y, z));
    assert l.Keys == r.Keys;
    forall k | k in l ensures l[k] == r[k] {
    }
  }

  lemma LastWritesCommute<T>(at: T -> Stamp, x: map<string, T>, y: map<string, T>)
    requires Timestamped(at, x) && Timestamped(at, y) && Agreeing(at, x, y)
    ensures LastWrites(at, x, y) == LastWrites(at, y, x)
  {
    var l, r := LastWrites(at, x, y), LastWrites(at, y, x);
    assert l.Keys == r.Keys;
    forall k | k in l ensures l[k] == r[k] {
    }
  }

  lemma LastWritesOfItself<T>(at: T -> Stamp, x: map<string, T>)
    ensures LastWrites(at, x, x) == x
  {
    assert LastWrites(at, x, x).Keys == x.Keys;
  }

  /** It does not matter in which order three machines' entries meet. */
  lemma MergeAssociates(a: Repos, b: Repos, c: Repos)
    requires Timestamped(StampOf, View(a)) && Timestamped(StampOf, View(b)) && Timestamped(StampOf, View(c))
    ensures View(MergedRepos(MergedRepos(a, Sent(b)), Sent(c))) == View(MergedRepos(a, Sent(MergedRepos(b, Sent(c)))))
  {
    hide View, Sent, MergedRepos, LastWrites, Timestamped;
    var ab, bc := MergedRepos(a, Sent(b)), MergedRepos(b, Sent(c));
    MergeIsLastWriteWins(a, b);
    MergeIsLastWriteWins(b, c);
    StaysTimestamped(StampOf, View(a), View(b));
    StaysTimestamped(StampOf, View(b), View(c));
    MergeIsLastWriteWins(ab, c);
    MergeIsLastWriteWins(a, bc);
    LastWritesAssociate(StampOf, View(a), View(b), View(c));
  }

  lemma StaysTimestamped<T>(at: T -> Stamp, x: map<string, T>, y: map<string, T>)
    requires Timestamped(at, x) && Timestamped(at, y)
    ensures Timestamped(at, LastWrites(at, x, y))
  {
  }

  lemma WinnerStays(a: Repo, b: Repo)
    requires a.updatedAt.At? && b.updatedAt.At?
    ensures var s := Carried(ToSyncable(b)); MergedEntry(MergedEntry(a, s), s) == MergedEntry(a, s)
  {
    CarriedKeepsStamp(ToSyncable(b));
    hide Carried, HostTag;
  }

  lemma AddedStays(b: Repo)
    requires b.updatedAt.At?
    ensures var s := Carried(ToSyncable(b)); MergedEntry(FromSyncable(s, ""), s) == FromSyncable(s, "")
  {
    CarriedKeepsStamp(ToSyncable(b));
    hide Carried, HostTag;
  }

  lemma ChosenTwice(a: Repos, b: Repos, k: string)
    requires Timestamped(StampOf, View(a)) && Timestamped(StampOf, View(b)) && (k in a || k in b)
    ensures var m := MergedRepos(a, Sent(b)); k in m && Chosen(m, Sent(b), k) == m[k]
  {
    var m := MergedRepos(a, Sent(b));
    if k in b {
      ViewStamps(b, k);
      AddedStays(b[k]);
      if k in a {
        ViewStamps(a, k);
        WinnerStays(a[k], b[k]);
      }
    }
    hide Carried, Content, FromSyncable, MergedEntry, ToSyncable, Timestamped, View;
  }

  /** Downloading the same entries again, or one's own, changes nothing. */
  lemma MergeIsIdempotent(a: Repos, b: Repos)
    requires Timestamped(StampOf, View(a)) && Timestamped(StampOf, View(b))
    ensures View(MergedRepos(a, Sent(a))) == View(a)
    ensures MergedRepos(MergedRepos(a, Sent(b)), Sent(b)) == MergedRepos(a, Sent(b))
  {
    hide Carried, View, Chosen, Timestamped, ToSyncable;
    MergeIsLastWriteWins(a, a);
    LastWritesOfItself(StampOf, View(a));
    var m := MergedRepos(a, Sent(b));
    var again := MergedRepos(m, Sent(b));
    forall k | k in m ensures again[k] == m[k] {
      ChosenTwice(a, b, k);
    }
    assert again.Keys == m.Keys;
  }

  /** No entry and no newer write is lost, and every machine keeps its own paths. */
  lemma NothingIsLost(local: Repos, remote: Remote, k: string)
    requires k in local || k in remote
    ensures var m := MergedRepos(local, remote);
            && k in m
            && (k in local ==> m[k].localPath == local[k].localPath && !After(local[k].updatedAt, m[k].updatedAt))
            && (k in remote ==> !After(remote[k].updatedAt, m[k].updatedAt))
            && (k !in local ==> m[k].localPath == "")
            && ((k in local && m[k] == local[k]) || (k in remote && ToSyncable(m[k]) == remote[k]))
  {
  }

  /**
   The fields the upload leaves out are not protected by the merge: an existing entry keeps
   them exactly when the remote entry does not replace it, or when they were not set.
   */
  lemma UnsyncedFieldsKeptExactly(local: Repos, remote: Remote, k: string)
    requires k in local && k in remote
    ensures MergedRepos(local, remote)[k].unsynced == local[k].unsynced
            <==> !RemoteWins(local[k], remote[k]) || local[k].unsynced == UNSET
  {
  }

  /**
   An entry without a timestamp loses to any remote entry, unless it was migrated first: then
   it loses only to one written after the migration.
   */
  lemma MigrationPromotesLegacy(local: Repos, remote: Remote, k: string, now: int, hostname: string)
    requires k in local && k in remote && local[k].updatedAt.Never?
    ensures MergedRepos(local, remote)[k] == FromSyncable(remote[k], local[k].localPath)
    ensures MergedRepos(Migrated(local, now, hostname), remote)[k] ==
              if After(remote[k].updatedAt, At(now)) then FromSyncable(remote[k], local[k].localPath)
              else local[k].(updatedAt := At(now), updatedBy := hostname)
  {
  }
}
