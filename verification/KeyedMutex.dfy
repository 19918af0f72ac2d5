/**
 The reference-counted mutex that serializes work per key. Threads run the lock function
 and the unlock closure it returns one instruction at a time, in any interleaving.
 */
module KeyedMutex {
  import opened Basics

  type Thread = nat
  /** An entry is a heap object; its address is its index in the heap. */
  type Address = nat

  datatype Entry = Entry(refs: int, owner: Option<Thread>)

  /** Where a thread is between two instructions of lock (up to Holding) and unlock (after it). */
  datatype Pc =
    | Idle
    | WantMap(key: string)
    | InMap(key: string)
    | Chosen(key: string, entry: Address)
    | Counted(key: string, entry: Address)
    | Waiting(key: string, entry: Address)
    | Holding(key: string, entry: Address)
    | Released(key: string, entry: Address)
    | Leaving(key: string, entry: Address)
    | Dropping(key: string, entry: Address)
    | Left

  datatype State = State(
    pcs: map<Thread, Pc>,
    mapOwner: Option<Thread>,
    entries: map<string, Address>,
    heap: seq<Entry>)

  /** The thread is between m.mu.Lock and m.mu.Unlock. */
  predicate InSection(pc: Pc) {
    pc.InMap? || pc.Chosen? || pc.Counted? || pc.Leaving? || pc.Dropping? || pc.Left?
  }

  predicate HasEntry(pc: Pc) {
    pc.Chosen? || pc.Counted? || pc.Waiting? || pc.Holding? || pc.Released? || pc.Leaving? || pc.Dropping?
  }

  /** The thread holds, waits for or has yet to give back its reference. */
  predicate CountsOn(pc: Pc, e: Address) {
    (pc.Counted? || pc.Waiting? || pc.Holding? || pc.Released? || pc.Leaving?) && pc.entry == e
  }

  function Users(s: State, e: Address): set<Thread> {
    set t | t in s.pcs && CountsOn(s.pcs[t], e)
  }

  function At(s: State, t: Thread, pc: Pc): State {
    s.(pcs := s.pcs[t := pc])
  }

  /** One instruction of thread `t`; an idle thread calls lock on `key`. None: the thread is blocked on a mutex. */
  function Step(s: State, t: Thread, key: string): Option<State>
    requires t in s.pcs && (HasEntry(s.pcs[t]) ==> s.pcs[t].entry < |s.heap|)
  {
    match s.pcs[t]
    case Idle => Some(At(s, t, WantMap(key)))
    case WantMap(k) => if s.mapOwner.Some? then None else Some(At(s, t, InMap(k)).(mapOwner := Some(t)))
    case InMap(k) =>
      if k in s.entries then Some(At(s, t, Chosen(k, s.entries[k])))
      else Some(At(s, t, Chosen(k, |s.heap|)).(entries := s.entries[k := |s.heap|], heap := s.heap + [Entry(0, None)]))
    case Chosen(k, e) => Some(At(s, t, Counted(k, e)).(heap := s.heap[e := s.heap[e].(refs := s.heap[e].refs + 1)]))
    case Counted(k, e) => Some(At(s, t, Waiting(k, e)).(mapOwner := None))
    case Waiting(k, e) => if s.heap[e].owner.Some? then None
        else Some(At(s, t, Holding(k, e)).(heap := s.heap[e := s.heap[e].(owner := Some(t))]))
    case Holding(k, e) => Some(At(s, t, Released(k, e)).(heap := s.heap[e := s.heap[e].(owner := None)]))
    case Released(k, e) => if s.mapOwner.Some? then None else Some(At(s, t, Leaving(k, e)).(mapOwner := Some(t)))
    case Leaving(k, e) => Some(At(s, t, Dropping(k, e)).(heap := s.heap[e := s.heap[e].(refs := s.heap[e].refs - 1)]))
    case Dropping(k, e) => Some(At(s, t, Left).(entries := if s.heap[e].refs == 0 then s.entries - {k} else s.entries))
    case Left => Some(At(s, t, Idle).(mapOwner := None))
  }

  // ----- the invariant -----

  predicate MapMutex(s: State) {
    && (forall t :: t in s.pcs && InSection(s.pcs[t]) ==> s.mapOwner == Some(t))
    && (s.mapOwner.Some? ==> s.mapOwner.value in s.pcs && InSection(s.pcs[s.mapOwner.value]))
  }

  /** Everyone on a key has the entry that is in the map under it. */
  predicate SharedEntries(s: State) {
    && (forall t :: t in s.pcs && HasEntry(s.pcs[t]) ==>
          s.pcs[t].entry < |s.heap| && s.pcs[t].key in s.entries && s.entries[s.pcs[t].key] == s.pcs[t].entry)
    && (forall k :: k in s.entries ==> s.entries[k] < |s.heap|)
    && (forall k, l :: k in s.entries && l in s.entries && s.entries[k] == s.entries[l] ==> k == l)
  }

  predicate Owners(s: State) {
    && (forall t :: t in s.pcs && s.pcs[t].Holding? && s.pcs[t].entry < |s.heap| ==>
        s.heap[s.pcs[t].entry].owner == Some(t))
    && (forall e :: 0 <= e < |s.heap| && s.heap[e].owner.Some? ==>
          var t := s.heap[e].owner.value; t in s.pcs && s.pcs[t].Holding? && s.pcs[t].entry == e)
  }

  predicate RefCounts(s: State) {
    forall e :: 0 <= e < |s.heap| ==> s.heap[e].refs == |Users(s, e)|
  }

  /**
   An entry in the map is referenced, or the thread inside the map section is just about to
   count it or to delete it.
   */
  predicate NoLeaks(s: State) {
    forall k :: k in s.entries && s.entries[k] < |s.heap| && s.heap[s.entries[k]].refs == 0 ==>
      && s.mapOwner.Some? && s.mapOwner.value in s.pcs
      && var pc := s.pcs[s.mapOwner.value];
         (pc.Chosen? || pc.Dropping?) && pc.key == k
  }

  predicate Inv(s: State) {
    MapMutex(s) && SharedEntries(s) && Owners(s) && RefCounts(s) && NoLeaks(s)
  }

  predicate Initial(s: State) {
    s.mapOwner.None? && s.entries == map[] && s.heap == [] && forall t :: t in s.pcs ==> s.pcs[t].Idle?
  }

  // ----- each instruction keeps the invariant -----

  lemma MapMutexKept(s: State, t: Thread, key: string)
    requires Inv(s) && t in s.pcs && Step(s, t, key).Some?
    ensures MapMutex(Step(s, t, key).value)
  {
    SectionFollowsOwner(s, t, key);
    hide RefCounts, Owners, NoLeaks, Step, InSection, HasEntry, SharedEntries;
    var s' := Step(s, t, key).value;
    assert s.mapOwner == Some(t) <==> InSection(s.pcs[t]);
    forall u | u in s'.pcs && InSection(s'.pcs[u]) ensures s'.mapOwner == Some(u) {
      assert u != t ==> s'.pcs[u] == s.pcs[u];
    }
  }

  /** An instruction changes only the thread's own place, and takes or gives back the map's mutex with it. */
  lemma SectionFollowsOwner(s: State, t: Thread, key: string)
    requires Inv(s) && t in s.pcs && Step(s, t, key).Some?
    ensures var s' := Step(s, t, key).value;
            && t in s'.pcs && s'.pcs == s.pcs[t := s'.pcs[t]]
            && if InSection(s.pcs[t]) == InSection(s'.pcs[t]) then s'.mapOwner == s.mapOwner
               else if InSection(s'.pcs[t]) then s.mapOwner.None? && s'.mapOwner == Some(t)
               else s'.mapOwner.None?
  {
    hide RefCounts, Owners, NoLeaks;
  }

  /** A thread with a reference keeps its entry's count positive. */
  lemma UserIsCounted(s: State, t: Thread)
    requires Inv(s) && t in s.pcs && HasEntry(s.pcs[t]) && !s.pcs[t].Chosen? && !s.pcs[t].Dropping?
    ensures s.heap[s.pcs[t].entry].refs > 0
  {
    var users := Users(s, s.pcs[t].entry);
    assert t in users;
    assert |users| > 0;
  }

  lemma SharedEntriesKept(s: State, t: Thread, key: string)
    requires Inv(s) && t in s.pcs && Step(s, t, key).Some?
    ensures SharedEntries(Step(s, t, key).value)
  {
    hide RefCounts, Owners, NoLeaks;
    if s.pcs[t].Dropping? {
      forall u | u in s.pcs && u != t && HasEntry(s.pcs[u]) && s.pcs[u].key == s.pcs[t].key
        ensures s.heap[s.pcs[t].entry].refs > 0
      {
        assert !InSection(s.pcs[u]);
        UserIsCounted(s, u);
      }
    }
  }

  /** Only taking and giving back an entry's mutex changes its owner, and only a free one is taken. */
  lemma OwnerFollowsHold(s: State, t: Thread, key: string, e: Address)
    requires t in s.pcs && (HasEntry(s.pcs[t]) ==> s.pcs[t].entry < |s.heap|)
    requires Step(s, t, key).Some? && e < |Step(s, t, key).value.heap|
    ensures var s' := Step(s, t, key).value;
            && t in s'.pcs
            && (s'.pcs[t].Holding? && s'.pcs[t].entry == e ==> e < |s.heap| && s.heap[e].owner.None?)
            && s'.heap[e].owner == (if s'.pcs[t].Holding? && s'.pcs[t].entry == e then Some(t)
                                    else if s.pcs[t].Holding? && s.pcs[t].entry == e then None
                                    else if e < |s.heap| then s.heap[e].owner else None)
  {
  }

  lemma HoldersOwn(s: State, t: Thread, key: string, u: Thread)
    requires Inv(s) && t in s.pcs && Step(s, t, key).Some?
    requires var s' := Step(s, t, key).value; u in s'.pcs && s'.pcs[u].Holding? && s'.pcs[u].entry < |s'.heap|
    ensures var s' := Step(s, t, key).value; s'.heap[s'.pcs[u].entry].owner == Some(u)
  {
    hide RefCounts, NoLeaks, MapMutex, Step;
    OwnerFollowsHold(s, t, key, Step(s, t, key).value.pcs[u].entry);
    SectionFollowsOwner(s, t, key);
  }

  lemma OwnersHold(s: State, t: Thread, key: string, e: Address)
    requires Inv(s) && t in s.pcs && Step(s, t, key).Some?
    requires var s' := Step(s, t, key).value; e < |s'.heap| && s'.heap[e].owner.Some?
    ensures var s' := Step(s, t, key).value;
            var u := s'.heap[e].owner.value;
            u in s'.pcs && s'.pcs[u].Holding? && s'.pcs[u].entry == e
  {
    OwnerFollowsHold(s, t, key, e);
    SectionFollowsOwner(s, t, key);
    hide RefCounts, NoLeaks, MapMutex, Step, InSection, HasEntry, SharedEntries;
    assert !s.pcs[t].Holding? || s.pcs[t].entry >= |s.heap| || s.heap[s.pcs[t].entry].owner == Some(t);
  }

  lemma OwnersKept(s: State, t: Thread, key: string)
    requires Inv(s) && t in s.pcs && Step(s, t, key).Some?
    ensures Owners(Step(s, t, key).value)
  {
    var s' := Step(s, t, key).value;
    hide Inv, Step, InSection, HasEntry;
    forall u | u in s'.pcs && s'.pcs[u].Holding? && s'.pcs[u].entry < |s'.heap|
        ensures s'.heap[s'.pcs[u].entry].owner == Some(u) {
      HoldersOwn(s, t, key, u);
    }
    forall e | 0 <= e < |s'.heap| && s'.heap[e].owner.Some?
      ensures var u := s'.heap[e].owner.value; u in s'.pcs && s'.pcs[u].Holding? && s'.pcs[u].entry == e
    {
      OwnersHold(s, t, key, e);
    }
  }

  lemma UsersKept(s: State, t: Thread, pc: Pc, e: Address)
    requires t in s.pcs
    ensures |Users(At(s, t, pc), e)| ==
              |Users(s, e)| + (if CountsOn(pc, e) then 1 else 0) - (if CountsOn(s.pcs[t], e) then 1 else 0)
  {
    assert Users(At(s, t, pc), e) == if CountsOn(pc, e) then Users(s, e) + {t} else Users(s, e) - {t};
  }

  /** An instruction changes the count of an entry by what the thread's own use of it changes. */
  lemma RefsFollowUse(s: State, t: Thread, key: string, e: Address)
    requires Inv(s) && t in s.pcs && Step(s, t, key).Some? && e < |Step(s, t, key).value.heap|
    ensures var s' := Step(s, t, key).value;
            && t in s'.pcs && |s.heap| <= |s'.heap| <= |s.heap| + 1
            && s'.heap[e].refs == (if e < |s.heap| then s.heap[e].refs else 0)
                                  + (if CountsOn(s'.pcs[t], e) then 1 else 0) - (if CountsOn(s.pcs[t], e) then 1 else 0)
  {
    hide RefCounts, NoLeaks, MapMutex, Owners;
  }

  lemma RefCountsKept(s: State, t: Thread, key: string)
    requires Inv(s) && t in s.pcs && Step(s, t, key).Some?
    ensures RefCounts(Step(s, t, key).value)
  {
    SectionFollowsOwner(s, t, key);
    hide Owners, NoLeaks, MapMutex, Users, CountsOn, Step, InSection, HasEntry;
    var s' := Step(s, t, key).value;
    forall e | 0 <= e < |s'.heap| ensures s'.heap[e].refs == |Users(s', e)| {
      RefsFollowUse(s, t, key, e);
      UsersKept(s, t, s'.pcs[t], e);
      SameUsers(s', At(s, t, s'.pcs[t]), e);
      NewEntryUnused(s);
    }
  }

  lemma SameUsers(a: State, b: State, e: Address)
    requires a.pcs == b.pcs
    ensures Users(a, e) == Users(b, e)
  {
  }

  lemma NewEntryUnused(s: State)
    requires SharedEntries(s)
    ensures Users(s, |s.heap|) == {}
  {
  }

  /** These instructions change neither the map nor a count. */
  lemma NoLeaksOutside(s: State, t: Thread, key: string)
    requires Inv(s) && t in s.pcs && Step(s, t, key).Some?
    requires !s.pcs[t].InMap? && !s.pcs[t].Chosen? && !s.pcs[t].Leaving? && !s.pcs[t].Dropping?
    ensures NoLeaks(Step(s, t, key).value)
  {
    hide Owners, RefCounts;
    if s.pcs[t].Counted? {
      UserIsCounted(s, t);
    }
  }

  lemma NoLeaksInside(s: State, t: Thread, key: string)
    requires Inv(s) && t in s.pcs && Step(s, t, key).Some?
    requires s.pcs[t].InMap? || s.pcs[t].Chosen? || s.pcs[t].Leaving? || s.pcs[t].Dropping?
    ensures NoLeaks(Step(s, t, key).value)
  {
    hide Owners, Users;
    assert s.mapOwner == Some(t);
  }

  lemma NoLeaksKept(s: State, t: Thread, key: string)
    requires Inv(s) && t in s.pcs && Step(s, t, key).Some?
    ensures NoLeaks(Step(s, t, key).value)
  {
    hide Inv, Step, NoLeaks;
    if s.pcs[t].InMap? || s.pcs[t].Chosen? || s.pcs[t].Leaving? || s.pcs[t].Dropping? {
      NoLeaksInside(s, t, key);
    } else {
      NoLeaksOutside(s, t, key);
    }
  }

  lemma StepKeepsInv(s: State, t: Thread, key: string)
    requires Inv(s) && t in s.pcs && Step(s, t, key).Some?
    ensures Inv(Step(s, t, key).value)
  {
    hide Step, MapMutex, SharedEntries, Owners, RefCounts, NoLeaks;
    MapMutexKept(s, t, key);
    SharedEntriesKept(s, t, key);
    OwnersKept(s, t, key);
    RefCountsKept(s, t, key);
    NoLeaksKept(s, t, key);
  }

  // ----- runs -----

  /** Each state follows from the one before by an instruction of some thread. */
  ghost predicate IsRun(run: seq<State>) {
    && run != [] && Initial(run[0])
    && forall i :: 0 < i < |run| ==> Steps(run[i - 1], run[i])
  }

  ghost predicate Steps(s: State, s': State) {
    exists t, key :: t in s.pcs && (HasEntry(s.pcs[t]) ==> s.pcs[t].entry < |s.heap|) && Step(s, t, key) == Some(s')
  }

  lemma {:induction false} ReachableInv(run: seq<State>, n: nat)
    requires IsRun(run) && n < |run|
    ensures Inv(run[n])
  {
    if n > 0 {
      ReachableInv(run, n - 1);
      hide Step, Inv;
      var t, key :| t in run[n - 1].pcs && (HasEntry(run[n - 1].pcs[t]) ==> run[n - 1].pcs[t].entry < |run[n - 1].heap|)
        && Step(run[n - 1], t, key) == Some(run[n]);
      StepKeepsInv(run[n - 1], t, key);
    }
  }

  /** No two threads ever hold the same key. */
  lemma MutualExclusion(run: seq<State>, n: nat, t: Thread, u: Thread)
    requires IsRun(run) && n < |run|
    requires t in run[n].pcs && u in run[n].pcs && run[n].pcs[t].Holding? && run[n].pcs[u].Holding?
    ensures run[n].pcs[t].key == run[n].pcs[u].key ==> t == u
  {
    hide RefCounts, NoLeaks, MapMutex, IsRun;
    ReachableInv(run, n);
  }

  /** All threads on a key share one entry, and threads on different keys never do. */
  lemma OneEntryPerKey(run: seq<State>, n: nat, t: Thread, u: Thread)
    requires IsRun(run) && n < |run|
    requires t in run[n].pcs && u in run[n].pcs && HasEntry(run[n].pcs[t]) && HasEntry(run[n].pcs[u])
    ensures run[n].pcs[t].key == run[n].pcs[u].key <==> run[n].pcs[t].entry == run[n].pcs[u].entry
  {
    hide RefCounts, NoLeaks, MapMutex, IsRun;
    ReachableInv(run, n);
  }

  /**
   Whenever the map is not being changed, a key is in it exactly when some thread holds it,
   waits for it or is leaving it, and its count is their number.
   */
  lemma MapHoldsWhatIsUsed(run: seq<State>, n: nat, key: string)
    requires IsRun(run) && n < |run| && run[n].mapOwner.None?
    ensures var s := run[n];
            var users := set t | t in s.pcs && HasEntry(s.pcs[t]) && s.pcs[t].key == key;
            && (key in s.entries <==> users != {})
            && (key in s.entries ==> s.entries[key] < |s.heap| && s.heap[s.entries[key]].refs == |users|)
  {
    hide IsRun;
    ReachableInv(run, n);
    var s := run[n];
    var users := set t | t in s.pcs && HasEntry(s.pcs[t]) && s.pcs[t].key == key;
    if key in s.entries {
      assert Users(s, s.entries[key]) == users;
      assert s.heap[s.entries[key]].refs > 0;
    } else {
      assert users == {};
    }
  }

  /** The map does not outlive its use: when all threads are idle it is empty. */
  lemma EmptyWhenIdle(run: seq<State>, n: nat)
    requires IsRun(run) && n < |run| && forall t :: t in run[n].pcs ==> run[n].pcs[t].Idle?
    ensures run[n].entries == map[]
  {
    hide IsRun;
    ReachableInv(run, n);
    forall key ensures key !in run[n].entries {
      MapHoldsWhatIsUsed(run, n, key);
    }
  }

  /** Some thread that has called lock can always take its next instruction. */
  lemma NoDeadlock(run: seq<State>, n: nat, t: Thread)
    requires IsRun(run) && n < |run| && t in run[n].pcs && !run[n].pcs[t].Idle?
    ensures exists u :: u in run[n].pcs && !run[n].pcs[u].Idle?
              && (HasEntry(run[n].pcs[u]) ==> run[n].pcs[u].entry < |run[n].heap|) && Step(run[n], u, "").Some?
  {
    hide IsRun, RefCounts, NoLeaks;
    ReachableInv(run, n);
    var s := run[n];
    if s.mapOwner.Some? {
      assert Step(s, s.mapOwner.value, "").Some?;
    } else if s.pcs[t].Waiting? && s.heap[s.pcs[t].entry].owner.Some? {
      assert Step(s, s.heap[s.pcs[t].entry].owner.value, "").Some?;
    } else {
      assert Step(s, t, "").Some?;
    }
  }

  // ----- the two sections under the map's mutex, as code -----

  /** The map as its users see it: how many references each key has. */
  function Entered(counts: map<string, int>, key: string): map<string, int> {
    counts[key := if key in counts then counts[key] + 1 else 1]
  }

  function GivenBack(counts: map<string, int>, key: string): map<string, int>
    requires key in counts
  {
    if counts[key] == 1 then counts - {key} else counts[key := counts[key] - 1]
  }

  class MutexEntry {
    var refs: int

    constructor ()
      ensures refs == 0
    {
      refs := 0;
    }
  }

  class KeyedLocks {
    var entries: map<string, MutexEntry>

    ghost predicate Valid()
      reads this, entries.Values
    {
      && (forall k :: k in entries ==> entries[k].refs > 0)
      && (forall k, l :: k in entries && l in entries && entries[k] == entries[l] ==> k == l)
    }

    function Counts(): map<string, int>
      reads this, entries.Values
    {
      map k | k in entries :: entries[k].refs
    }

    constructor ()
      ensures Valid() && Counts() == map[]
    {
      entries := map[];
    }

    /** From m.mu.Lock to m.mu.Unlock in lock. */
    method Enter(key: string) returns (entry: MutexEntry)
      requires Valid()
      modifies this, entries.Values
      ensures Valid() && key in entries && entries[key] == entry
      ensures Counts() == Entered(old(Counts()), key)
      ensures if key in old(entries) then entries == old(entries)
              else fresh(entry) && entries == old(entries)[key := entry]
    {
      if key in entries {
        entry := entries[key];
      } else {
        entry := new MutexEntry();
        entries := entries[key := entry];
      }
      entry.refs := entry.refs + 1;
    }

    /** From m.mu.Lock to m.mu.Unlock in the closure. */
    method Leave(key: string, entry: MutexEntry)
      requires Valid() && key in entries && entries[key] == entry
      modifies this, entry
      ensures Valid()
      ensures Counts() == GivenBack(old(Counts()), key)
      ensures entries == if entry.refs == 0 then old(entries) - {key} else old(entries)
    {
      entry.refs := entry.refs - 1;
      if entry.refs == 0 {
        entries := entries - {key};
      }
    }
  }

  function CountsOf(s: State): map<string, int> {
    map k | k in s.entries && s.entries[k] < |s.heap| :: s.heap[s.entries[k]].refs
  }

  /** The next `n` instructions are all thread `t`'s. */
  function Alone(s: State, t: Thread, n: nat): Option<State>
    decreases n
  {
    if n == 0 then Some(s)
    else if t !in s.pcs || (HasEntry(s.pcs[t]) && s.pcs[t].entry >= |s.heap|) || Step(s, t, "").None? then None
    else Alone(Step(s, t, "").value, t, n - 1)
  }

  lemma AloneNext(s: State, t: Thread, s': State, n: nat)
    requires t in s.pcs && (HasEntry(s.pcs[t]) ==> s.pcs[t].entry < |s.heap|) && Step(s, t, "") == Some(s') && n > 0
    ensures Alone(s, t, n) == Alone(s', t, n - 1)
  {
  }

  function Counting(s: State, t: Thread, key: string): State {
    var chosen := if key in s.entries then s.entries[key] else |s.heap|;
    At(s, t, Chosen(key, chosen)).(
      mapOwner := Some(t),
      entries := s.entries[key := chosen],
      heap := if key in s.entries then s.heap else s.heap + [Entry(0, None)])
  }

  lemma CountingIsStep(s: State, t: Thread, key: string)
    requires SharedEntries(s) && t in s.pcs
    ensures Step(At(s, t, InMap(key)).(mapOwner := Some(t)), t, "") == Some(Counting(s, t, key))
    ensures Counting(s, t, key).pcs[t].entry < |Counting(s, t, key).heap|
  {
    assert s.pcs[t := InMap(key)][t := Counting(s, t, key).pcs[t]] == Counting(s, t, key).pcs;
    assert key in s.entries ==> s.entries[key := s.entries[key]] == s.entries;
  }

  /** The four instructions of the section of lock do to the counts what `Enter` does. */
  lemma EnterSection(s: State, t: Thread, key: string)
    requires SharedEntries(s) && NoLeaks(s) && t in s.pcs && s.pcs[t] == WantMap(key) && s.mapOwner.None?
    ensures var done := Alone(s, t, 4);
            done.Some? && t in done.value.pcs && done.value.pcs[t].Waiting? && done.value.pcs[t].key == key
            && done.value.mapOwner.None? && CountsOf(done.value) == Entered(CountsOf(s), key)
  {
    hide SharedEntries, NoLeaks, Entered;
    CountingIsStep(s, t, key);
    var s1 := At(s, t, InMap(key)).(mapOwner := Some(t));
    var s2 := Counting(s, t, key);
    var e := s2.pcs[t].entry;
    var s3 := At(s2, t, Counted(key, e)).(heap := s2.heap[e := s2.heap[e].(refs := s2.heap[e].refs + 1)]);
    var s4 := At(s3, t, Waiting(key, e)).(mapOwner := None);
    AloneNext(s, t, s1, 4);
    AloneNext(s1, t, s2, 3);
    AloneNext(s2, t, s3, 2);
    AloneNext(s3, t, s4, 1);
    assert Alone(s4, t, 0) == Some(s4);
    EnterCounts(s, t, key);
    assert CountsOf(s4) == CountsOf(s3) == Entered(CountsOf(s), key);
  }

  lemma EnterCounts(s: State, t: Thread, key: string)
    requires SharedEntries(s) && NoLeaks(s) && s.mapOwner.None? && t in s.pcs
    ensures var s2 := Counting(s, t, key);
            var e := s2.pcs[t].entry;
            CountsOf(s2.(heap := s2.heap[e := s2.heap[e].(refs := s2.heap[e].refs + 1)])) == Entered(CountsOf(s), key)
  {
    hide HasEntry, InSection;
    if key in s.entries {
      CountUp(s, s.entries, s.heap, key, s.entries[key]);
    } else {
      CountUp(s, s.entries[key := |s.heap|], s.heap + [Entry(0, None)], key, |s.heap|);
    }
  }

  lemma CountUp(s: State, entries: map<string, Address>, heap: seq<Entry>, key: string, e: Address)
    requires SharedEntries(s) && entries == s.entries[key := e] && e < |heap|
    requires if key in s.entries then heap == s.heap && s.entries[key] == e
             else e == |s.heap| && heap == s.heap + [Entry(0, None)]
    ensures CountsOf(s.(entries := entries, heap := heap[e := heap[e].(refs := heap[e].refs + 1)])) ==
              Entered(CountsOf(s), key)
  {
    hide HasEntry, InSection;
    var after := s.(entries := entries, heap := heap[e := heap[e].(refs := heap[e].refs + 1)]);
    forall k ensures k in CountsOf(after) <==> k in Entered(CountsOf(s), key) {
    }
    forall k | k in s.entries && k != key ensures s.entries[k] != e {
    }
    forall k | k in CountsOf(after) ensures CountsOf(after)[k] == Entered(CountsOf(s), key)[k] {
      assert k != key ==> k in s.entries && entries[k] == s.entries[k];
    }
  }

  /** The four instructions of the section of the closure do to the counts what `Leave` does. */
  lemma LeaveSection(s: State, t: Thread, key: string)
    requires SharedEntries(s) && t in s.pcs && s.pcs[t].Released? && s.pcs[t].key == key && s.mapOwner.None?
    ensures var done := Alone(s, t, 4);
            done.Some? && t in done.value.pcs && done.value.pcs[t].Idle? && done.value.mapOwner.None?
            && key in CountsOf(s) && CountsOf(done.value) == GivenBack(CountsOf(s), key)
  {
    hide CountsOf, GivenBack, Alone, Users;
    var e := s.pcs[t].entry;
    assert key in s.entries && s.entries[key] == e < |s.heap|;
    hide SharedEntries;
    var s2 := LeaveHalfway(s, t, key);
    var s4 := LeaveRest(s2, t, key, e);
    LeaveCounts(s, key, s4);
  }

  lemma LeaveHalfway(s: State, t: Thread, key: string) returns (s2: State)
    requires t in s.pcs && s.pcs[t].Released? && s.pcs[t].key == key && s.pcs[t].entry < |s.heap| && s.mapOwner.None?
    ensures var e := s.pcs[t].entry;
            && s2.heap == s.heap[e := s.heap[e].(refs := s.heap[e].refs - 1)] && s2.entries == s.entries
            && t in s2.pcs && s2.pcs[t] == Dropping(key, e) && Alone(s, t, 4) == Alone(s2, t, 2)
  {
    var e := s.pcs[t].entry;
    var s1 := At(s, t, Leaving(key, e)).(mapOwner := Some(t));
    s2 := At(s1, t, Dropping(key, e)).(heap := s.heap[e := s.heap[e].(refs := s.heap[e].refs - 1)]);
    AloneNext(s, t, s1, 4);
    AloneNext(s1, t, s2, 3);
  }

  lemma LeaveRest(s2: State, t: Thread, key: string, e: Address) returns (s4: State)
    requires t in s2.pcs && s2.pcs[t] == Dropping(key, e) && e < |s2.heap|
    ensures Alone(s2, t, 2) == Some(s4) && t in s4.pcs && s4.pcs[t].Idle? && s4.mapOwner.None? && s4.heap == s2.heap
    ensures s4.entries == if s2.heap[e].refs == 0 then s2.entries - {key} else s2.entries
  {
    var s3 := At(s2, t, Left).(entries := if s2.heap[e].refs == 0 then s2.entries - {key} else s2.entries);
    s4 := At(s3, t, Idle).(mapOwner := None);
    AloneNext(s2, t, s3, 2);
    AloneNext(s3, t, s4, 1);
    assert Alone(s4, t, 0) == Some(s4);
  }

  lemma LeaveCounts(s: State, key: string, left: State)
    requires SharedEntries(s) && key in s.entries && s.entries[key] < |s.heap|
    requires var e := s.entries[key];
             && left.heap == s.heap[e := s.heap[e].(refs := s.heap[e].refs - 1)]
             && left.entries == if s.heap[e].refs == 1 then s.entries - {key} else s.entries
    ensures key in CountsOf(s) && CountsOf(left) == GivenBack(CountsOf(s), key)
  {
    hide HasEntry;
    forall k ensures k in CountsOf(left) <==> k in GivenBack(CountsOf(s), key) {
    }
    forall k | k in CountsOf(left) ensures CountsOf(left)[k] == GivenBack(CountsOf(s), key)[k] {
    }
  }
}
