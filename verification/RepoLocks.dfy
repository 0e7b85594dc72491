/**
 The publish protocol of the file repository: StoreLock, StoreUnlock, Store and the eviction callback as
 a step machine.  One step is one section under muStoreLocks, one call into the cache, or one change of
 the store directory.

 A grant is one successful StoreLock: the channel it made, and the directory named by the fresh store
 key.  Channels and directories are numbered by their grant.  `owner`, `wrote` and `fate` of a grant
 record history; no step tests them.
 */
module RepoLocks {
  datatype Fate = Undecided | Published | Discarded | Evicted

  datatype Grant = Grant(
    key: string,
    closes: nat,     // calls of close(ch)
    owner: nat,      // the thread StoreLock returned the channel to
    wrote: bool,     // some Store made the directory
    fate: Fate)

  datatype Thread =
    | Idle
    | Asking(key: string)           // enters StoreLock
    | Waiting(key: string, g: nat)  // in the select, on the channel of g
    | Woken(key: string, g: nat)    // the channel was closed, Get(key) is next
    | Stale(key: string, g: nat)    // removeStoreLock(key, ch) is next, then StoreLock again
    | Holding(g: nat)               // StoreLock returned the channel; the upload runs
    | Saving(g: nat)                // StoreUnlock(save = true), fileCache.Add is next
    | Dropping(g: nat)              // RemoveAll(path) is next
    | Unlisting(g: nat)             // removeStoreLock(key, ch) is next
    | Closing(g: nat)               // close(ch) is next

  datatype State = State(
    threads: seq<Thread>,
    grants: seq<Grant>,
    locks: map<string, nat>,    // storeLocks
    cache: map<string, nat>,    // fileCache: key to published directory
    disk: set<nat>,             // directories below files/
    writers: map<nat, bool>,    // running Store goroutines by directory; true once MkdirAll is done
    evicting: map<nat, bool>)   // running eviction callbacks by directory; true once the lock is deleted

  datatype Action =
    | Spawn
    | Ask(t: nat, key: string)
    | Look(t: nat)
    | Wake(t: nat)
    | TimeOut(t: nat)
    | Check(t: nat)
    | Forget(t: nat)
    | StartStore(t: nat)
    | MakeDir(g: nat)
    | EndStore(g: nat)
    | Save(t: nat)
    | Abort(t: nat)
    | Publish(t: nat)
    | RemoveDir(t: nat)
    | Unlist(t: nat)
    | Close(t: nat)
    | Evict(key: string)
    | EvictUnlock(g: nat)
    | EvictRemove(g: nat)

  const Init := State([], [], map[], map[], {}, map[], map[])

  predicate Waits(p: Thread) { p.Waiting? || p.Woken? || p.Stale? }

  predicate Owns(p: Thread) { p.Holding? || p.Saving? || p.Dropping? || p.Unlisting? || p.Closing? }

  predicate At(s: State, t: nat) {
    t < |s.threads| && (Owns(s.threads[t]) || Waits(s.threads[t])) && s.threads[t].g < |s.grants|
  }

  predicate Enabled(s: State, a: Action) {
    match a
    case Spawn => true
    case Ask(t, _) => t < |s.threads| && s.threads[t].Idle?
    case Look(t) => t < |s.threads| && s.threads[t].Asking?
    case Wake(t) => At(s, t) && s.threads[t].Waiting? && s.grants[s.threads[t].g].closes > 0
    case TimeOut(t) => At(s, t) && s.threads[t].Waiting?
    case Check(t) => At(s, t) && s.threads[t].Woken?
    case Forget(t) => At(s, t) && s.threads[t].Stale?
    // Upload starts a Store only after the previous one reported on errCh.
    case StartStore(t) => At(s, t) && s.threads[t].Holding? && s.threads[t].g !in s.writers
    case MakeDir(g) => g < |s.grants| && g in s.writers && !s.writers[g]
    case EndStore(g) => g in s.writers
    // Done waits for errCh; a broken stream does not.
    case Save(t) => At(s, t) && s.threads[t].Holding? && s.threads[t].g !in s.writers
    case Abort(t) => At(s, t) && s.threads[t].Holding?
    case Publish(t) => At(s, t) && s.threads[t].Saving?
    case RemoveDir(t) => At(s, t) && s.threads[t].Dropping?
    case Unlist(t) => At(s, t) && s.threads[t].Unlisting?
    case Close(t) => At(s, t) && s.threads[t].Closing?
    case Evict(key) => key in s.cache && s.cache[key] < |s.grants|
    case EvictUnlock(g) => g < |s.grants| && g in s.evicting && !s.evicting[g]
    case EvictRemove(g) => g in s.evicting && s.evicting[g]
  }

  function Move(s: State, t: nat, p: Thread): State
    requires t < |s.threads|
  {
    s.(threads := s.threads[t := p])
  }

  function SetFate(s: State, g: nat, fate: Fate): State
    requires g < |s.grants|
  {
    s.(grants := s.grants[g := s.grants[g].(fate := fate)])
  }

  /** FsRepo.removeStoreLock */
  function RemoveStoreLock(locks: map<string, nat>, key: string, g: nat): map<string, nat> {
    if key in locks && locks[key] == g then locks - {key} else locks
  }

  /** The section of StoreLock under muStoreLocks. */
  function DoLook(s: State, t: nat): State
    requires t < |s.threads| && s.threads[t].Asking?
  {
    var key := s.threads[t].key;
    if key in s.locks then Move(s, t, Waiting(key, s.locks[key]))
    else
      var g := |s.grants|;
      Move(s, t, Holding(g)).(locks := s.locks[key := g], grants := s.grants + [Grant(key, 0, t, false, Undecided)])
  }

  /** fileCache.Add in StoreUnlock. */
  function DoPublish(s: State, t: nat): State
    requires At(s, t)
  {
    var g := s.threads[t].g;
    var key := s.grants[g].key;
    if key in s.cache then SetFate(Move(s, t, Dropping(g)), g, Discarded)
    else SetFate(Move(s, t, Closing(g)), g, Published).(cache := s.cache[key := g])
  }

  function DoClose(s: State, t: nat): State
    requires At(s, t)
  {
    var g := s.threads[t].g;
    Move(s, t, Idle).(grants := s.grants[g := s.grants[g].(closes := s.grants[g].closes + 1)])
  }

  function DoEvict(s: State, key: string): State
    requires key in s.cache && s.cache[key] < |s.grants|
  {
    var g := s.cache[key];
    SetFate(s, g, Evicted).(cache := s.cache - {key}, evicting := s.evicting[g := false])
  }

  predicate Asks(a: Action) { a.Ask? || a.Look? || a.Wake? || a.TimeOut? || a.Check? || a.Forget? }

  predicate Uploads(a: Action) {
    a.StartStore? || a.Save? || a.Abort? || a.Publish? || a.RemoveDir? || a.Unlist? || a.Close?
  }

  /** A step of StoreLock. */
  function AskOf(s: State, a: Action): State
    requires Enabled(s, a) && Asks(a)
  {
    match a
    case Ask(t, key) => Move(s, t, Asking(key))
    case Look(t) => DoLook(s, t)
    case Wake(t) => Move(s, t, Woken(s.threads[t].key, s.threads[t].g))
    case TimeOut(t) => Move(s, t, Stale(s.threads[t].key, s.threads[t].g))
    case Check(t) =>
      var p := s.threads[t];
      Move(s, t, if p.key in s.cache then Idle else Stale(p.key, p.g))
    case Forget(t) =>
      var p := s.threads[t];
      Move(s, t, Asking(p.key)).(locks := RemoveStoreLock(s.locks, p.key, p.g))
  }

  /** A step of the thread that holds a grant, up to the end of StoreUnlock. */
  function UploadOf(s: State, a: Action): State
    requires Enabled(s, a) && Uploads(a)
  {
    match a
    case StartStore(t) => s.(writers := s.writers[s.threads[t].g := false])
    case Save(t) => Move(s, t, Saving(s.threads[t].g))
    case Abort(t) => SetFate(Move(s, t, Dropping(s.threads[t].g)), s.threads[t].g, Discarded)
    case Publish(t) => DoPublish(s, t)
    case RemoveDir(t) => Move(s, t, Unlisting(s.threads[t].g)).(disk := s.disk - {s.threads[t].g})
    case Unlist(t) =>
      var g := s.threads[t].g;
      Move(s, t, Closing(g)).(locks := RemoveStoreLock(s.locks, s.grants[g].key, g))
    case Close(t) => DoClose(s, t)
  }

  /** A step of a Store goroutine, of the cache or of its callback. */
  function RepoOf(s: State, a: Action): State
    requires Enabled(s, a) && !Asks(a) && !Uploads(a)
  {
    match a
    case Spawn => s.(threads := s.threads + [Idle])
    case MakeDir(g) =>
      s.(writers := s.writers[g := true], disk := s.disk + {g}, grants := s.grants[g := s.grants[g].(wrote := true)])
    case EndStore(g) => s.(writers := s.writers - {g})
    case Evict(key) => DoEvict(s, key)
    case EvictUnlock(g) => s.(locks := s.locks - {s.grants[g].key}, evicting := s.evicting[g := true])
    case EvictRemove(g) => s.(disk := s.disk - {g}, evicting := s.evicting - {g})
  }

  /** The step itself; an action that cannot happen changes nothing. */
  function Step(s: State, a: Action): State {
    if !Enabled(s, a) then s
    else if Asks(a) then AskOf(s, a)
    else if Uploads(a) then UploadOf(s, a)
    else RepoOf(s, a)
  }

  function Run(s: State, acts: seq<Action>): State {
    if acts == [] then s else Step(Run(s, acts[..|acts| - 1]), acts[|acts| - 1])
  }

  ghost predicate Reachable(s: State) { exists acts :: s == Run(Init, acts) }

  // ---- The invariant ----

  predicate FateFits(p: Thread, fate: Fate) {
    match p
    case Holding(_) => fate == Undecided
    case Saving(_) => fate == Undecided
    case Dropping(_) => fate == Discarded
    case Unlisting(_) => fate == Discarded
    case Closing(_) => fate != Undecided
    case _ => true
  }

  ghost predicate ThreadOk(s: State, p: Thread, t: nat) {
    && (Owns(p) ==>
          p.g < |s.grants| && s.grants[p.g].owner == t && s.grants[p.g].closes == 0 && FateFits(p, s.grants[p.g].fate))
    && (Waits(p) ==> p.g < |s.grants| && s.grants[p.g].key == p.key)
  }

  /** The channel is open as long as its owner has not finished StoreUnlock. */
  ghost predicate GrantOk(s: State, c: Grant, g: nat) {
    && c.owner < |s.threads| && c.closes <= 1
    && (c.closes == 0 ==> Owns(s.threads[c.owner]) && s.threads[c.owner].g == g)
    && (c.closes == 1 ==> c.fate != Undecided)
    && (c.fate == Published ==> c.key in s.cache && s.cache[c.key] == g)
  }

  /** The owner of g is about to remove the directory. */
  predicate BeingDropped(s: State, c: Grant, g: nat) {
    c.owner < |s.threads| && s.threads[c.owner] == Dropping(g)
  }

  /** Someone still answers for the directory of g. */
  predicate Accounted(s: State, c: Grant, g: nat) {
    match c.fate
    case Undecided => true
    case Published => true
    case Discarded => BeingDropped(s, c, g)
    case Evicted => g in s.evicting
  }

  ghost predicate DirOk(s: State, c: Grant, g: nat) {
    && (g in s.disk ==> c.wrote && (c.fate == Discarded || Accounted(s, c, g)))
    && (c.wrote && Accounted(s, c, g) ==> g in s.disk)
  }

  ghost predicate CacheOk(s: State) {
    forall k {:trigger s.cache[k]} :: k in s.cache ==>
      s.cache[k] < |s.grants| && s.grants[s.cache[k]].key == k && s.grants[s.cache[k]].fate == Published
  }

  ghost predicate LocksOk(s: State) {
    forall k {:trigger s.locks[k]} :: k in s.locks ==> s.locks[k] < |s.grants| && s.grants[s.locks[k]].key == k
  }

  ghost predicate DiskOk(s: State) { forall g :: g in s.disk ==> g < |s.grants| }

  /** A directory that may still be written to is not published. */
  ghost predicate WriterOk(s: State, g: nat) {
    && g < |s.grants| && (s.grants[g].fate == Undecided || s.grants[g].fate == Discarded)
    && (s.grants[g].fate == Undecided ==> s.grants[g].owner < |s.threads| && s.threads[s.grants[g].owner] == Holding(g))
  }

  ghost predicate WritersOk(s: State) {
    forall g {:trigger s.writers[g]} :: g in s.writers ==> WriterOk(s, g)
  }

  ghost predicate EvictingOk(s: State) {
    forall g {:trigger s.evicting[g]} :: g in s.evicting ==> g < |s.grants| && s.grants[g].fate == Evicted
  }

  ghost predicate ThreadsOk(s: State) {
    forall t: nat {:trigger s.threads[t]} :: t < |s.threads| ==> ThreadOk(s, s.threads[t], t)
  }

  ghost predicate GrantsOk(s: State) {
    forall g: nat {:trigger s.grants[g]} :: g < |s.grants| ==> GrantOk(s, s.grants[g], g)
  }

  ghost predicate DirsOk(s: State) {
    forall g: nat {:trigger s.grants[g]} :: g < |s.grants| ==> DirOk(s, s.grants[g], g)
  }

  ghost predicate Inv(s: State) {
    ThreadsOk(s) && GrantsOk(s) && DirsOk(s) && CacheOk(s) && LocksOk(s) && DiskOk(s) && WritersOk(s) && EvictingOk(s)
  }

  // ---- Every step keeps the invariant ----

  ghost predicate OthersStay(s: State, s2: State, t: nat) {
    && |s2.threads| == |s.threads|
    && (forall u: nat {:trigger s2.threads[u]} :: u < |s.threads| && u != t ==> s2.threads[u] == s.threads[u])
  }

  ghost predicate LocksShrink(s: State, s2: State) {
    forall k {:trigger k in s2.locks} {:trigger s2.locks[k]} :: k in s2.locks ==>
      k in s.locks && s2.locks[k] == s.locks[k]
  }

  /** A step about one grant: it touches g, its owner t, its directory, and its key in the cache. */
  ghost predicate About(s: State, s2: State, t: nat, g: nat) {
    && g < |s.grants| && t == s.grants[g].owner && t < |s.threads| && t < |s2.threads| && g < |s2.grants|
    && (s2.threads == s.threads
        || (s2.threads == s.threads[t := s2.threads[t]] && Owns(s.threads[t]) && s.threads[t].g == g))
    && (s2.grants == s.grants || s2.grants == s.grants[g := s2.grants[g]])
    && s2.grants[g].owner == t && s2.grants[g].key == s.grants[g].key
    && (s2.cache == s.cache || AddsToCache(s, s2, g) || LeavesCache(s, s2, g))
    && (s2.locks == s.locks || s2.locks == s.locks - {s.grants[g].key})
    && (s2.disk == s.disk || s2.disk == s.disk + {g} || s2.disk == s.disk - {g})
    && (s2.writers == s.writers || s2.writers == s.writers - {g}
        || s2.writers == s.writers[g := true] || s2.writers == s.writers[g := false])
    && (s2.evicting == s.evicting || s2.evicting == s.evicting - {g}
        || s2.evicting == s.evicting[g := true] || s2.evicting == s.evicting[g := false])
  }

  ghost predicate AddsToCache(s: State, s2: State, g: nat)
    requires g < |s.grants|
  {
    s.grants[g].key !in s.cache && s2.cache == s.cache[s.grants[g].key := g]
  }

  ghost predicate LeavesCache(s: State, s2: State, g: nat)
    requires g < |s.grants|
  {
    var key := s.grants[g].key;
    key in s.cache && s.cache[key] == g && s2.cache == s.cache - {key}
  }

  /** The invariant at grant g and its owner. */
  ghost predicate OkAt(s: State, t: nat, g: nat)
    requires t < |s.threads| && g < |s.grants|
  {
    var c := s.grants[g];
    && ThreadOk(s, s.threads[t], t) && GrantOk(s, c, g) && DirOk(s, c, g)
    && (c.key in s.cache && s.cache[c.key] == g ==> c.fate == Published)
    && (g in s.writers ==> WriterOk(s, g))
    && (g in s.evicting ==> c.fate == Evicted)
  }

  lemma AboutFrame(s: State, s2: State, t: nat, g: nat)
    requires Inv(s) && About(s, s2, t, g) && OkAt(s2, t, g)
    ensures Inv(s2)
  {
    AboutThreads(s, s2, t, g);
    AboutGrants(s, s2, t, g);
    AboutDirs(s, s2, t, g);
    AboutMaps(s, s2, t, g);
    AboutWriters(s, s2, t, g);
  }

  lemma AboutThreads(s: State, s2: State, t: nat, g: nat)
    requires Inv(s) && About(s, s2, t, g) && OkAt(s2, t, g)
    ensures ThreadsOk(s2)
  {
  }

  lemma AboutGrants(s: State, s2: State, t: nat, g: nat)
    requires Inv(s) && About(s, s2, t, g) && OkAt(s2, t, g)
    ensures GrantsOk(s2)
  {
    hide ThreadsOk, DirsOk, CacheOk, LocksOk, DiskOk, WritersOk, EvictingOk, DirOk, WriterOk, ThreadOk;
    forall i: nat | i < |s2.grants| ensures GrantOk(s2, s2.grants[i], i) {
      if i != g { assert GrantOk(s, s.grants[i], i); }
    }
  }

  lemma AboutDirs(s: State, s2: State, t: nat, g: nat)
    requires Inv(s) && About(s, s2, t, g) && OkAt(s2, t, g)
    ensures DirsOk(s2)
  {
    hide ThreadsOk, CacheOk, LocksOk, DiskOk, WritersOk, EvictingOk, WriterOk, AddsToCache, LeavesCache;
    forall i: nat | i < |s2.grants| ensures DirOk(s2, s2.grants[i], i) {
      if i != g { assert GrantOk(s, s.grants[i], i) && DirOk(s, s.grants[i], i); }
    }
  }

  lemma AboutMaps(s: State, s2: State, t: nat, g: nat)
    requires Inv(s) && About(s, s2, t, g) && OkAt(s2, t, g)
    ensures CacheOk(s2) && LocksOk(s2) && DiskOk(s2) && EvictingOk(s2)
  {
    hide ThreadOk, GrantOk, DirOk, WriterOk;
  }

  lemma AboutWriters(s: State, s2: State, t: nat, g: nat)
    requires Inv(s) && About(s, s2, t, g) && OkAt(s2, t, g)
    ensures WritersOk(s2)
  {
    hide DirOk, AddsToCache, LeavesCache;
  }

  lemma InvAt(s: State, g: nat)
    requires Inv(s) && g < |s.grants|
    ensures s.grants[g].owner < |s.threads| && OkAt(s, s.grants[g].owner, g)
  {
    assert GrantOk(s, s.grants[g], g) && DirOk(s, s.grants[g], g);
    var t := s.grants[g].owner;
    assert ThreadOk(s, s.threads[t], t);
  }

  /** Steps of a thread that holds nothing. */
  lemma AskFrame(s: State, s2: State, t: nat)
    requires Inv(s) && t < |s.threads| && OthersStay(s, s2, t) && LocksShrink(s, s2)
    requires !Owns(s.threads[t]) && !Owns(s2.threads[t]) && ThreadOk(s2, s2.threads[t], t)
    requires s2 == s.(threads := s2.threads, locks := s2.locks)
    ensures Inv(s2)
  {
  }

  lemma AskStep(s: State, a: Action)
    requires Inv(s) && Enabled(s, a) && Asks(a)
    ensures Inv(Step(s, a))
  {
    hide UploadOf, RepoOf;
    var s2 := Step(s, a);
    if a.Look? && s.threads[a.t].key !in s.locks {
      hide Inv;
      GrantStep(s, a.t);
    } else {
      AskFrame(s, s2, a.t);
    }
  }

  lemma GrantStep(s: State, t: nat)
    requires Inv(s) && Enabled(s, Look(t)) && s.threads[t].key !in s.locks
    ensures Inv(DoLook(s, t))
  {
    hide UploadOf, RepoOf;
    GrantGrants(s, t);
    hide GrantsOk, DirsOk, FateFits, GrantOk, DirOk;
  }

  lemma GrantGrants(s: State, t: nat)
    requires Inv(s) && Enabled(s, Look(t)) && s.threads[t].key !in s.locks
    ensures GrantsOk(DoLook(s, t)) && DirsOk(DoLook(s, t))
  {
    hide UploadOf, RepoOf;
    hide ThreadsOk, CacheOk, LocksOk, WritersOk, EvictingOk, WriterOk, FateFits;
  }

  lemma UploadStep(s: State, a: Action)
    requires Inv(s) && Enabled(s, a) && Uploads(a)
    ensures Inv(Step(s, a))
  {
    assert At(s, a.t);
    var g := s.threads[a.t].g;
    assert ThreadOk(s, s.threads[a.t], a.t);
    hide Step, About, OkAt, Enabled;
    InvAt(s, g);
    UploadLocal(s, a, g);
    UploadAbout(s, a, g);
    AboutFrame(s, Step(s, a), a.t, g);
  }

  lemma UploadAbout(s: State, a: Action, g: nat)
    requires Enabled(s, a) && Uploads(a) && g == s.threads[a.t].g && ThreadOk(s, s.threads[a.t], a.t)
    ensures About(s, Step(s, a), a.t, g)
  {
    hide AskOf, RepoOf, FateFits;
  }

  lemma UploadLocal(s: State, a: Action, g: nat)
    requires Enabled(s, a) && Uploads(a) && g == s.threads[a.t].g && s.grants[g].owner == a.t && OkAt(s, a.t, g)
    ensures g < |s.grants| && |Step(s, a).threads| == |s.threads| && |Step(s, a).grants| == |s.grants|
    ensures OkAt(Step(s, a), a.t, g)
  {
    hide AskOf, RepoOf;
  }

  /** The grant a step of a writer or of an eviction is about. */
  function Subject(s: State, a: Action): nat
    requires Enabled(s, a) && !Uploads(a) && !Asks(a) && !a.Spawn?
  {
    if a.Evict? then s.cache[a.key] else a.g
  }

  lemma RepoStep(s: State, a: Action)
    requires Inv(s) && Enabled(s, a) && !Uploads(a) && !Asks(a) && !a.Spawn?
    ensures Inv(Step(s, a))
  {
    var g := Subject(s, a);
    assert g < |s.grants|;
    hide Step, About, OkAt, Enabled;
    InvAt(s, g);
    RepoLocal(s, a, g);
    RepoAbout(s, a, g);
    AboutFrame(s, Step(s, a), s.grants[g].owner, g);
  }

  lemma RepoAbout(s: State, a: Action, g: nat)
    requires Inv(s) && Enabled(s, a) && !Uploads(a) && !Asks(a) && !a.Spawn? && g == Subject(s, a)
    ensures g < |s.grants| && About(s, Step(s, a), s.grants[g].owner, g)
  {
    hide AskOf, UploadOf;
    assert GrantOk(s, s.grants[g], g);
    hide FateFits, ThreadsOk, GrantsOk, DirsOk, LocksOk, DiskOk;
  }

  lemma RepoLocal(s: State, a: Action, g: nat)
    requires Enabled(s, a) && !Uploads(a) && !Asks(a) && !a.Spawn? && g == Subject(s, a) && g < |s.grants|
    requires s.grants[g].owner < |s.threads| && OkAt(s, s.grants[g].owner, g)
    requires a.Evict? ==> s.grants[g].key == a.key
    ensures s.grants[g].owner < |Step(s, a).threads| && |Step(s, a).grants| == |s.grants|
    ensures OkAt(Step(s, a), s.grants[g].owner, g)
  {
    hide AskOf, UploadOf;
  }

  lemma SpawnStep(s: State)
    requires Inv(s)
    ensures Inv(Step(s, Spawn))
  {
    hide AskOf, UploadOf;
  }

  lemma DisabledStays(s: State, a: Action)
    ensures !Enabled(s, a) ==> Step(s, a) == s
  {
  }

  lemma StepInv(s: State, a: Action)
    requires Inv(s)
    ensures Inv(Step(s, a))
  {
    DisabledStays(s, a);
    hide Inv, Step;
    if !Enabled(s, a) {
    } else if Asks(a) {
      AskStep(s, a);
    } else if Uploads(a) {
      UploadStep(s, a);
    } else if a.Spawn? {
      SpawnStep(s);
    } else {
      RepoStep(s, a);
    }
  }

  lemma {:induction false} RunInv(s: State, acts: seq<Action>)
    requires Inv(s)
    ensures Inv(Run(s, acts))
  {
    hide Inv, Step;
    if acts != [] {
      RunInv(s, acts[..|acts| - 1]);
      StepInv(Run(s, acts[..|acts| - 1]), acts[|acts| - 1]);
    }
  }

  lemma ReachableInv(s: State)
    requires Reachable(s)
    ensures Inv(s)
  {
    var acts :| s == Run(Init, acts);
    RunInv(Init, acts);
  }

  // ---- Publication ----

  /** What is published under a key is one finished upload: nobody writes to it any more, and it is on disk. */
  lemma PublicationSafety(s: State, key: string)
    requires Reachable(s) && key in s.cache
    ensures var g := s.cache[key];
            && g < |s.grants| && s.grants[g].key == key
            && g !in s.writers && g !in s.evicting
            && (s.grants[g].wrote ==> g in s.disk)
            && (forall t: nat :: t < |s.threads| && Owns(s.threads[t]) && s.threads[t].g == g ==> s.threads[t].Closing?)
            && (forall k :: k in s.cache && s.cache[k] == g ==> k == key)
  {
    ReachableInv(s);
    var g := s.cache[key];
    InvAt(s, g);
    forall t: nat | t < |s.threads| && Owns(s.threads[t]) && s.threads[t].g == g ensures s.threads[t].Closing? {
      assert ThreadOk(s, s.threads[t], t);
    }
  }

  /** The only way a decision about a directory can change is from published to evicted. */
  predicate Later(before: Fate, after: Fate) {
    before == Undecided || before == after || (before == Published && after == Evicted)
  }

  lemma FateStep(s: State, a: Action, g: nat)
    requires Inv(s) && g < |s.grants|
    ensures g < |Step(s, a).grants| && Later(s.grants[g].fate, Step(s, a).grants[g].fate)
    ensures Step(s, a).grants[g].key == s.grants[g].key && Step(s, a).grants[g].owner == s.grants[g].owner
  {
    hide GrantsOk, DirsOk, LocksOk, DiskOk, WritersOk, EvictingOk;
    if Enabled(s, a) && Uploads(a) {
      assert ThreadOk(s, s.threads[a.t], a.t);
    }
  }

  lemma {:induction false} FateForward(s: State, acts: seq<Action>, g: nat)
    requires Inv(s) && g < |s.grants|
    ensures g < |Run(s, acts).grants| && Later(s.grants[g].fate, Run(s, acts).grants[g].fate)
    ensures Run(s, acts).grants[g].key == s.grants[g].key
  {
    hide Inv, Step;
    if acts != [] {
      var before := acts[..|acts| - 1];
      FateForward(s, before, g);
      RunInv(s, before);
      FateStep(Run(s, before), acts[|acts| - 1], g);
    }
  }

  /**
   A published directory stays the one published under its key until it is evicted, and a directory that
   was discarded or evicted is never published again.
   */
  lemma {:induction false} NeverReplaced(s: State, acts: seq<Action>, g: nat)
    requires Reachable(s) && g < |s.grants|
    ensures var s2 := Run(s, acts); var key := s.grants[g].key;
            && g < |s2.grants|
            && (key in s.cache && s.cache[key] == g ==>
                  (key in s2.cache && s2.cache[key] == g) || s2.grants[g].fate == Evicted)
            && (s.grants[g].fate == Discarded || s.grants[g].fate == Evicted ==>
                  forall k :: k in s2.cache ==> s2.cache[k] != g)
  {
    ReachableInv(s);
    FateForward(s, acts, g);
    RunInv(s, acts);
    hide Run, Step;
    InvAt(s, g);
    InvAt(Run(s, acts), g);
  }

  // ---- Lock channels ----

  predicate OwnsGrant(s: State, t: nat, g: nat) { t < |s.threads| && Owns(s.threads[t]) && s.threads[t].g == g }

  /**
   A channel has one owner; it is closed at most once, and open exactly as long as the owner has not finished
   StoreUnlock, so nobody waits for a channel that no one will close.
   */
  lemma ChannelLaw(s: State, g: nat)
    requires Reachable(s) && g < |s.grants|
    ensures s.grants[g].closes <= 1
    ensures forall t: nat, u: nat :: OwnsGrant(s, t, g) && OwnsGrant(s, u, g) ==> t == u
    ensures s.grants[g].closes == 0 <==> exists t: nat :: OwnsGrant(s, t, g)
  {
    ReachableInv(s);
    InvAt(s, g);
    forall t: nat | OwnsGrant(s, t, g) ensures t == s.grants[g].owner && s.grants[g].closes == 0 {
      assert ThreadOk(s, s.threads[t], t);
    }
    assert s.grants[g].closes == 0 ==> OwnsGrant(s, s.grants[g].owner, g);
  }

  // ---- Runs, step by step ----

  lemma RunFirst(s: State, a: Action, acts: seq<Action>)
    ensures Run(s, [a] + acts) == Run(Step(s, a), acts)
    decreases |acts|
  {
    hide Step;
    if acts == [] {
      assert [a] + acts == [a] && [a][..0] == [];
    } else {
      var n := |acts| - 1;
      assert ([a] + acts)[..n + 1] == [a] + acts[..n];
      RunFirst(s, a, acts[..n]);
    }
  }

  lemma RunThree(s: State, a: Action, b: Action, c: Action)
    ensures Run(s, [a, b, c]) == Step(Step(Step(s, a), b), c)
  {
    assert Run(Step(Step(Step(s, a), b), c), []) == Step(Step(Step(s, a), b), c);
    hide Step, Run;
    RunFirst(s, a, [b, c]);
    RunFirst(Step(s, a), b, [c]);
    RunFirst(Step(Step(s, a), b), c, []);
    assert [a] + [b, c] == [a, b, c] && [b] + [c] == [b, c] && [c] + [] == [c];
  }

  lemma RunOne(s: State, acts: seq<Action>, a: Action)
    ensures Run(s, acts + [a]) == Step(Run(s, acts), a)
  {
    hide Step;
    assert (acts + [a])[..|acts|] == acts;
  }

  lemma NoActions()
    ensures Run(Init, []) == Init
  {
  }

  lemma RunReachable(acts: seq<Action>)
    ensures Reachable(Run(Init, acts))
  {
    hide Step;
  }

  lemma SpawnTo(s: State)
    ensures Step(s, Spawn) == s.(threads := s.threads + [Idle])
  {
    hide AskOf, UploadOf;
  }

  lemma AskTo(s: State, t: nat, key: string)
    requires t < |s.threads| && s.threads[t].Idle?
    ensures Step(s, Ask(t, key)) == Move(s, t, Asking(key))
  {
    hide UploadOf, RepoOf, DoLook;
  }

  lemma LookTo(s: State, t: nat)
    requires t < |s.threads| && s.threads[t].Asking?
    ensures Step(s, Look(t)) == DoLook(s, t)
  {
    hide UploadOf, RepoOf, DoLook;
  }

  /** StoreLock on an unused key. */
  lemma LockTo(acts: seq<Action>, t: nat, key: string)
    requires var s := Run(Init, acts); t < |s.threads| && s.threads[t].Idle? && key !in s.locks
    ensures var s := Run(Init, acts); var g := |s.grants|;
            Run(Init, acts + [Ask(t, key)] + [Look(t)]) ==
              s.(threads := s.threads[t := Holding(g)], locks := s.locks[key := g],
                 grants := s.grants + [Grant(key, 0, t, false, Undecided)])
  {
    var s := Run(Init, acts);
    RunOne(Init, acts, Ask(t, key));
    RunOne(Init, acts + [Ask(t, key)], Look(t));
    hide Run, Step;
    AskTo(s, t, key);
    LookTo(Move(s, t, Asking(key)), t);
    assert s.threads[t := Asking(key)][t := Holding(|s.grants|)] == s.threads[t := Holding(|s.grants|)];
  }

  /** StoreLock on a locked one. */
  lemma WaitTo(acts: seq<Action>, t: nat, key: string)
    requires var s := Run(Init, acts); t < |s.threads| && s.threads[t].Idle? && key in s.locks
    ensures var s := Run(Init, acts);
            Run(Init, acts + [Ask(t, key)] + [Look(t)]) == s.(threads := s.threads[t := Waiting(key, s.locks[key])])
  {
    var s := Run(Init, acts);
    RunOne(Init, acts, Ask(t, key));
    RunOne(Init, acts + [Ask(t, key)], Look(t));
    hide Run, Step;
    AskTo(s, t, key);
    LookTo(Move(s, t, Asking(key)), t);
    assert s.threads[t := Asking(key)][t := Waiting(key, s.locks[key])] == s.threads[t := Waiting(key, s.locks[key])];
  }

  function Uploading(): seq<Action> { [] + [Spawn] + [Ask(0, "k")] + [Look(0)] }

  lemma UploadingState()
    ensures Run(Init, Uploading()) ==
            State([Holding(0)], [Grant("k", 0, 0, false, Undecided)], map["k" := 0], map[], {}, map[], map[])
  {
    hide Run, Step;
    NoActions();
    RunOne(Init, [], Spawn);
    SpawnTo(Init);
    assert Run(Init, [] + [Spawn]) == Init.(threads := [Idle]);
    LockTo([] + [Spawn], 0, "k");
  }
}
