/**
 What the publish protocol leaves behind: the lock of a discarded upload is given back, and everything that was started
 can end, with nobody timing out.
 */
module RepoCompletion {
  import opened RepoLocks
  import opened RepoDisk

  // ---- The lock of a discarded upload ----

  /** A lock is not that of a discarded upload, unless its owner is about to remove it. */
  ghost predicate LockAlive(s: State, key: string) {
    key in s.locks && s.locks[key] < |s.grants| ==>
      var c := s.grants[s.locks[key]];
      c.fate == Discarded ==>
        && c.owner < |s.threads|
        && (s.threads[c.owner] == Dropping(s.locks[key]) || s.threads[c.owner] == Unlisting(s.locks[key]))
  }

  ghost predicate LocksAlive(s: State) { forall key :: LockAlive(s, key) }

  lemma AliveAsk(s: State, a: Action)
    requires Inv(s) && LocksAlive(s) && Enabled(s, a) && Asks(a)
    ensures LocksAlive(AskOf(s, a))
  {
    hide GrantsOk, DirsOk, CacheOk, DiskOk, WritersOk, EvictingOk, FateFits;
    var s2 := AskOf(s, a);
    forall key ensures LockAlive(s2, key) {
      assert LockAlive(s, key);
      if key in s.locks {
        InvAt(s, s.locks[key]);
      }
    }
  }

  lemma UploaderOk(s: State, a: Action)
    requires Inv(s) && Enabled(s, a) && Uploads(a)
    ensures ThreadOk(s, s.threads[a.t], a.t)
  {
  }

  lemma AliveUploadAt(s: State, a: Action, key: string)
    requires Enabled(s, a) && Uploads(a) && ThreadOk(s, s.threads[a.t], a.t)
    requires LockAlive(s, key)
    requires key in s.locks ==> s.locks[key] < |s.grants| && s.grants[s.locks[key]].key == key
    requires key in s.locks ==> s.grants[s.locks[key]].owner < |s.threads|
    ensures LockAlive(UploadOf(s, a), key)
  {
    hide AskOf, RepoOf, Step, Run;
  }

  lemma AliveUpload(s: State, a: Action)
    requires Inv(s) && LocksAlive(s) && Enabled(s, a) && Uploads(a)
    ensures LocksAlive(UploadOf(s, a))
  {
    UploaderOk(s, a);
    hide UploadOf, Enabled, LockAlive, ThreadOk, GrantsOk, DirsOk, CacheOk, DiskOk, WritersOk, EvictingOk;
    forall key ensures LockAlive(UploadOf(s, a), key) {
      if key in s.locks {
        InvAt(s, s.locks[key]);
      }
      AliveUploadAt(s, a, key);
    }
  }

  lemma AliveRepo(s: State, a: Action)
    requires Inv(s) && LocksAlive(s) && Enabled(s, a) && !Asks(a) && !Uploads(a)
    ensures LocksAlive(RepoOf(s, a))
  {
    hide DirsOk, DiskOk, WritersOk, EvictingOk, FateFits;
    var s2 := RepoOf(s, a);
    forall key ensures LockAlive(s2, key) {
      assert LockAlive(s, key);
      if key in s.locks {
        InvAt(s, s.locks[key]);
      }
    }
  }

  lemma {:induction false} AliveRun(acts: seq<Action>)
    ensures Inv(Run(Init, acts)) && LocksAlive(Run(Init, acts))
  {
    RunInv(Init, acts);
    hide Inv, LocksAlive, AskOf, UploadOf, RepoOf, Enabled;
    if acts == [] {
      AliveInit();
    } else {
      var s, a := Run(Init, acts[..|acts| - 1]), acts[|acts| - 1];
      AliveRun(acts[..|acts| - 1]);
      if !Enabled(s, a) {
      } else if Asks(a) {
        AliveAsk(s, a);
      } else if Uploads(a) {
        AliveUpload(s, a);
      } else {
        AliveRepo(s, a);
      }
    }
  }

  lemma AliveInit()
    ensures LocksAlive(Init)
  {
  }

  /**
   Once the upload was discarded and its owner has closed the channel, or is about to, no key is locked by it any more;
   it stays so in every continuation.
   */
  lemma DiscardedUnlocks(acts: seq<Action>, later: seq<Action>, g: nat)
    requires var s := Run(Init, acts);
             && g < |s.grants| && s.grants[g].fate == Discarded
             && (s.grants[g].closes > 0 || exists t: nat :: t < |s.threads| && s.threads[t] == Closing(g))
    ensures g !in Run(Run(Init, acts), later).locks.Values
  {
    var s := Run(Init, acts);
    AliveRun(acts);
    hide Run;
    InvAt(s, g);
    if t: nat :| t < |s.threads| && s.threads[t] == Closing(g) {
      assert ThreadOk(s, s.threads[t], t);
    }
    forall key | key in s.locks ensures s.locks[key] != g {
      assert LockAlive(s, key);
    }
    assert Gone(s, g);
    GoneRun(s, later, g);
  }

  /** Discarded, and past removeStoreLock. */
  ghost predicate Gone(s: State, g: nat) {
    && g < |s.grants| && s.grants[g].fate == Discarded && g !in s.locks.Values
    && s.grants[g].owner < |s.threads|
    && (s.threads[s.grants[g].owner] == Closing(g) || s.grants[g].closes > 0)
  }

  lemma GoneAsk(s: State, a: Action, g: nat)
    requires Gone(s, g) && Enabled(s, a) && Asks(a)
    ensures Gone(AskOf(s, a), g)
  {
    forall key | key in AskOf(s, a).locks ensures AskOf(s, a).locks[key] != g {
      assert key in s.locks ==> s.locks[key] in s.locks.Values;
    }
  }

  lemma GoneUpload(s: State, a: Action, g: nat)
    requires Gone(s, g) && Enabled(s, a) && Uploads(a) && ThreadOk(s, s.threads[a.t], a.t)
    ensures Gone(UploadOf(s, a), g)
  {
    hide AskOf, RepoOf, Step, Run;
    forall key | key in UploadOf(s, a).locks ensures UploadOf(s, a).locks[key] != g {
      assert s.locks[key] in s.locks.Values;
    }
  }

  lemma GoneRepo(s: State, a: Action, g: nat)
    requires Inv(s) && Gone(s, g) && Enabled(s, a) && !Asks(a) && !Uploads(a)
    ensures Gone(RepoOf(s, a), g)
  {
    hide ThreadsOk, GrantsOk, DirsOk, LocksOk, DiskOk, WritersOk, EvictingOk;
    forall key | key in RepoOf(s, a).locks ensures RepoOf(s, a).locks[key] != g {
      assert s.locks[key] in s.locks.Values;
    }
  }

  lemma GoneStep(s: State, a: Action, g: nat)
    requires Inv(s) && Gone(s, g)
    ensures Gone(Step(s, a), g)
  {
    hide Inv, Gone, AskOf, UploadOf, RepoOf;
    if Enabled(s, a) {
      if Asks(a) {
        GoneAsk(s, a, g);
      } else if Uploads(a) {
        UploaderOk(s, a);
        GoneUpload(s, a, g);
      } else {
        GoneRepo(s, a, g);
      }
    }
  }

  lemma {:induction false} GoneRun(s: State, acts: seq<Action>, g: nat)
    requires Inv(s) && Gone(s, g)
    ensures Gone(Run(s, acts), g)
  {
    hide Inv, Step, Gone;
    if acts != [] {
      var front := acts[..|acts| - 1];
      GoneRun(s, front, g);
      RunInv(s, front);
      GoneStep(Run(s, front), acts[|acts| - 1], g);
    }
  }

  // ---- Everything can end ----

  /** A step of something under way: nobody calls StoreLock, breaks off an upload, evicts a key or times out. */
  predicate Serves(a: Action) { !a.Spawn? && !a.Ask? && !a.Abort? && !a.Evict? && !a.TimeOut? }

  ghost predicate Serving(acts: seq<Action>) { forall a :: a in acts ==> Serves(a) }

  ghost predicate Quiet(s: State) {
    && s.writers == map[] && s.evicting == map[]
    && (forall t: nat {:trigger s.threads[t]} :: t < |s.threads| ==> s.threads[t].Idle?)
  }

  lemma {:induction false} RunSplit(s: State, first: seq<Action>, second: seq<Action>)
    ensures Run(s, first + second) == Run(Run(s, first), second)
  {
    hide Step;
    if second == [] {
      assert first + second == first;
    } else {
      var n := |second| - 1;
      assert (first + second)[..|first| + n] == first + second[..n];
      RunSplit(s, first, second[..n]);
    }
  }

  /** One step before a run. */
  lemma Before(s: State, a: Action, acts: seq<Action>)
    requires Serves(a) && Serving(acts)
    ensures Run(s, [a] + acts) == Run(Step(s, a), acts) && Serving([a] + acts)
  {
    RunFirst(s, a, acts);
  }

  lemma Behind(s: State, first: seq<Action>, second: seq<Action>)
    requires Serving(first) && Serving(second)
    ensures Run(s, first + second) == Run(Run(s, first), second) && Serving(first + second)
  {
    RunSplit(s, first, second);
  }

  lemma Nothing(s: State)
    ensures Run(s, []) == s && Serving([])
  {
  }

  lemma EvictingSteps(s: State, g: nat)
    requires Inv(s) && g in s.evicting
    ensures !s.evicting[g] ==> Enabled(s, EvictUnlock(g)) && Step(s, EvictUnlock(g)).evicting == s.evicting[g := true]
    ensures s.evicting[g] ==> Enabled(s, EvictRemove(g)) && Step(s, EvictRemove(g)).evicting == s.evicting - {g}
  {
    hide AskOf, UploadOf;
  }

  /** The eviction callback of g runs to its end. */
  lemma EndEviction(s: State, g: nat) returns (acts: seq<Action>)
    requires Inv(s) && g in s.evicting
    ensures Serving(acts) && Inv(Run(s, acts)) && Run(s, acts).evicting == s.evicting - {g}
    decreases !s.evicting[g]
  {
    EvictingSteps(s, g);
    hide Inv, Step, Run;
    if s.evicting[g] {
      acts := [EvictRemove(g)];
      StepInv(s, EvictRemove(g));
      Nothing(Step(s, EvictRemove(g)));
      Before(s, EvictRemove(g), []);
    } else {
      StepInv(s, EvictUnlock(g));
      var rest := EndEviction(Step(s, EvictUnlock(g)), g);
      acts := [EvictUnlock(g)] + rest;
      Before(s, EvictUnlock(g), rest);
    }
  }

  lemma EndEvictions(s: State) returns (acts: seq<Action>)
    requires Inv(s)
    ensures Serving(acts) && Inv(Run(s, acts)) && Run(s, acts).evicting == map[]
    decreases s.evicting.Keys
  {
    hide Inv, Step, Run;
    Nothing(s);
    acts := [];
    if g :| g in s.evicting {
      var first := EndEviction(s, g);
      assert g in s.evicting.Keys;
      var second := EndEvictions(Run(s, first));
      acts := first + second;
      Behind(s, first, second);
    }
  }

  lemma WriterSteps(s: State, g: nat)
    requires Inv(s) && g in s.writers
    ensures !s.writers[g] ==> Enabled(s, MakeDir(g)) && Step(s, MakeDir(g)).writers == s.writers[g := true]
    ensures !s.writers[g] ==> Step(s, MakeDir(g)).evicting == s.evicting
    ensures Enabled(s, EndStore(g)) && Step(s, EndStore(g)) == s.(writers := s.writers - {g})
  {
    hide AskOf, UploadOf;
    assert WriterOk(s, g);
  }

  /** The Store of g ends; it makes its directory first. */
  lemma EndWriter(s: State, g: nat) returns (acts: seq<Action>)
    requires Inv(s) && g in s.writers
    ensures Serving(acts) && Inv(Run(s, acts))
    ensures Run(s, acts).writers == s.writers - {g} && Run(s, acts).evicting == s.evicting
    decreases !s.writers[g]
  {
    WriterSteps(s, g);
    hide Inv, Step, Run;
    if s.writers[g] {
      acts := [EndStore(g)];
      StepInv(s, EndStore(g));
      Nothing(Step(s, EndStore(g)));
      Before(s, EndStore(g), []);
    } else {
      StepInv(s, MakeDir(g));
      var rest := EndWriter(Step(s, MakeDir(g)), g);
      acts := [MakeDir(g)] + rest;
      Before(s, MakeDir(g), rest);
    }
  }

  lemma EndWriters(s: State) returns (acts: seq<Action>)
    requires Inv(s)
    ensures Serving(acts) && Inv(Run(s, acts))
    ensures Run(s, acts).writers == map[] && Run(s, acts).evicting == s.evicting
    decreases s.writers.Keys
  {
    hide Inv, Step, Run;
    Nothing(s);
    acts := [];
    if g :| g in s.writers {
      var first := EndWriter(s, g);
      assert g in s.writers.Keys;
      var second := EndWriters(Run(s, first));
      acts := first + second;
      Behind(s, first, second);
    }
  }

  // ---- The threads, one after the other ----

  ghost predicate NobodyUploads(s: State) {
    forall t: nat {:trigger s.threads[t]} :: t < |s.threads| ==> !Owns(s.threads[t])
  }

  /** No Store and no eviction callback is running, and thread t waits for no upload. */
  ghost predicate Clear(s: State, t: nat) {
    && t < |s.threads| && s.writers == map[] && s.evicting == map[]
    && (s.threads[t].Idle? || Owns(s.threads[t]) || NobodyUploads(s))
  }

  /** What the thread does next; an upload is saved. */
  function Next(p: Thread, t: nat): Action
    requires !p.Idle?
  {
    match p
    case Asking(_) => Look(t)
    case Waiting(_, _) => Wake(t)
    case Woken(_, _) => Check(t)
    case Stale(_, _) => Forget(t)
    case Holding(_) => Save(t)
    case Saving(_) => Publish(t)
    case Dropping(_) => RemoveDir(t)
    case Unlisting(_) => Unlist(t)
    case Closing(_) => Close(t)
  }

  /** How many steps the thread has left at most; a waiter whose channel is not that of the lock waits once more. */
  function Left(locks: map<string, nat>, p: Thread): nat {
    match p
    case Idle => 0
    case Closing(_) => 1
    case Unlisting(_) => 2
    case Dropping(_) => 3
    case Saving(_) => 4
    case Holding(_) => 5
    case Asking(key) => if key in locks then 10 else 6
    case Stale(key, g) => if key in locks && locks[key] != g then 11 else 7
    case Woken(key, g) => if key in locks && locks[key] != g then 12 else 8
    case Waiting(key, g) => if key in locks && locks[key] != g then 13 else 9
  }

  ghost predicate Advances(s: State, s2: State, t: nat) {
    OthersStay(s, s2, t) && Clear(s2, t) && Left(s2.locks, s2.threads[t]) < Left(s.locks, s.threads[t])
  }

  lemma UploaderAdvances(s: State, t: nat)
    requires Inv(s) && Clear(s, t) && Owns(s.threads[t])
    ensures Advances(s, Step(s, Next(s.threads[t], t)), t)
  {
    hide AskOf, RepoOf, GrantsOk, DirsOk, CacheOk, LocksOk, DiskOk, WritersOk, EvictingOk;
    assert ThreadOk(s, s.threads[t], t);
  }

  /** A step of thread t that leaves it without a grant. */
  lemma WaiterMoves(s: State, s2: State, t: nat)
    requires Clear(s, t) && NobodyUploads(s) && t < |s2.threads| && !Owns(s2.threads[t])
    requires s2 == s.(threads := s.threads[t := s2.threads[t]], locks := s2.locks)
    ensures OthersStay(s, s2, t) && Clear(s2, t)
  {
  }

  lemma WaiterAdvances(s: State, t: nat)
    requires Inv(s) && Clear(s, t) && !Owns(s.threads[t]) && !s.threads[t].Idle?
    ensures Advances(s, Step(s, Next(s.threads[t], t)), t)
  {
    hide UploadOf, RepoOf, DirsOk, CacheOk, DiskOk, WritersOk, EvictingOk;
    var p := s.threads[t];
    assert ThreadOk(s, p, t);
    if p.Asking? && p.key !in s.locks {
      LookTo(s, t);
      assert OthersStay(s, DoLook(s, t), t);
    } else {
      if Waits(p) {
        InvAt(s, p.g);
      }
      var s2 := Step(s, Next(p, t));
      assert !Owns(s2.threads[t]) && Left(s2.locks, s2.threads[t]) < Left(s.locks, p);
      WaiterMoves(s, s2, t);
    }
  }

  lemma EndThread(s: State, t: nat) returns (acts: seq<Action>)
    requires Inv(s) && Clear(s, t)
    ensures Serving(acts) && Inv(Run(s, acts))
    ensures var r := Run(s, acts);
            OthersStay(s, r, t) && r.threads[t] == Idle && r.writers == map[] && r.evicting == map[]
    decreases Left(s.locks, s.threads[t])
  {
    hide Inv, Step, Run, Left, Next, Owns;
    if s.threads[t].Idle? {
      acts := [];
      Nothing(s);
    } else {
      var a := Next(s.threads[t], t);
      if Owns(s.threads[t]) {
        UploaderAdvances(s, t);
      } else {
        WaiterAdvances(s, t);
      }
      StepInv(s, a);
      NextServes(s.threads[t], t);
      var rest := EndThread(Step(s, a), t);
      acts := [a] + rest;
      Before(s, a, rest);
    }
  }

  lemma NextServes(p: Thread, t: nat)
    requires !p.Idle?
    ensures Serves(Next(p, t))
  {
  }

  /** First those that upload. */
  lemma EndUploads(s: State, n: nat) returns (acts: seq<Action>)
    requires Inv(s) && n <= |s.threads| && s.writers == map[] && s.evicting == map[]
    requires forall t: nat {:trigger s.threads[t]} :: t < n ==> !Owns(s.threads[t])
    ensures Serving(acts) && Inv(Run(s, acts)) && NobodyUploads(Run(s, acts))
    ensures Run(s, acts).writers == map[] && Run(s, acts).evicting == map[]
    decreases |s.threads| - n
  {
    hide Inv, Step, Run;
    acts := [];
    Nothing(s);
    if n < |s.threads| {
      var first := [];
      if Owns(s.threads[n]) {
        first := EndThread(s, n);
      }
      var second := EndUploads(Run(s, first), n + 1);
      acts := first + second;
      Behind(s, first, second);
    }
  }

  /** Then those that wait, whose channels are all closed by now. */
  lemma EndWaiters(s: State, n: nat) returns (acts: seq<Action>)
    requires Inv(s) && n <= |s.threads| && s.writers == map[] && s.evicting == map[] && NobodyUploads(s)
    requires forall t: nat {:trigger s.threads[t]} :: t < n ==> s.threads[t].Idle?
    ensures Serving(acts) && Inv(Run(s, acts)) && Quiet(Run(s, acts))
    decreases |s.threads| - n
  {
    hide Inv, Step, Run;
    acts := [];
    Nothing(s);
    if n < |s.threads| {
      var first := EndThread(s, n);
      var second := EndWaiters(Run(s, first), n + 1);
      acts := first + second;
      Behind(s, first, second);
    }
  }

  /**
   From wherever a run has got to, every thread returns, every Store and every eviction ends, with the steps under way
   alone: no thread has to time out, and no new call is needed.
   */
  lemma EverythingEnds(s: State)
    requires Reachable(s)
    ensures exists acts :: Serving(acts) && Quiet(Run(s, acts))
  {
    ReachableInv(s);
    hide Inv, Step, Run, Quiet;
    var first := EndEvictions(s);
    var s1 := Run(s, first);
    var second := EndWriters(s1);
    var s2 := Run(s1, second);
    var third := EndUploads(s2, 0);
    var fourth := EndWaiters(Run(s2, third), 0);
    Behind(s2, third, fourth);
    Behind(s1, second, third + fourth);
    Behind(s, first, second + (third + fourth));
  }

  lemma {:induction false} CarefulOn(before: seq<Action>, acts: seq<Action>)
    requires CarefulRun(before) && Serving(acts)
    ensures CarefulRun(before + acts)
  {
    hide Run, At;
    if acts == [] {
      assert before + acts == before;
    } else {
      var n := |acts| - 1;
      assert (before + acts)[..|before| + n] == before + acts[..n] && (before + acts)[|before| + n] == acts[n];
      assert acts[n] in acts;
      CarefulOn(before, acts[..n]);
    }
  }

  /**
   When all has ended, every channel is closed, a lock still listed is that of an upload that was published, and after
   a careful run the directories on disk are the published ones and no others.
   */
  lemma QuietRepository(acts: seq<Action>)
    requires Quiet(Run(Init, acts))
    ensures var s := Run(Init, acts);
            && (forall g: nat :: g < |s.grants| ==> s.grants[g].closes == 1)
            && (forall key :: key in s.locks && s.locks[key] < |s.grants| ==>
                  s.grants[s.locks[key]].fate == Published || s.grants[s.locks[key]].fate == Evicted)
            && (CarefulRun(acts) ==>
                  forall g: nat :: g in s.disk <==> g < |s.grants| && s.grants[g].wrote && g in s.cache.Values)
  {
    var s := Run(Init, acts);
    AliveRun(acts);
    hide Run, CarefulRun;
    forall g: nat | g < |s.grants| ensures s.grants[g].closes == 1 {
      InvAt(s, g);
    }
    forall key | key in s.locks && s.locks[key] < |s.grants|
      ensures s.grants[s.locks[key]].fate == Published || s.grants[s.locks[key]].fate == Evicted
    {
      assert LockAlive(s, key);
      InvAt(s, s.locks[key]);
    }
    if CarefulRun(acts) {
      forall g: nat ensures g in s.disk <==> g < |s.grants| && s.grants[g].wrote && g in s.cache.Values {
        DiskIsAccounted(acts, g);
        if g < |s.grants| {
          InvAt(s, g);
        }
      }
    }
  }

  /** Both together: after any careful run, the disk can come to hold exactly what is published. */
  lemma DiskComesToCache(before: seq<Action>)
    requires CarefulRun(before)
    ensures exists acts :: var s := Run(Init, before + acts);
              && Serving(acts) && Quiet(s)
              && (forall g: nat :: g in s.disk <==> g < |s.grants| && s.grants[g].wrote && g in s.cache.Values)
  {
    hide Step, CarefulRun, Quiet, Run;
    RunReachable(before);
    EverythingEnds(Run(Init, before));
    var acts :| Serving(acts) && Quiet(Run(Run(Init, before), acts));
    RunSplit(Init, before, acts);
    CarefulOn(before, acts);
    QuietRepository(before + acts);
  }
}
