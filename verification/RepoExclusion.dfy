/**
 Mutual exclusion by the store lock: when exactly two uploads can work on one key.
 */
module RepoExclusion {
  import opened RepoLocks

  /** The thread uploads for a key and has not taken back its lock. */
  predicate Active(p: Thread) { p.Holding? || p.Saving? || p.Dropping? || p.Unlisting? }

  predicate ActiveOn(s: State, t: nat, key: string) {
    t < |s.threads| && Active(s.threads[t]) && s.threads[t].g < |s.grants| && s.grants[s.threads[t].g].key == key
  }

  /** Nobody else works on a key that t works on. */
  ghost predicate OneActive(s: State) {
    forall t: nat, u: nat, key :: ActiveOn(s, t, key) && ActiveOn(s, u, key) ==> t == u
  }

  /** The owner of grant g has not taken back its lock. */
  predicate ActiveOwner(s: State, g: nat) {
    g < |s.grants| && s.grants[g].owner < |s.threads|
    && Active(s.threads[s.grants[g].owner]) && s.threads[s.grants[g].owner].g == g
  }

  /** Whoever works on a key has the lock of that key. */
  ghost predicate Exclusive(s: State) {
    forall t: nat {:trigger s.threads[t]} :: t < |s.threads| ==> LockedAt(s, s.threads[t])
  }

  ghost predicate LockedAt(s: State, p: Thread) {
    Active(p) && p.g < |s.grants| ==> s.grants[p.g].key in s.locks && s.locks[s.grants[p.g].key] == p.g
  }

  /**
   The step deletes the lock of an upload that is still active: a waiter removes the channel it timed out on, or an
   eviction callback deletes whatever lock the key has.
   */
  predicate Steals(s: State, a: Action) {
    && Enabled(s, a)
    && (a.Forget? || a.EvictUnlock?)
    && var key := Contested(s, a);
       key in s.locks && ActiveOwner(s, s.locks[key]) && (a.Forget? ==> s.locks[key] == s.threads[a.t].g)
  }

  /** The key whose lock the step deletes. */
  function Contested(s: State, a: Action): string
    requires Enabled(s, a) && (a.Forget? || a.EvictUnlock?)
  {
    if a.Forget? then s.threads[a.t].key else s.grants[a.g].key
  }

  ghost predicate NoSteals(s: State, acts: seq<Action>) {
    forall n: nat :: n < |acts| ==> !Steals(Run(s, acts[..n]), acts[n])
  }

  lemma ExclusiveStep(s: State, a: Action)
    requires Inv(s) && Exclusive(s) && !Steals(s, a)
    ensures Exclusive(Step(s, a))
  {
    DisabledStays(s, a);
    hide Step, Inv, Exclusive, Steals;
    if !Enabled(s, a) {
    } else if Asks(a) {
      ExclusiveAsk(s, a);
    } else if Uploads(a) {
      ExclusiveUpload(s, a);
    } else {
      ExclusiveRest(s, a);
    }
  }

  /** Of the locks, only those of thread t and of uploads that are over go away. */
  ghost predicate LocksKept(s: State, s2: State, t: nat) {
    forall k {:trigger k in s.locks} {:trigger s.locks[k]} :: k in s.locks ==>
      || (k in s2.locks && s2.locks[k] == s.locks[k])
      || (s.locks[k] < |s.grants| && (!ActiveOwner(s, s.locks[k]) || s.grants[s.locks[k]].owner == t))
  }

  lemma ExclusiveFrame(s: State, s2: State, t: nat)
    requires ThreadsOk(s) && Exclusive(s) && t < |s.threads| && OthersStay(s, s2, t)
    requires |s2.grants| == |s.grants| && LocksKept(s, s2, t)
    requires forall i: nat {:trigger s2.grants[i]} :: i < |s.grants| ==> s2.grants[i].key == s.grants[i].key
    requires LockedAt(s2, s2.threads[t])
    ensures Exclusive(s2)
  {
    hide FateFits;
    forall u: nat | u < |s2.threads| ensures LockedAt(s2, s2.threads[u]) {
      if u != t {
        assert LockedAt(s, s.threads[u]) && ThreadOk(s, s.threads[u], u);
        assert s2.threads[u] == s.threads[u];
      }
    }
  }

  /** A step of StoreLock that grants nothing. */
  lemma AskShape(s: State, a: Action)
    requires Enabled(s, a) && Asks(a) && (a.Look? ==> s.threads[a.t].key in s.locks)
    ensures var s2 := Step(s, a);
            && a.t < |s.threads| && s2.grants == s.grants && s2.threads == s.threads[a.t := s2.threads[a.t]]
            && !Active(s2.threads[a.t])
            && (a.Forget? ==> s2.locks == RemoveStoreLock(s.locks, s.threads[a.t].key, s.threads[a.t].g))
            && (!a.Forget? ==> s2.locks == s.locks)
  {
    hide UploadOf, RepoOf, RemoveStoreLock;
  }

  lemma ExclusiveAsk(s: State, a: Action)
    requires Inv(s) && Exclusive(s) && Enabled(s, a) && Asks(a) && !Steals(s, a)
    ensures Exclusive(Step(s, a))
  {
    if a.Look? && s.threads[a.t].key !in s.locks {
      ExclusiveGrant(s, a.t);
    } else {
      AskShape(s, a);
      var s2 := Step(s, a);
      hide Step, GrantsOk, DirsOk, CacheOk, DiskOk, WritersOk, EvictingOk, FateFits, ThreadsOk, Exclusive, ActiveOwner;
      assert OthersStay(s, s2, a.t) && LockedAt(s2, s2.threads[a.t]) && LocksKept(s, s2, a.t);
      hide Enabled;
      ExclusiveFrame(s, s2, a.t);
    }
  }

  lemma ExclusiveGrant(s: State, t: nat)
    requires Inv(s) && Exclusive(s) && Enabled(s, Look(t)) && s.threads[t].key !in s.locks
    ensures Exclusive(DoLook(s, t))
  {
    hide UploadOf, RepoOf;
    var s2 := DoLook(s, t);
    hide GrantsOk, DirsOk, CacheOk, LocksOk, DiskOk, WritersOk, EvictingOk, FateFits;
    forall u: nat | u < |s2.threads| ensures LockedAt(s2, s2.threads[u]) {
      assert LockedAt(s, s.threads[u]) && ThreadOk(s, s.threads[u], u);
    }
  }

  lemma UploaderAt(s: State, a: Action)
    requires ThreadsOk(s) && Exclusive(s) && Enabled(s, a) && Uploads(a)
    ensures At(s, a.t) && Owns(s.threads[a.t]) && ThreadOk(s, s.threads[a.t], a.t) && LockedAt(s, s.threads[a.t])
  {
    hide ThreadOk, LockedAt;
    assert At(s, a.t);
  }

  lemma ExclusiveUpload(s: State, a: Action)
    requires Inv(s) && Exclusive(s) && Enabled(s, a) && Uploads(a)
    ensures Exclusive(Step(s, a))
  {
    assert ThreadsOk(s);
    hide Step, Inv, Enabled, LockedAt, ThreadsOk, FateFits;
    UploaderAt(s, a);
    var s2, g := Step(s, a), s.threads[a.t].g;
    UploadShape(s, a, g);
    LockRemoved(s, s2, a.t, g);
    assert OthersStay(s, s2, a.t);
    hide Exclusive, LocksKept, RemoveStoreLock;
    ExclusiveFrame(s, s2, a.t);
  }

  lemma LockRemoved(s: State, s2: State, t: nat, g: nat)
    requires g < |s.grants| && s.grants[g].owner == t
    requires s2.locks == s.locks || s2.locks == RemoveStoreLock(s.locks, s.grants[g].key, g)
    ensures LocksKept(s, s2, t)
  {
  }

  lemma UploadShape(s: State, a: Action, g: nat)
    requires Enabled(s, a) && Uploads(a) && g == s.threads[a.t].g && ThreadOk(s, s.threads[a.t], a.t)
    requires LockedAt(s, s.threads[a.t])
    ensures var s2 := Step(s, a);
            && |s2.threads| == |s.threads| && |s2.grants| == |s.grants|
            && (s2.threads == s.threads || s2.threads == s.threads[a.t := s2.threads[a.t]])
            && (s2.grants == s.grants || s2.grants == s.grants[g := s2.grants[g]])
            && s2.grants[g].key == s.grants[g].key
            && (s2.locks == s.locks || s2.locks == RemoveStoreLock(s.locks, s.grants[g].key, g))
            && LockedAt(s2, s2.threads[a.t])
  {
    hide AskOf, RepoOf, FateFits;
  }

  /** What a Store, the cache or its callback leaves of the threads and the locks. */
  lemma RepoShape(s: State, a: Action)
    requires Enabled(s, a) && !Asks(a) && !Uploads(a)
    ensures var s2 := Step(s, a);
            && |s2.grants| == |s.grants|
            && (s2.threads == s.threads || s2.threads == s.threads + [Idle])
            && s2.locks == (if a.EvictUnlock? then s.locks - {s.grants[a.g].key} else s.locks)
            && (forall i: nat {:trigger s2.grants[i]} :: i < |s.grants| ==> s2.grants[i].key == s.grants[i].key)
  {
    hide AskOf, UploadOf;
  }

  lemma ExclusiveRest(s: State, a: Action)
    requires Inv(s) && Exclusive(s) && Enabled(s, a) && !Asks(a) && !Uploads(a) && !Steals(s, a)
    ensures Exclusive(Step(s, a))
  {
    RepoShape(s, a);
    var s2 := Step(s, a);
    hide Step, GrantsOk, DirsOk, CacheOk, LocksOk, DiskOk, WritersOk, EvictingOk, FateFits;
    forall u: nat | u < |s2.threads| ensures LockedAt(s2, s2.threads[u]) {
      if u < |s.threads| {
        assert LockedAt(s, s.threads[u]) && ThreadOk(s, s.threads[u], u);
      }
    }
  }

  lemma InitExclusive()
    ensures Inv(Init) && Exclusive(Init)
  {
  }

  lemma NoStealsFront(s: State, acts: seq<Action>)
    requires acts != [] && NoSteals(s, acts)
    ensures NoSteals(s, acts[..|acts| - 1]) && !Steals(Run(s, acts[..|acts| - 1]), acts[|acts| - 1])
  {
    hide Run, Steals;
    var front := acts[..|acts| - 1];
    forall n: nat | n < |front| ensures !Steals(Run(s, front[..n]), front[n]) {
      assert front[..n] == acts[..n];
    }
  }

  lemma {:induction false} ExclusiveRun(s: State, acts: seq<Action>)
    requires Inv(s) && Exclusive(s) && NoSteals(s, acts)
    ensures Inv(Run(s, acts)) && Exclusive(Run(s, acts))
  {
    hide Step, Exclusive, Inv, NoSteals;
    if acts != [] {
      var before := acts[..|acts| - 1];
      NoStealsFront(s, acts);
      ExclusiveRun(s, before);
      StepInv(Run(s, before), acts[|acts| - 1]);
      ExclusiveStep(Run(s, before), acts[|acts| - 1]);
    }
  }

  lemma ExclusiveOneActive(s: State)
    requires Inv(s) && Exclusive(s)
    ensures OneActive(s)
  {
    forall t: nat, u: nat, key | ActiveOn(s, t, key) && ActiveOn(s, u, key) ensures t == u {
      assert ThreadOk(s, s.threads[t], t) && ThreadOk(s, s.threads[u], u);
      assert LockedAt(s, s.threads[t]) && LockedAt(s, s.threads[u]);
    }
  }

  /**
   The lock excludes: whatever waiters time out and whatever is evicted, one upload at a time works on a key as long
   as no step deletes the lock of an upload that is still active.
   */
  lemma {:induction false} MutualExclusion(acts: seq<Action>, t: nat, u: nat, key: string)
    requires NoSteals(Init, acts)
    requires ActiveOn(Run(Init, acts), t, key) && ActiveOn(Run(Init, acts), u, key)
    ensures t == u
  {
    hide Run, Step, Inv, Exclusive, NoSteals;
    InitExclusive();
    ExclusiveRun(Init, acts);
    ExclusiveOneActive(Run(Init, acts));
  }

  lemma StealShape(s: State, a: Action)
    requires ThreadsOk(s) && Steals(s, a)
    ensures var key := Contested(s, a); var g := s.locks[key]; var s2 := Step(s, a);
            && s2.grants == s.grants && s2.locks == s.locks - {key}
            && s2.threads == (if a.Forget? then s.threads[a.t := Asking(key)] else s.threads)
            && (a.Forget? ==> a.t != s.grants[g].owner)
  {
    hide UploadOf, FateFits;
    if a.Forget? { assert ThreadOk(s, s.threads[a.t], a.t); }
  }

  /** After a step that steals, the next thread to enter StoreLock for the key works on it beside the owner. */
  lemma StealLetsIn(s: State, a: Action, u: nat)
    requires Inv(s) && Steals(s, a)
    requires var s1 := Step(s, a); u < |s1.threads| && s1.threads[u] == Asking(Contested(s, a))
    ensures var key := Contested(s, a); var s2 := Step(Step(s, a), Look(u)); var t := s.grants[s.locks[key]].owner;
            t != u && ActiveOn(s2, t, key) && ActiveOn(s2, u, key)
  {
    var key := Contested(s, a);
    assert s.grants[s.locks[key]].key == key;
    StealShape(s, a);
    var s1 := Step(s, a);
    hide Inv, Steals, Step;
    LookTo(s1, u);
  }

  lemma ArrivalTo(s: State, key: string)
    ensures var n := |s.threads|;
            Step(Step(s, Spawn), Ask(n, key)) == s.(threads := s.threads + [Asking(key)])
  {
    SpawnTo(s);
    hide Step;
    var s1 := s.(threads := s.threads + [Idle]);
    AskTo(s1, |s.threads|, key);
    assert s1.threads[|s.threads| := Asking(key)] == s.threads + [Asking(key)];
  }

  lemma LookBesides(s: State, u: nat, key: string, t: nat)
    requires u < |s.threads| && s.threads[u] == Asking(key) && key !in s.locks && ActiveOn(s, t, key) && t != u
    ensures ActiveOn(Step(s, Look(u)), t, key) && ActiveOn(Step(s, Look(u)), u, key)
  {
    LookTo(s, u);
    hide Step;
  }

  /** The arrival of a thread that enters StoreLock for the key. */
  function Arrival(s: State, key: string): seq<Action> {
    [Spawn, Ask(|s.threads|, key), Look(|s.threads|)]
  }

  /** Conversely, whenever a step can steal, a second upload works on the key as soon as somebody asks for it. */
  lemma {:induction false} StealSplits(s: State, a: Action)
    requires Inv(s) && Steals(s, a)
    ensures var key := Contested(s, a); var t := s.grants[s.locks[key]].owner;
            var s2 := Run(Step(s, a), Arrival(Step(s, a), key));
            && t != |s.threads| && ActiveOn(s2, t, key) && ActiveOn(s2, |s.threads|, key) && !OneActive(s2)
  {
    var key := Contested(s, a);
    var t, u := s.grants[s.locks[key]].owner, |s.threads|;
    assert s.grants[s.locks[key]].key == key;
    StealShape(s, a);
    var s1 := Step(s, a);
    RunThree(s1, Spawn, Ask(u, key), Look(u));
    hide Inv, Steals, Step, Run;
    ArrivalTo(s1, key);
    var s2 := Step(Step(s1, Spawn), Ask(u, key));
    assert s2.threads[t] == s1.threads[t];
    LookBesides(s2, u, key, t);
  }

  lemma ArrivalStealsNothing(s: State, key: string)
    ensures NoSteals(s, Arrival(s, key))
  {
    hide Run;
  }

  /** Whoever comes from here on, no two work on one key until a step steals. */
  ghost predicate Protected(s: State) {
    forall more :: NoSteals(s, more) ==> OneActive(Run(s, more))
  }

  /**
   The exact condition: all states of a run are protected if and only if no step of the run deletes the lock of an
   active upload.
   */
  lemma {:induction false} ExclusionExactly(acts: seq<Action>)
    ensures NoSteals(Init, acts) <==> forall n: nat :: n <= |acts| ==> Protected(Run(Init, acts[..n]))
  {
    hide Run, Step, Inv, Exclusive, Steals, OneActive;
    InitExclusive();
    if NoSteals(Init, acts) {
      forall n: nat, more | n <= |acts| && NoSteals(Run(Init, acts[..n]), more)
        ensures OneActive(Run(Run(Init, acts[..n]), more))
      {
        NoStealsUpTo(Init, acts, n);
        ExclusiveRun(Init, acts[..n]);
        ExclusiveRun(Run(Init, acts[..n]), more);
        ExclusiveOneActive(Run(Run(Init, acts[..n]), more));
      }
    } else {
      var n: nat :| n < |acts| && Steals(Run(Init, acts[..n]), acts[n]);
      var s := Run(Init, acts[..n]);
      RunInv(Init, acts[..n]);
      StealSplits(s, acts[n]);
      SplitsAfter(Init, acts, n);
    }
  }

  lemma NoStealsUpTo(s: State, acts: seq<Action>, n: nat)
    requires n <= |acts| && NoSteals(s, acts)
    ensures NoSteals(s, acts[..n])
  {
    hide Run, Steals;
    forall i: nat | i < n ensures !Steals(Run(s, acts[..n][..i]), acts[..n][i]) {
      assert acts[..n][..i] == acts[..i];
    }
  }

  lemma SplitsAfter(s: State, acts: seq<Action>, n: nat)
    requires n < |acts| && Steals(Run(s, acts[..n]), acts[n])
    requires var q := Run(s, acts[..n]); var q1 := Step(q, acts[n]);
             !OneActive(Run(q1, Arrival(q1, Contested(q, acts[n]))))
    ensures !Protected(Run(s, acts[..n + 1]))
  {
    var q := Run(s, acts[..n]);
    assert acts[..n + 1] == acts[..n] + [acts[n]];
    RunOne(s, acts[..n], acts[n]);
    ArrivalStealsNothing(Step(q, acts[n]), Contested(q, acts[n]));
    hide Run, Step, Steals, OneActive, NoSteals;
  }

  // ---- Runs that reach these situations ----

  function SecondWaits(): seq<Action> { Uploading() + [Spawn] + [Ask(1, "k")] + [Look(1)] }

  lemma StealByWaiter(s: State)
    requires s == State([Holding(0), Waiting("k", 0)], [Grant("k", 0, 0, false, Undecided)], map["k" := 0],
                        map[], {}, map[], map[])
    ensures Steals(Step(s, TimeOut(1)), Forget(1)) && Contested(Step(s, TimeOut(1)), Forget(1)) == "k"
  {
    hide UploadOf, RepoOf, DoLook;
    assert Step(s, TimeOut(1)) == s.(threads := [Holding(0), Stale("k", 0)]);
  }

  /** A second upload of the same key waits, and times out. */
  lemma TimeoutHappens()
    ensures var s := Run(Init, SecondWaits() + [TimeOut(1)]); Reachable(s) && Steals(s, Forget(1))
  {
    RunOne(Init, SecondWaits(), TimeOut(1));
    hide Run, Step, Reachable, Uploading, Steals;
    UploadingState();
    RunOne(Init, Uploading(), Spawn);
    SpawnTo(Run(Init, Uploading()));
    WaitTo(Uploading() + [Spawn], 1, "k");
    StealByWaiter(Run(Init, SecondWaits()));
    RunReachable(SecondWaits() + [TimeOut(1)]);
  }

  lemma PublishTo(s: State)
    requires s == State([Holding(0)], [Grant("k", 0, 0, false, Undecided)], map["k" := 0], map[], {}, map[], map[])
    ensures Step(Step(s, Save(0)), Publish(0)) ==
            s.(threads := [Closing(0)], grants := [Grant("k", 0, 0, false, Published)], cache := map["k" := 0])
  {
    hide AskOf, RepoOf;
    assert Step(s, Save(0)) == s.(threads := [Saving(0)]);
  }

  lemma CloseTo(s: State)
    requires s == State([Closing(0)], [Grant("k", 0, 0, false, Published)], map["k" := 0], map["k" := 0],
                        {}, map[], map[])
    ensures Step(Step(s, Close(0)), Evict("k")) ==
            State([Idle], [Grant("k", 1, 0, false, Evicted)], map["k" := 0], map[], {}, map[], map[0 := false])
  {
    hide AskOf;
    assert Step(s, Close(0)) == s.(threads := [Idle], grants := [Grant("k", 1, 0, false, Published)]);
    hide UploadOf;
  }

  function PublishedAndEvicted(): seq<Action> { Uploading() + [Save(0)] + [Publish(0)] + [Close(0)] + [Evict("k")] }

  lemma PublishedState()
    ensures Run(Init, PublishedAndEvicted()) ==
            State([Idle], [Grant("k", 1, 0, false, Evicted)], map["k" := 0], map[], {}, map[], map[0 := false])
  {
    hide Run, Step, Uploading;
    UploadingState();
    var u := Uploading();
    RunOne(Init, u, Save(0));
    RunOne(Init, u + [Save(0)], Publish(0));
    RunOne(Init, u + [Save(0)] + [Publish(0)], Close(0));
    RunOne(Init, u + [Save(0)] + [Publish(0)] + [Close(0)], Evict("k"));
    PublishTo(Run(Init, u));
    CloseTo(Run(Init, u + [Save(0)] + [Publish(0)]));
  }

  lemma ForgetTo(s: State)
    requires s.threads == [Waiting("k", 0)] && |s.grants| == 1 && s.grants[0].closes > 0
    requires s.locks == map["k" := 0] && s.cache == map[]
    ensures Step(Step(Step(s, Wake(0)), Check(0)), Forget(0)) == s.(threads := [Asking("k")], locks := map[])
  {
    hide UploadOf, RepoOf, DoLook;
    assert Step(s, Wake(0)) == s.(threads := [Woken("k", 0)]);
    assert Step(s.(threads := [Woken("k", 0)]), Check(0)) == s.(threads := [Stale("k", 0)]);
  }

  function Retaken(): seq<Action> {
    PublishedAndEvicted() + [Ask(0, "k")] + [Look(0)] + [Wake(0)] + [Check(0)] + [Forget(0)] + [Look(0)]
  }

  lemma StealByCallback(s: State)
    requires s.threads == [Holding(1)] && |s.grants| == 2 && s.grants[0].key == s.grants[1].key == "k"
    requires s.grants[1].owner == 0 && s.locks == map["k" := 1] && 0 in s.evicting && !s.evicting[0]
    ensures Steals(s, EvictUnlock(0))
  {
  }

  /** A new upload takes the lock over from the evicted one before the callback of the eviction runs. */
  lemma LateCallbackHappens()
    ensures var s := Run(Init, Retaken()); Reachable(s) && Steals(s, EvictUnlock(0))
  {
    hide Run, Step, Reachable, PublishedAndEvicted, Steals;
    PublishedState();
    var u := PublishedAndEvicted();
    WaitTo(u, 0, "k");
    var v := u + [Ask(0, "k")] + [Look(0)];
    RunOne(Init, v, Wake(0));
    RunOne(Init, v + [Wake(0)], Check(0));
    RunOne(Init, v + [Wake(0)] + [Check(0)], Forget(0));
    ForgetTo(Run(Init, v));
    RunOne(Init, v + [Wake(0)] + [Check(0)] + [Forget(0)], Look(0));
    LookTo(Run(Init, v + [Wake(0)] + [Check(0)] + [Forget(0)]), 0);
    assert Retaken() == v + [Wake(0)] + [Check(0)] + [Forget(0)] + [Look(0)];
    StealByCallback(Run(Init, Retaken()));
    RunReachable(Retaken());
  }
}
