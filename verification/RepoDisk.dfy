/**
 The directories on disk: which uploads account for them, and which directory stays for good.
 */
module RepoDisk {
  import opened RepoLocks

  /** The upload is not broken off before a Store that was started has made the directory. */
  predicate Careful(s: State, a: Action) {
    a.Abort? && At(s, a.t) ==> var g := s.threads[a.t].g; g in s.writers ==> s.writers[g]
  }

  ghost predicate CarefulRun(acts: seq<Action>) {
    acts == [] || var n := |acts| - 1; CarefulRun(acts[..n]) && Careful(Run(Init, acts[..n]), acts[n])
  }

  ghost predicate TidyAt(s: State, g: nat) {
    && (g < |s.grants| && g in s.disk ==> Accounted(s, s.grants[g], g))
    && (g < |s.grants| && g in s.writers && !s.writers[g] ==> s.grants[g].fate == Undecided)
  }

  ghost predicate Tidy(s: State) {
    forall g: nat :: TidyAt(s, g)
  }

  lemma TidyFrame(s: State, s2: State, t: nat, g: nat)
    requires Inv(s) && Tidy(s) && About(s, s2, t, g) && TidyAt(s2, g)
    ensures Tidy(s2)
  {
    hide ThreadsOk, CacheOk, LocksOk, WritersOk, EvictingOk, DirsOk, GrantsOk;
    forall i: nat ensures TidyAt(s2, i) {
      assert TidyAt(s, i);
      if i != g && i < |s.grants| {
        InvAt(s, i);
      }
    }
  }

  lemma TidyUpload(s: State, a: Action)
    requires Inv(s) && Tidy(s) && Careful(s, a) && Enabled(s, a) && Uploads(a)
    ensures Tidy(Step(s, a))
  {
    hide AskOf, RepoOf;
    var g := s.threads[a.t].g;
    assert ThreadOk(s, s.threads[a.t], a.t) && TidyAt(s, g);
    UploadAbout(s, a, g);
    InvAt(s, g);
    TidyUploadHere(s, a, g);
    hide Inv, Tidy, About, Step, TidyAt;
    TidyFrame(s, Step(s, a), a.t, g);
  }

  lemma TidyUploadHere(s: State, a: Action, g: nat)
    requires Careful(s, a) && Enabled(s, a) && Uploads(a) && g == s.threads[a.t].g
    requires g < |s.grants| && OkAt(s, a.t, g) && TidyAt(s, g)
    ensures TidyAt(Step(s, a), g)
  {
    hide AskOf, RepoOf;
  }

  lemma TidyRepo(s: State, a: Action)
    requires Inv(s) && Tidy(s) && Enabled(s, a) && !Uploads(a) && !Asks(a) && !a.Spawn?
    ensures Tidy(Step(s, a))
  {
    hide AskOf, UploadOf;
    var g := Subject(s, a);
    RepoAbout(s, a, g);
    InvAt(s, g);
    assert TidyAt(s, g);
    hide Inv, Tidy, About;
    TidyFrame(s, Step(s, a), s.grants[g].owner, g);
  }

  lemma TidyRest(s: State, a: Action)
    requires Inv(s) && Tidy(s) && Enabled(s, a) && (Asks(a) || a.Spawn?)
    ensures Tidy(Step(s, a))
  {
    hide ThreadsOk, GrantsOk, DirsOk, CacheOk, LocksOk, EvictingOk;
    var s2 := Step(s, a);
    forall g: nat ensures TidyAt(s2, g) {
      assert TidyAt(s, g);
      if g < |s.grants| {
        InvAt(s, g);
      }
    }
  }

  lemma TidyStep(s: State, a: Action)
    requires Inv(s) && Tidy(s) && Careful(s, a)
    ensures Tidy(Step(s, a))
  {
    DisabledStays(s, a);
    hide Step, Inv, Tidy, Careful;
    if !Enabled(s, a) {
    } else if Uploads(a) {
      TidyUpload(s, a);
    } else if Asks(a) || a.Spawn? {
      TidyRest(s, a);
    } else {
      TidyRepo(s, a);
    }
  }

  lemma InitTidy()
    ensures Inv(Init) && Tidy(Init)
  {
  }

  lemma {:induction false} TidyRun(acts: seq<Action>)
    requires CarefulRun(acts)
    ensures Tidy(Run(Init, acts))
  {
    hide Step, Inv, Tidy, Careful;
    if acts == [] {
      InitTidy();
    } else {
      var before := acts[..|acts| - 1];
      TidyRun(before);
      InitTidy();
      RunInv(Init, before);
      TidyStep(Run(Init, before), acts[|acts| - 1]);
    }
  }

  /**
   The directories on disk are those of uploads in progress, published ones, and those whose removal is
   under way: an upload that has not reached StoreUnlock, or is about to discard; an entry of the cache; an
   eviction callback still running.
   */
  lemma {:induction false} DiskIsAccounted(acts: seq<Action>, g: nat)
    requires CarefulRun(acts)
    ensures var s := Run(Init, acts);
            && (g in s.disk <==> g < |s.grants| && s.grants[g].wrote && Accounted(s, s.grants[g], g))
            && (g < |s.grants| && s.grants[g].fate == Undecided ==> exists t: nat :: OwnsGrant(s, t, g))
            && (g < |s.grants| && s.grants[g].fate == Published ==> g in s.cache.Values)
  {
    var s := Run(Init, acts);
    TidyRun(acts);
    RunInv(Init, acts);
    hide Run, Step, CarefulRun;
    if g < |s.grants| {
      InvAt(s, g);
      assert TidyAt(s, g);
      assert s.grants[g].closes == 0 ==> OwnsGrant(s, s.grants[g].owner, g);
    }
  }

  /** Nobody will ever remove the directory. */
  ghost predicate Orphan(s: State, g: nat) {
    g < |s.grants| && g in s.disk && s.grants[g].fate == Discarded && s.grants[g].closes > 0
  }

  lemma OrphanOnDisk(s: State, g: nat)
    requires Orphan(s, g)
    ensures g in s.disk
  {
  }

  lemma OrphanUpload(s: State, a: Action, g: nat)
    requires Inv(s) && Orphan(s, g) && Enabled(s, a) && Uploads(a)
    ensures Orphan(Step(s, a), g)
  {
    assert ThreadOk(s, s.threads[a.t], a.t);
    UploadAbout(s, a, s.threads[a.t].g);
    hide Step, Inv, Enabled, FateFits, AddsToCache, LeavesCache;
  }

  lemma OrphanRepo(s: State, a: Action, g: nat)
    requires Inv(s) && Orphan(s, g) && Enabled(s, a) && !Asks(a) && !Uploads(a)
    ensures Orphan(RepoOf(s, a), g)
  {
    InvAt(s, g);
    hide ThreadsOk, GrantsOk, DirsOk, LocksOk, DiskOk, WritersOk, ThreadOk, DirOk, WriterOk;
  }

  lemma OrphanAsk(s: State, a: Action, g: nat)
    requires Orphan(s, g) && Enabled(s, a) && Asks(a)
    ensures Orphan(AskOf(s, a), g)
  {
  }

  lemma OrphanStep(s: State, a: Action, g: nat)
    requires Inv(s) && Orphan(s, g)
    ensures Orphan(Step(s, a), g)
  {
    hide Inv, Orphan, AskOf, UploadOf, RepoOf;
    if Enabled(s, a) {
      if Asks(a) {
        OrphanAsk(s, a, g);
      } else if Uploads(a) {
        OrphanUpload(s, a, g);
      } else {
        OrphanRepo(s, a, g);
      }
    }
  }

  lemma {:induction false} OrphanForever(s: State, acts: seq<Action>, g: nat)
    requires Inv(s) && Orphan(s, g)
    ensures Orphan(Run(s, acts), g)
  {
    hide Inv, Step, Orphan;
    if acts != [] {
      var before := acts[..|acts| - 1];
      OrphanForever(s, before, g);
      RunInv(s, before);
      OrphanStep(Run(s, before), acts[|acts| - 1], g);
    }
  }

  /** The owner of g runs StoreUnlock(save = false) up to the end of RemoveAll, then the Store gets to MkdirAll. */
  function Abandoned(s: State, t: nat, g: nat): State {
    Step(Step(Step(s, Abort(t)), RemoveDir(t)), MakeDir(g))
  }

  /**
   Care is needed: whenever an upload is broken off while its Store has not made the directory yet, that
   Store can make it after RemoveAll, and then it stays for good.
   */
  lemma CarelessAbortLeaks(s: State, t: nat, g: nat, later: seq<Action>)
    requires Reachable(s) && Enabled(s, Abort(t)) && g == s.threads[t].g && !Careful(s, Abort(t))
    ensures var s2 := Step(Step(Abandoned(s, t, g), Unlist(t)), Close(t));
            g in Run(s2, later).disk && t < |s2.threads| && s2.threads[t].Idle?
  {
    ReachableInv(s);
    assert ThreadOk(s, s.threads[t], t);
    AbandonedMade(s, t, g);
    AbandonedLeft(Abandoned(s, t, g), t, g);
    hide Inv, Run, Step, Orphan;
    var s3 := Abandoned(s, t, g);
    StepInv(s, Abort(t));
    StepInv(Step(s, Abort(t)), RemoveDir(t));
    StepInv(Step(Step(s, Abort(t)), RemoveDir(t)), MakeDir(g));
    StepInv(s3, Unlist(t));
    StepInv(Step(s3, Unlist(t)), Close(t));
    OrphanForever(Step(Step(s3, Unlist(t)), Close(t)), later, g);
    OrphanOnDisk(Run(Step(Step(s3, Unlist(t)), Close(t)), later), g);
  }

  lemma AbandonedMade(s: State, t: nat, g: nat)
    requires t < |s.threads| && s.threads[t] == Holding(g) && g < |s.grants| && g in s.writers && !s.writers[g]
    ensures var s3 := Abandoned(s, t, g);
            && t < |s3.threads| && s3.threads[t] == Unlisting(g) && g < |s3.grants|
            && g in s3.disk && s3.grants[g].fate == Discarded
  {
    var s1 := Step(s, Abort(t));
    assert s1 == SetFate(Move(s, t, Dropping(g)), g, Discarded);
    var s2 := Step(s1, RemoveDir(t));
    assert s2 == Move(s1, t, Unlisting(g)).(disk := s1.disk - {g});
  }

  lemma AbandonedLeft(s: State, t: nat, g: nat)
    requires t < |s.threads| && s.threads[t] == Unlisting(g) && g < |s.grants|
    requires g in s.disk && s.grants[g].fate == Discarded
    ensures var s2 := Step(Step(s, Unlist(t)), Close(t)); Orphan(s2, g) && t < |s2.threads| && s2.threads[t].Idle?
  {
    var s1 := Step(s, Unlist(t));
    assert s1 == Move(s, t, Closing(g)).(locks := s1.locks);
  }

  /** A broken stream right after the first chunk. */
  lemma CarelessAbortHappens()
    ensures var s := Run(Init, Uploading() + [StartStore(0)]);
            Reachable(s) && Enabled(s, Abort(0)) && !Careful(s, Abort(0))
  {
    hide Run, Reachable, Uploading;
    UploadingState();
    RunReachable(Uploading() + [StartStore(0)]);
    RunOne(Init, Uploading(), StartStore(0));
    var s := Run(Init, Uploading());
    assert Step(s, StartStore(0)) == s.(writers := map[0 := false]);
    hide Step;
  }
}
