/**
 What the end of afterRun does to the containers in the pools.  A container that never ran is not accepting
 connections, so a job that puts it back unused also stops it.
 */
module RunnerCleanup {
  import opened Wrappers
  import opened RunnerPool

  /** Nobody will put the container into a pool again. */
  ghost predicate Gone(s: State, c: nat) {
    && c < |s.conts| && s.conts[c].owner.Some?
    && (s.conts[c].listed
        || (s.conts[c].owner.value < |s.jobs| && s.jobs[s.conts[c].owner.value].stage.Finished?))
  }

  /** What afterRun still has to look at is gone, or keeps a connection that was lost. */
  ghost predicate JobIntact(s: State, u: Job) {
    && !u.stage.NoSem? && !u.stage.Returning?
    && (u.cleanup.Some? ==>
          u.cleanup.value < |s.conts| && (s.conts[u.cleanup.value].lost != {} || Gone(s, u.cleanup.value)))
  }

  ghost predicate Intact(s: State) {
    && (forall c: nat {:trigger s.conts[c]} :: c < |s.conts| && s.conts[c].stopped ==> Gone(s, c))
    && (forall t: nat {:trigger s.jobs[t]} :: t < |s.jobs| ==> JobIntact(s, s.jobs[t]))
  }

  /** A step that keeps gone containers gone and lost connections lost. */
  ghost predicate Keeps(s: State, s2: State) {
    && |s.conts| <= |s2.conts|
    && (forall c: nat :: Gone(s, c) ==> Gone(s2, c))
    && (forall c: nat {:trigger s2.conts[c]} :: c < |s.conts| && s.conts[c].lost != {} ==> s2.conts[c].lost != {})
  }

  lemma LocalKeeps(s: State, s2: State, t: nat, c: nat)
    requires Shape(s) && GoodStep(s, s2, t, c) && s.conts[c].lost <= s2.conts[c].lost
    ensures Keeps(s, s2)
  {
    assert JobOk(s, s.jobs[t], t) && ContOk(s, s.conts[c], c);
    hide JobsOk, ContsOk, PoolsOk, JobOk, ContOk, SideOk, PoolsFollow;
  }

  /** The container and the job of a step, afterwards. */
  ghost predicate Settles(s: State, s2: State, t: nat, c: nat) {
    && t < |s.jobs| && t < |s2.jobs| && c < |s.conts| && c < |s2.conts|
    && s.conts[c].lost <= s2.conts[c].lost && s2.conts[c].stopped == s.conts[c].stopped
    && !s2.jobs[t].stage.NoSem? && !s2.jobs[t].stage.Returning?
    && (s2.jobs[t].cleanup == s.jobs[t].cleanup
        || (s2.jobs[t].cleanup == Some(c) && (s2.conts[c].lost != {} || s2.conts[c].listed)))
  }

  lemma CacheSettles(s: State, a: Action)
    requires Enabled(s, a) && InCache(a)
    ensures Settles(s, CacheOf(s, a), a.t, a.cont)
  {
    assert Offers(s, a.t, a.cont);
    JoinShape(s, a.t, a.cont);
    hide Join, Enabled, Offers;
  }

  lemma TakeSettles(s: State, t: nat, c: nat)
    requires t < |s.jobs| && c < |s.conts|
    ensures Settles(s, DoTake(s, t, c), t, c)
  {
  }

  lemma ReserveSettles(s: State, t: nat)
    requires At(s, t)
    ensures Settles(s, DoReserveNew(s, t), t, s.jobs[t].stage.c)
  {
    hide WeightOf, ConnLimit;
  }

  lemma ReleaseSettles(s: State, t: nat)
    requires At(s, t) && (s.jobs[t].stage.Ended? || s.jobs[t].stage.Refused?)
    requires JobOk(s, s.jobs[t], t)
    ensures Settles(s, DoRelease(s, t), t, s.jobs[t].stage.c)
  {
    hide WeightOf;
  }

  lemma PhaseSettles(s: State, a: Action)
    requires Enabled(s, a) && OfJob(a) && !a.Take? && !a.ReserveNew? && !a.Release? && !a.Recreate?
    requires !a.AcquireNewFails?
    requires !s.jobs[a.t].stage.NoSem? && !s.jobs[a.t].stage.Returning?
    ensures Settles(s, JobOf(s, a), a.t, s.jobs[a.t].stage.c)
  {
  }

  lemma StepSettles(s: State, a: Action)
    requires Shape(s) && Intact(s) && Enabled(s, a) && !Outside(a) && !Aside(a) && !a.Recreate? && !a.AcquireNewFails?
    ensures Settles(s, Step(s, a), a.t, Subject(s, a))
  {
    var t := a.t;
    assert JobOk(s, s.jobs[t], t) && JobIntact(s, s.jobs[t]);
    hide Settles, Shape, Intact, JobOk, JobIntact, CacheOf, DoTake, DoReserveNew, DoRelease;
    if InCache(a) {
      CacheSettles(s, a);
    } else if a.Take? {
      TakeSettles(s, t, a.cont);
    } else if a.ReserveNew? {
      ReserveSettles(s, t);
    } else if a.Release? {
      ReleaseSettles(s, t);
    } else {
      NoneWaiting(s, t);
      PhaseSettles(s, a);
    }
  }

  lemma NoneWaiting(s: State, t: nat)
    requires t < |s.jobs| && JobIntact(s, s.jobs[t])
    ensures !s.jobs[t].stage.NoSem? && !s.jobs[t].stage.Returning?
  {
  }

  lemma LocalIntact(s: State, s2: State, t: nat, c: nat)
    requires Shape(s) && Shape(s2) && Intact(s) && GoodStep(s, s2, t, c) && Settles(s, s2, t, c)
    ensures Intact(s2)
  {
    LocalKeeps(s, s2, t, c);
    if s2.conts[c].listed { ListedGone(s2, c); }
    hide Shape, JobOk, SideOk, PoolsFollow, SlotFollows, Touches, Gone;
    forall i: nat | i < |s2.conts| && s2.conts[i].stopped ensures Gone(s2, i) {
      assert Gone(s, i);
    }
    forall u: nat | u < |s2.jobs| ensures JobIntact(s2, s2.jobs[u]) {
      assert JobIntact(s, s.jobs[u]);
    }
  }

  lemma ListedGone(s: State, c: nat)
    requires Shape(s) && c < |s.conts| && s.conts[c].listed
    ensures Gone(s, c)
  {
    assert ContOk(s, s.conts[c], c);
  }

  lemma AsideIntact(s: State, a: Action)
    requires Shape(s) && Intact(s) && Enabled(s, a) && Aside(a)
    ensures Intact(AsideOf(s, a))
  {
    var s2 := AsideOf(s, a);
    AsideFlags(s, a);
    if a.AfterRun? {
      var c := s.jobs[a.t].cleanup.value;
      assert JobIntact(s, s.jobs[a.t]) && ContOk(s, s.conts[c], c);
    } else {
      ListedGone(s, a.c);
    }
    hide Shape;
    forall i: nat | i < |s2.conts| && s2.conts[i].stopped ensures Gone(s2, i) {
      assert s.conts[i].stopped || Gone(s, i);
    }
    forall u: nat | u < |s2.jobs| ensures JobIntact(s2, s2.jobs[u]) {
      assert JobIntact(s, s.jobs[u]);
    }
  }

  lemma OutsideIntact(s: State, a: Action)
    requires Intact(s) && Enabled(s, a) && Outside(a)
    ensures Intact(OutsideOf(s, a))
  {
    var s2 := OutsideOf(s, a);
    hide Pool, Created;
    forall i: nat | i < |s2.conts| && s2.conts[i].stopped ensures Gone(s2, i) {
      assert Gone(s, i);
    }
    forall u: nat | u < |s2.jobs| ensures JobIntact(s2, s2.jobs[u]) {
      assert u < |s.jobs| ==> JobIntact(s, s.jobs[u]);
    }
  }

  lemma RecreateIntact(s: State, t: nat)
    requires Shape(s) && Intact(s) && At(s, t) && s.jobs[t].stage.Owing?
    ensures var c := s.jobs[t].stage.c; Intact(Finish(PutFresh(s, s.conts[c].def.runtime), t, c))
  {
    var c := s.jobs[t].stage.c;
    var s2 := Finish(PutFresh(s, s.conts[c].def.runtime), t, c);
    assert JobOk(s, s.jobs[t], t);
    assert Gone(s2, c);
    hide Shape, Pool;
    forall i: nat | i < |s2.conts| && s2.conts[i].stopped ensures Gone(s2, i) {
      assert Gone(s, i);
    }
    forall u: nat | u < |s2.jobs| ensures JobIntact(s2, s2.jobs[u]) {
      assert JobIntact(s, s.jobs[u]);
    }
  }

  lemma IntactStep(s: State, a: Action)
    requires Shape(s) && Intact(s) && !a.AcquireNewFails?
    ensures Intact(Step(s, a))
  {
    if Enabled(s, a) {
      hide Shape, Intact, GoodStep, Settles, AsideOf, OutsideOf, PutFresh, Finish;
      if Outside(a) {
        OutsideIntact(s, a);
      } else if Aside(a) {
        AsideIntact(s, a);
      } else if a.Recreate? {
        RecreateIntact(s, a.t);
      } else {
        LocalStep(s, a);
        StepSettles(s, a);
        ShapeStep(s, a);
        hide Step;
        LocalIntact(s, Step(s, a), a.t, Subject(s, a));
      }
    }
  }

  lemma InitIntact(config: Config)
    ensures Intact(Init(config))
  {
  }

  lemma {:induction false} RunIntact(config: Config, acts: seq<Action>)
    requires forall a :: a in acts ==> !a.AcquireNewFails?
    ensures Intact(Run(Init(config), acts))
  {
    hide Step, Shape, Intact;
    if acts == [] {
      InitIntact(config);
    } else {
      var before := acts[..|acts| - 1];
      RunIntact(config, before);
      RunShape(config, before);
      IntactStep(Run(Init(config), before), acts[|acts| - 1]);
    }
  }

  /** As long as the semaphore is acquired for every fresh container, no container in a pool was ever stopped. */
  lemma {:induction false} PooledNeverStopped(config: Config, acts: seq<Action>, r: nat, c: nat)
    requires forall a :: a in acts ==> !a.AcquireNewFails?
    requires c in Pool(Run(Init(config), acts), r)
    ensures var s := Run(Init(config), acts); c < |s.conts| && !s.conts[c].stopped
  {
    var s := Run(Init(config), acts);
    RunIntact(config, acts);
    RunShape(config, acts);
    hide Run, Step;
    assert PoolAt(s, r, c);
  }

  /** Otherwise, each time, the container can go back to its pool and be stopped there. */
  lemma FreshFailureStopsPooled(s: State, t: nat)
    requires Reachable(s) && Enabled(s, AcquireNewFails(t))
    ensures var s2 := Step(Step(Step(Step(s, AcquireNewFails(t)), DropNoSem(t)), PutBack(t)), AfterRun(t));
            var c := s.jobs[t].stage.c;
            c < |s2.conts| && c in Pool(s2, s.jobs[t].def.runtime) && s2.conts[c].stopped
  {
    var acts :| s == Run(Init(s.config), acts);
    RunShape(s.config, acts);
    var c := s.jobs[t].stage.c;
    assert JobOk(s, s.jobs[t], t);
    hide Run, Step, Shape, JobOk, Enabled;
    FailsTo(s, t, c);
    var s1 := Step(s, AcquireNewFails(t));
    DropsTo(s1, t, c);
    var s2 := Step(s1, DropNoSem(t));
    PutsTo(s2, t, c);
    var s3 := Step(s2, PutBack(t));
    CleansUp(s3, t, c);
    hide Pool;
  }

  lemma FailsTo(s: State, t: nat, c: nat)
    requires Enabled(s, AcquireNewFails(t)) && c == s.jobs[t].stage.c && !s.conts[c].listed
    ensures var s1 := Step(s, AcquireNewFails(t));
            && At(s1, t) && s1.jobs[t].def == s.jobs[t].def && s1.jobs[t].stage == NoSem(c)
            && s1.conts[c].conns == {t} && !s1.conts[c].listed && s1.conts[c].def == s.conts[c].def
  {
  }

  lemma DropsTo(s: State, t: nat, c: nat)
    requires At(s, t) && s.jobs[t].stage == NoSem(c) && s.conts[c].conns == {t} && !s.conts[c].listed
    ensures var s1 := Step(s, DropNoSem(t));
            && At(s1, t) && s1.jobs[t].def == s.jobs[t].def && s1.jobs[t].stage == Returning(c)
            && s1.conts[c].conns == {} && !s1.conts[c].listed && s1.conts[c].def == s.conts[c].def
  {
  }

  lemma PutsTo(s: State, t: nat, c: nat)
    requires At(s, t) && s.jobs[t].stage == Returning(c) && s.conts[c].conns == {} && !s.conts[c].listed
    ensures var s1 := Step(s, PutBack(t));
            && t < |s1.jobs| && c < |s1.conts| && s1.jobs[t].cleanup == Some(c)
            && s1.conts[c].conns == {} && !s1.conts[c].listed && c in Pool(s1, s.conts[c].def.runtime)
  {
  }

  lemma CleansUp(s: State, t: nat, c: nat)
    requires t < |s.jobs| && c < |s.conts| && s.jobs[t].cleanup == Some(c)
    requires s.conts[c].conns == {} && !s.conts[c].listed
    ensures var s1 := Step(s, AfterRun(t)); c < |s1.conts| && s1.conts[c].stopped && s1.pools == s.pools
  {
  }
}
