/**
 How the slot allocator comes to rest: from wherever a run has got to, every call of Run can end, and the pools are full
 again.
 */
module RunnerCompletion {
  import opened Sums
  import opened RunnerPool
  import opened RunnerConservation
  import opened RunnerSemaphore

  // ---- A use of a cached container ----

  lemma AttachTo(s: State, t: nat, c: nat)
    requires Enabled(s, AttachCached(t, c))
    ensures t !in s.conts[c].conns && Step(s, AttachCached(t, c)) == Move(Join(s, t, c), t, Attached(c, false))
  {
    hide Join, ConnLimit, CanJoin, AsideOf, JobOf, OutsideOf;
  }

  lemma EndRunTo(s: State, t: nat, c: nat, newCont: bool)
    requires t < |s.jobs| && c < |s.conts| && s.jobs[t].stage == Attached(c, newCont)
    ensures Step(s, EndRun(t)) == Move(s, t, Ended(c, newCont))
  {
    hide AsideOf, CacheOf, OutsideOf;
  }

  lemma ReleaseTo(s: State, t: nat, c: nat)
    requires t < |s.jobs| && c < |s.conts| && s.jobs[t].stage == Ended(c, false)
    ensures Step(s, Release(t)) == Finish(Leave(s, t, c), t, c)
  {
    hide AsideOf, CacheOf, OutsideOf, Leave;
  }

  /** The last connection that leaves gives back what the first one took. */
  lemma JoinLeave(s: State, t: nat, c: nat)
    requires t < |s.jobs| && c < |s.conts| && t !in s.conts[c].conns
    requires s.conts[c].conns == {} ==> s.conts[c].acquired == 0
    ensures var s1 := Join(s, t, c);
            c < |s1.conts| && s1.conts[c].conns == s.conts[c].conns + {t}
            && s1.held == s.held + (if s.conts[c].conns == {} then WeightOf(s, s.jobs[t].def) else 0)
    ensures Leave(Join(s, t, c), t, c) == s
  {
    hide Weight;
    var k := s.conts[c];
    assert k.conns + {t} - {t} == k.conns;
    var s1 := Join(s, t, c);
    assert s1.conts[c].conns == k.conns + {t};
    assert Leave(s1, t, c).conts[c] == k;
    assert Leave(s1, t, c).conts == s.conts;
  }

  lemma Offered(s: State, t: nat, c: nat)
    requires Weighed(s) && Enabled(s, AttachCached(t, c))
    ensures t < |s.jobs| && c < |s.conts| && s.conts[c].def == s.jobs[t].def
    ensures s.conts[c].conns == {} ==> s.conts[c].acquired == 0
  {
    hide ConnLimit, CanJoin, AcquiredWeight;
    assert WeightOk(s, s.conts[c], c);
  }

  lemma LeaveMoved(s: State, t: nat, c: nat, p: Stage)
    requires t < |s.jobs| && c < |s.conts|
    ensures Leave(Move(s, t, p), t, c) == Move(Leave(s, t, c), t, p)
  {
    hide Weight;
  }

  /**
   A call that gets a connection of a cached container and returns it leaves the container with the connections it had,
   and the semaphore with the weight it held.
   */
  lemma CachedUse(s: State, t: nat, c: nat)
    requires Shape(s) && Weighed(s) && Enabled(s, AttachCached(t, c))
    ensures var s1 := Step(s, AttachCached(t, c));
            && c < |s1.conts| && s1.conts[c].conns == s.conts[c].conns + {t}
            && s1.held == s.held + (if s.conts[c].conns == {} then WeightOf(s, s.conts[c].def) else 0)
            && Step(Step(s1, EndRun(t)), Release(t)) == Finish(s, t, c)
  {
    AttachTo(s, t, c);
    Offered(s, t, c);
    hide Step, Shape, WeighedBut, Enabled, WeightOf, Leave, Offers, Move, Finish;
    JoinLeave(s, t, c);
    assert |Join(s, t, c).jobs| == |s.jobs|;
    hide Join;
    EndAndRelease(Join(s, t, c), t, c);
  }

  lemma EndAndRelease(s: State, t: nat, c: nat)
    requires t < |s.jobs| && c < |s.conts|
    ensures Step(Step(Move(s, t, Attached(c, false)), EndRun(t)), Release(t)) == Finish(Leave(s, t, c), t, c)
  {
    EndRunTo(Move(s, t, Attached(c, false)), t, c, false);
    hide Step, Leave, Enabled;
    assert Move(Move(s, t, Attached(c, false)), t, Ended(c, false)) == Move(s, t, Ended(c, false));
    ReleaseTo(Move(s, t, Ended(c, false)), t, c);
    LeaveMoved(s, t, c, Ended(c, false));
    var left := Leave(s, t, c);
    assert Finish(Move(left, t, Ended(c, false)), t, c) == Finish(left, t, c);
  }

  // ---- Coming to rest ----

  /** A step of a call that is under way, other than giving back a container whose connection stays. */
  predicate Settles(a: Action) { OfJob(a) && !a.ReturnMissing? }

  ghost predicate Settling(acts: seq<Action>) { forall a :: a in acts ==> Settles(a) }

  /** Jobs began after the pool of their runtime was filled. */
  ghost predicate Begun(s: State) {
    forall t: nat {:trigger s.jobs[t]} :: t < |s.jobs| ==> Created(s, s.jobs[t].def.runtime) == s.config.concurrency
  }

  ghost predicate Sound(s: State) { Shape(s) && Weighed(s) && Begun(s) && (forall r: nat :: Balanced(s, r)) }

  lemma BegunStep(s: State, a: Action)
    requires Shape(s) && Begun(s)
    ensures Begun(Step(s, a))
  {
    hide Shape;
    if Enabled(s, a) {
      if Outside(a) {
        BegunOutside(s, a);
      } else {
        hide Begun;
        DefsStay(s, a);
        BegunStays(s, Step(s, a));
      }
    }
  }

  lemma BegunOutside(s: State, a: Action)
    requires Begun(s) && Enabled(s, a) && Outside(a)
    ensures Begun(OutsideOf(s, a))
  {
    hide WeightOf;
  }

  lemma BegunStays(s: State, s2: State)
    requires Begun(s) && SameDefs(s, s2)
    ensures Begun(s2)
  {
  }

  ghost predicate SameDefs(s: State, s2: State) {
    && |s2.jobs| == |s.jobs| && s2.config == s.config && s2.created == s.created
    && (forall t: nat {:trigger s2.jobs[t]} :: t < |s.jobs| ==> s2.jobs[t].def == s.jobs[t].def)
  }

  lemma DefsStay(s: State, a: Action)
    requires Shape(s) && Enabled(s, a) && !Outside(a)
    ensures SameDefs(s, Step(s, a))
  {
    hide Shape, JobOk, SideOk, PoolsFollow;
    if Aside(a) {
      AsideFlags(s, a);
    } else if a.Recreate? {
      hide AsideOf, CacheOf, OutsideOf;
    } else {
      LocalStep(s, a);
      hide Step, Touches;
    }
  }

  lemma SoundStep(s: State, a: Action)
    requires Sound(s) && Clean(a)
    ensures Sound(Step(s, a))
  {
    forall r: nat ensures Balanced(Step(s, a), r) {
      BalanceStep(s, a, r);
    }
    hide Step, Balanced, Enabled;
    ShapeStep(s, a);
    BegunStep(s, a);
    WeighedStep(s, a, -1, 0);
  }

  lemma {:induction false} RunSound(config: Config, acts: seq<Action>)
    requires forall a :: a in acts ==> Clean(a)
    ensures Sound(Run(Init(config), acts))
  {
    hide Step, Balanced, Begun, Shape, WeighedBut;
    RunShape(config, acts);
    RunWeighed(config, acts);
    forall r: nat ensures Balanced(Run(Init(config), acts), r) {
      RunBalance(config, acts, r);
    }
    RunBegun(config, acts);
  }

  lemma {:induction false} RunBegun(config: Config, acts: seq<Action>)
    ensures Begun(Run(Init(config), acts))
  {
    hide Step, Shape;
    if acts != [] {
      RunBegun(config, acts[..|acts| - 1]);
      RunShape(config, acts[..|acts| - 1]);
      BegunStep(Run(Init(config), acts[..|acts| - 1]), acts[|acts| - 1]);
    }
  }

  /** What the call does next; a container that misses a resource is stopped, and its call ends like any other. */
  function Next(s: State, t: nat): Action
    requires At(s, t)
  {
    var p := s.jobs[t].stage;
    match p
    case Took(c) => if CanJoin(s, c, s.jobs[t].def) then ReserveNew(t) else AcquireNewFails(t)
    case Attached(_, _) => EndRun(t)
    case NoSem(_) => DropNoSem(t)
    case Missing(_) => CleanupFails(t)
    case Returning(_) => PutBack(t)
    case Owing(_) => Recreate(t)
    case _ => Release(t)
  }

  function Left(p: Stage): nat {
    match p
    case Finished => 0
    case Owing(_) => 1
    case Returning(_) => 1
    case Ended(_, _) => 2
    case Refused(_) => 2
    case NoSem(_) => 2
    case Attached(_, _) => 3
    case Missing(_) => 3
    case Took(_) => 4
    case Start => 5
  }

  ghost predicate Nearer(s: State, s2: State, t: nat)
    requires t < |s.jobs|
  {
    && |s2.jobs| == |s.jobs| && s2.jobs == s.jobs[t := s2.jobs[t]]
    && Left(s2.jobs[t].stage) < Left(s.jobs[t].stage)
  }

  lemma NextStep(s: State, t: nat)
    requires At(s, t)
    ensures var a := Next(s, t); Settles(a) && a.t == t && Enabled(s, a) && Nearer(s, Step(s, a), t)
  {
    var p := s.jobs[t].stage;
    if p.Took? {
      ReserveNearer(s, t);
    } else if p.Ended? || p.Refused? {
      ReleaseNearer(s, t);
    } else if p.Attached? {
      EndRunTo(s, t, p.c, p.newCont);
    } else {
      GiveBackNearer(s, t);
    }
  }

  lemma ReleaseNearer(s: State, t: nat)
    requires At(s, t) && (s.jobs[t].stage.Ended? || s.jobs[t].stage.Refused?)
    ensures Enabled(s, Release(t)) && Nearer(s, Step(s, Release(t)), t)
  {
    hide AsideOf, CacheOf, OutsideOf, WeightOf;
  }

  lemma GiveBackNearer(s: State, t: nat)
    requires At(s, t)
    requires var p := s.jobs[t].stage; p.NoSem? || p.Missing? || p.Returning? || p.Owing?
    ensures var a := Next(s, t); a.t == t && Enabled(s, a) && Nearer(s, Step(s, a), t)
  {
    hide AsideOf, CacheOf, OutsideOf, DoReserveNew, DoTake, DoRelease, CanJoin, ConnLimit, WeightOf;
  }

  lemma ReserveNearer(s: State, t: nat)
    requires At(s, t) && s.jobs[t].stage.Took?
    ensures var a := Next(s, t); Settles(a) && a.t == t && Enabled(s, a) && Nearer(s, Step(s, a), t)
  {
    hide AsideOf, CacheOf, OutsideOf, WeightOf, ConnLimit;
  }

  lemma TakeNext(s: State, t: nat, c: nat)
    requires Enabled(s, Take(t, c))
    ensures Settles(Take(t, c)) && Nearer(s, Step(s, Take(t, c)), t)
  {
    hide AsideOf, CacheOf, OutsideOf;
  }

  lemma {:induction false} RunSplit(s: State, first: seq<Action>, second: seq<Action>)
    ensures Run(s, first + second) == Run(Run(s, first), second)
  {
    hide Step;
    if second == [] {
      assert first + second == first;
    } else {
      var n := |second| - 1;
      assert (first + second)[..|first| + n] == first + second[..n];
      RunSplit(s, first, second[..n]);
    }
  }

  lemma Single(s: State, a: Action)
    ensures Run(s, [a]) == Step(s, a) && Run(s, []) == s
  {
    hide Step;
    assert Run(s, [a][..0]) == s;
  }

  /** Whoever comes to s2 from s has lost no weight on the way. */
  ghost predicate Reaches(s: State, acts: seq<Action>, s2: State) {
    Settling(acts) && s2 == Run(s, acts) && Sound(s2) && (SomeKept(s2) <==> SomeKept(s))
  }

  lemma StayReaches(s: State)
    requires Sound(s)
    ensures Reaches(s, [], s)
  {
    hide Sound, SomeKept;
  }

  lemma StepReaches(s: State, a: Action)
    requires Sound(s) && Settles(a)
    ensures Reaches(s, [a], Step(s, a))
  {
    assert Clean(a) && !LosesWeight(s, a);
    hide Step, Shape, WeighedBut, Begun, Balanced, LosesWeight, SomeKept;
    SoundStep(s, a);
    SomeKeptStep(s, a);
    Single(s, a);
  }

  lemma ReachesOn(s: State, first: seq<Action>, s1: State, second: seq<Action>, s2: State)
    requires Reaches(s, first, s1) && Reaches(s1, second, s2)
    ensures Reaches(s, first + second, s2)
  {
    hide Sound, SomeKept, Settles;
    RunSplit(s, first, second);
  }

  lemma JobAt(s: State, t: nat)
    requires Sound(s) && t < |s.jobs| && HasCont(s.jobs[t].stage)
    ensures At(s, t)
  {
    assert JobOk(s, s.jobs[t], t);
  }

  /** The call t ends; if it has no container yet, there is one in the pool. */
  lemma EndJob(s: State, t: nat) returns (acts: seq<Action>, s2: State)
    requires Sound(s) && t < |s.jobs|
    requires s.jobs[t].stage.Start? ==> |Pool(s, s.jobs[t].def.runtime)| > 0
    ensures Reaches(s, acts, s2)
    ensures |s2.jobs| == |s.jobs| && s2.jobs == s.jobs[t := s2.jobs[t]] && s2.jobs[t].stage == Finished
    decreases Left(s.jobs[t].stage)
  {
    if s.jobs[t].stage.Finished? {
      acts, s2 := [], s;
      StayReaches(s);
    } else {
      var a: Action;
      if s.jobs[t].stage.Start? {
        var c := PoolHas(s, s.jobs[t].def.runtime);
        a := Take(t, c);
        TakeNext(s, t, c);
      } else {
        JobAt(s, t);
        a := Next(s, t);
        NextStep(s, t);
      }
      hide Sound, Step, Settles, Left;
      StepReaches(s, a);
      var s1 := Step(s, a);
      assert Sound(s1);
      assert !s1.jobs[t].stage.Start? by { NotStart(s.jobs[t].stage, s1.jobs[t].stage); }
      var rest;
      rest, s2 := EndJob(s1, t);
      acts := [a] + rest;
      ReachesOn(s, [a], s1, rest, s2);
    }
  }

  lemma NotStart(p: Stage, p2: Stage)
    requires Left(p2) < Left(p)
    ensures !p2.Start?
  {
  }

  lemma PoolHas(s: State, r: nat) returns (c: nat)
    requires Shape(s) && |Pool(s, r)| > 0
    ensures c < |s.conts| && c in Pool(s, r)
  {
    c :| c in Pool(s, r);
    assert PoolAt(s, r, c);
  }

  /** First the calls that have a container. */
  lemma EndHeld(s: State, n: nat) returns (acts: seq<Action>, s2: State)
    requires Sound(s) && n <= |s.jobs|
    requires forall t: nat {:trigger s.jobs[t]} :: t < n ==> s.jobs[t].stage.Start? || s.jobs[t].stage.Finished?
    ensures Reaches(s, acts, s2) && |s2.jobs| == |s.jobs| && Quiet(s2)
    decreases |s.jobs| - n
  {
    hide Sound;
    if n == |s.jobs| {
      acts, s2 := [], s;
      StayReaches(s);
    } else if s.jobs[n].stage.Start? {
      acts, s2 := EndHeld(s, n + 1);
    } else {
      var first, s1 := EndJob(s, n);
      var second;
      second, s2 := EndHeld(s1, n + 1);
      acts := first + second;
      ReachesOn(s, first, s1, second, s2);
    }
  }

  /** When no call has a container, the pools are full. */
  lemma QuietPools(s: State, r: nat)
    requires Sound(s) && Quiet(s)
    ensures |Pool(s, r)| == Created(s, r)
  {
    assert Balanced(s, r);
    SumZero(|s.jobs|, OwesOf(s, r));
  }

  /** Then those that have none, one after the other. */
  lemma EndRest(s: State, n: nat) returns (acts: seq<Action>, s2: State)
    requires Sound(s) && Quiet(s) && n <= |s.jobs|
    requires forall t: nat {:trigger s.jobs[t]} :: t < n ==> s.jobs[t].stage.Finished?
    ensures Reaches(s, acts, s2) && (forall t: nat :: t < |s2.jobs| ==> s2.jobs[t].stage.Finished?)
    decreases |s.jobs| - n
  {
    if n == |s.jobs| {
      acts, s2 := [], s;
      StayReaches(s);
    } else {
      QuietPools(s, s.jobs[n].def.runtime);
      assert Created(s, s.jobs[n].def.runtime) == s.config.concurrency;
      hide Sound;
      var first, s1 := EndJob(s, n);
      var second;
      second, s2 := EndRest(s1, n + 1);
      acts := first + second;
      ReachesOn(s, first, s1, second, s2);
    }
  }

  /**
   From wherever a run has got to, every call of Run can end, by steps of these calls alone: each of them gets a
   container, and one that gets no weight gives its container back.  Then the pools are full, and the semaphore is free
   unless weight had been lost before.
   */
  lemma EveryCallEnds(config: Config, before: seq<Action>)
    requires forall a :: a in before ==> Clean(a)
    ensures exists acts :: var s, s2 := Run(Init(config), before), Run(Init(config), before + acts);
              && Settling(acts)
              && (forall t: nat :: t < |s2.jobs| ==> s2.jobs[t].stage.Finished?)
              && (forall r: nat :: |Pool(s2, r)| == Created(s2, r))
              && (s2.held == 0 <==> !SomeKept(s))
  {
    RunSound(config, before);
    hide Run, Sound, SomeKept;
    var s := Run(Init(config), before);
    var first, s1 := EndHeld(s, 0);
    var second, s2 := EndRest(s1, 0);
    ReachesOn(s, first, s1, second, s2);
    RunSplit(Init(config), before, first + second);
    forall r: nat ensures |Pool(s2, r)| == Created(s2, r) {
      QuietPools(s2, r);
    }
    QuietHeld(s2);
  }

  lemma QuietHeld(s: State)
    requires Sound(s) && Quiet(s)
    ensures s.held == 0 <==> !SomeKept(s)
  {
    hide Begun, Balanced;
    QuietSound(s);
  }
}
