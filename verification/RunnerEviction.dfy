/**
 What becomes of a container that is evicted from the cache while calls still run on it: it is stopped once the last of
 them is over.
 */
module RunnerEviction {
  import opened Wrappers
  import opened RunnerPool
  import opened RunnerSemaphore
  import opened RunnerCompletion

  /** Job t is going to look at container c at the end of afterRun. */
  predicate WillLook(s: State, t: nat, c: nat) {
    t < |s.jobs| && (s.jobs[t].cleanup == Some(c) || s.jobs[t].stage == Owing(c))
  }

  ghost predicate SweptAt(s: State, c: nat)
    requires c < |s.conts|
  {
    var k := s.conts[c];
    && (k.halted && !k.listed ==> k.stopped)
    && (k.halted && k.listed && !k.stopped && k.conns == {} ==> exists t: nat :: WillLook(s, t, c))
  }

  ghost predicate JobSwept(s: State, u: Job) {
    && (!u.stage.Finished? ==> u.cleanup.None?)
    && (u.cleanup.Some? ==> u.cleanup.value < |s.conts|)
  }

  /** A halted container without connections was stopped, or somebody is going to. */
  ghost predicate Swept(s: State) {
    && (forall c: nat {:trigger s.conts[c]} :: c < |s.conts| ==> SweptAt(s, c))
    && (forall t: nat {:trigger s.jobs[t]} :: t < |s.jobs| ==> JobSwept(s, s.jobs[t]))
  }

  /** What a step of job t on container c does to the flags. */
  ghost predicate Sweeps(s: State, s2: State, t: nat, c: nat) {
    && t < |s.jobs| && t < |s2.jobs| && c < |s.conts| && c < |s2.conts|
    && !s.jobs[t].stage.Finished? && !s.jobs[t].stage.Owing?
    && s2.conts[c].halted == s.conts[c].halted && s2.conts[c].stopped == s.conts[c].stopped
    && (s.conts[c].listed ==> s2.conts[c].listed)
    && (s2.conts[c].listed && s2.conts[c].conns == {} ==> WillLook(s2, t, c))
    && (if s2.jobs[t].stage.Finished? then s2.jobs[t].cleanup == Some(c) else s2.jobs[t].cleanup == s.jobs[t].cleanup)
  }

  lemma CacheSweeps(s: State, a: Action)
    requires Enabled(s, a) && InCache(a)
    ensures Sweeps(s, CacheOf(s, a), a.t, a.cont)
  {
    assert Offers(s, a.t, a.cont);
    JoinShape(s, a.t, a.cont);
    var k := s.conts[a.cont];
    assert k.conns + {a.t} != {} by { assert a.t in k.conns + {a.t}; }
    hide Join, Enabled, ConnLimit, CanJoin, JobOf, AsideOf, OutsideOf;
  }

  lemma TakeSweeps(s: State, t: nat, c: nat)
    requires Enabled(s, Take(t, c)) && !s.conts[c].listed
    ensures Sweeps(s, DoTake(s, t, c), t, c)
  {
  }

  lemma ReserveSweeps(s: State, t: nat)
    requires Enabled(s, ReserveNew(t))
    ensures Sweeps(s, DoReserveNew(s, t), t, s.jobs[t].stage.c)
  {
    var c := s.jobs[t].stage.c;
    assert t in s.conts[c].conns + {t};
    hide WeightOf, CanJoin;
  }

  lemma ReleaseSweeps(s: State, t: nat)
    requires At(s, t) && (s.jobs[t].stage.Ended? || s.jobs[t].stage.Refused?)
    ensures Sweeps(s, DoRelease(s, t), t, s.jobs[t].stage.c)
  {
    hide WeightOf;
  }

  lemma PhaseSweeps(s: State, a: Action)
    requires Enabled(s, a) && OfJob(a) && !a.Take? && !a.ReserveNew? && !a.Release? && !a.Recreate?
    requires JobOk(s, s.jobs[a.t], a.t)
    ensures Sweeps(s, JobOf(s, a), a.t, s.jobs[a.t].stage.c)
  {
    hide DoTake, DoReserveNew, DoRelease, ConnLimit, CanJoin, CacheOf, AsideOf, OutsideOf;
  }

  lemma LocalSweeps(s: State, a: Action)
    requires Shape(s) && Enabled(s, a) && !Outside(a) && !Aside(a) && !a.Recreate?
    ensures Sweeps(s, Step(s, a), a.t, Subject(s, a))
  {
    var t := a.t;
    assert JobOk(s, s.jobs[t], t);
    if a.Take? { NotListed(s, t, a.cont); }
    hide Sweeps, Shape, JobOk, CacheOf, DoTake, DoReserveNew, DoRelease;
    if InCache(a) {
      CacheSweeps(s, a);
    } else if a.Take? {
      TakeSweeps(s, t, a.cont);
    } else if a.ReserveNew? {
      ReserveSweeps(s, t);
    } else if a.Release? {
      ReleaseSweeps(s, t);
    } else {
      PhaseSweeps(s, a);
    }
  }

  lemma NotListed(s: State, t: nat, c: nat)
    requires Shape(s) && Enabled(s, Take(t, c))
    ensures !s.conts[c].listed
  {
    assert PoolAt(s, s.jobs[t].def.runtime, c) && ContOk(s, s.conts[c], c);
  }

  lemma LocalSwept(s: State, s2: State, t: nat, c: nat)
    requires Swept(s) && About(s, s2, t, c) && Sweeps(s, s2, t, c)
    ensures Swept(s2)
  {
    hide Touches;
    assert JobSwept(s, s.jobs[t]);
    forall i: nat | i < |s2.conts| ensures SweptAt(s2, i) {
      assert SweptAt(s, i);
      if u: nat :| WillLook(s, u, i) {
        assert u != t ==> WillLook(s2, u, i);
      }
    }
    forall u: nat | u < |s2.jobs| ensures JobSwept(s2, s2.jobs[u]) {
      assert JobSwept(s, s.jobs[u]);
    }
  }

  lemma AsideSwept(s: State, a: Action)
    requires Swept(s) && Enabled(s, a) && Aside(a)
    ensures Swept(AsideOf(s, a))
  {
    var s2 := AsideOf(s, a);
    forall i: nat | i < |s2.conts| ensures SweptAt(s2, i) {
      assert SweptAt(s, i);
      if u: nat :| WillLook(s, u, i) {
        assert a.Evict? || u != a.t || s.jobs[u].cleanup == Some(i) ==> WillLook(s2, u, i) || a == AfterRun(u);
        if a == AfterRun(u) { assert JobSwept(s, s.jobs[u]); }
      }
    }
    forall u: nat | u < |s2.jobs| ensures JobSwept(s2, s2.jobs[u]) {
      assert JobSwept(s, s.jobs[u]);
    }
  }

  lemma OutsideSwept(s: State, a: Action)
    requires Swept(s) && Enabled(s, a) && Outside(a)
    ensures Swept(OutsideOf(s, a))
  {
    var s2 := OutsideOf(s, a);
    forall i: nat | i < |s2.conts| ensures SweptAt(s2, i) {
      if i < |s.conts| {
        assert SweptAt(s, i);
        if u: nat :| WillLook(s, u, i) { assert WillLook(s2, u, i); }
      }
    }
    forall u: nat | u < |s2.jobs| ensures JobSwept(s2, s2.jobs[u]) {
      if u < |s.jobs| { assert JobSwept(s, s.jobs[u]); }
    }
  }

  lemma RecreateSwept(s: State, t: nat, r: nat)
    requires Swept(s) && At(s, t) && s.jobs[t].stage.Owing?
    ensures Swept(Finish(PutFresh(s, r), t, s.jobs[t].stage.c))
  {
    var c := s.jobs[t].stage.c;
    var s2 := Finish(PutFresh(s, r), t, c);
    assert JobSwept(s, s.jobs[t]);
    forall i: nat | i < |s2.conts| ensures SweptAt(s2, i) {
      if i < |s.conts| {
        assert SweptAt(s, i) && s2.conts[i] == s.conts[i];
        if u: nat :| WillLook(s, u, i) { assert WillLook(s2, u, i); }
      }
    }
    forall u: nat | u < |s2.jobs| ensures JobSwept(s2, s2.jobs[u]) {
      assert JobSwept(s, s.jobs[u]);
    }
  }

  lemma SweptStep(s: State, a: Action)
    requires Shape(s) && Swept(s)
    ensures Swept(Step(s, a))
  {
    hide Shape, Swept, GoodStep, PutFresh, Finish;
    if Enabled(s, a) {
      if Outside(a) {
        OutsideSwept(s, a);
      } else if Aside(a) {
        AsideSwept(s, a);
      } else if a.Recreate? {
        RecreateSwept(s, a.t, s.conts[s.jobs[a.t].stage.c].def.runtime);
      } else {
        LocalStep(s, a);
        LocalSweeps(s, a);
        AboutOf(s, Step(s, a), a.t, Subject(s, a));
        hide About, Sweeps, Step;
        LocalSwept(s, Step(s, a), a.t, Subject(s, a));
      }
    }
  }

  lemma AboutOf(s: State, s2: State, t: nat, c: nat)
    requires GoodStep(s, s2, t, c)
    ensures About(s, s2, t, c)
  {
  }

  /** An evicted container stays that way. */
  ghost predicate Evicted(s: State, c: nat) { c < |s.conts| && s.conts[c].listed && s.conts[c].halted }

  lemma EvictedStep(s: State, a: Action, c: nat)
    requires Shape(s) && Evicted(s, c)
    ensures Evicted(Step(s, a), c)
  {
    hide Shape, GoodStep;
    if Enabled(s, a) && !Outside(a) && !Aside(a) && !a.Recreate? {
      LocalStep(s, a);
      LocalSweeps(s, a);
      AboutOf(s, Step(s, a), a.t, Subject(s, a));
      hide Step, Enabled;
    } else {
      hide JobOk;
    }
  }

  // ---- Whole runs ----

  lemma InitSwept(config: Config)
    ensures Swept(Init(config))
  {
  }

  lemma {:induction false} RunSwept(config: Config, acts: seq<Action>)
    ensures Swept(Run(Init(config), acts))
  {
    hide Step, Swept, Shape;
    if acts == [] {
      InitSwept(config);
    } else {
      RunSwept(config, acts[..|acts| - 1]);
      RunShape(config, acts[..|acts| - 1]);
      SweptStep(Run(Init(config), acts[..|acts| - 1]), acts[|acts| - 1]);
    }
  }

  lemma {:induction false} EvictedRun(s: State, acts: seq<Action>, c: nat)
    requires Shape(s) && Swept(s) && Evicted(s, c)
    ensures Shape(Run(s, acts)) && Swept(Run(s, acts)) && Evicted(Run(s, acts), c)
  {
    hide Step, Shape, Swept, Evicted;
    if acts != [] {
      var front := acts[..|acts| - 1];
      EvictedRun(s, front, c);
      ShapeStep(Run(s, front), acts[|acts| - 1]);
      SweptStep(Run(s, front), acts[|acts| - 1]);
      EvictedStep(Run(s, front), acts[|acts| - 1], c);
    }
  }

  /** All calls are over, afterRun included. */
  ghost predicate Over(s: State) {
    forall t: nat {:trigger s.jobs[t]} :: t < |s.jobs| ==> s.jobs[t].stage.Finished? && s.jobs[t].cleanup.None?
  }

  /**
   Whatever happens between: once all calls are over, a container that was evicted has been stopped, unless a connection
   of it was lost; and no call is on a container any more.
   */
  lemma EvictedIsStopped(config: Config, before: seq<Action>, acts: seq<Action>, c: nat)
    requires Enabled(Run(Init(config), before), Evict(c))
    requires Over(Run(Step(Run(Init(config), before), Evict(c)), acts))
    ensures var s := Run(Step(Run(Init(config), before), Evict(c)), acts);
            c < |s.conts| && s.conts[c].halted && s.conts[c].conns == s.conts[c].lost
            && (s.conts[c].lost == {} ==> s.conts[c].stopped)
  {
    var s := Run(Init(config), before);
    RunShape(config, before);
    RunSwept(config, before);
    ShapeStep(s, Evict(c));
    SweptStep(s, Evict(c));
    assert Evicted(Step(s, Evict(c)), c);
    hide Run, Step, Shape, Swept;
    EvictedRun(Step(s, Evict(c)), acts, c);
    OverAt(Run(Step(s, Evict(c)), acts), c);
  }

  lemma OverAt(s: State, c: nat)
    requires Shape(s) && Swept(s) && Evicted(s, c) && Over(s)
    ensures s.conts[c].conns == s.conts[c].lost && (s.conts[c].lost == {} ==> s.conts[c].stopped)
  {
    assert SweptAt(s, c) && ContOk(s, s.conts[c], c);
    forall t | t in s.conts[c].conns ensures t in s.conts[c].lost {
    }
  }

  /** A cached container accepts connections, and was not stopped. */
  ghost predicate Warm(s: State, c: nat) { c < |s.conts| && Accepting(s.conts[c]) && !s.conts[c].stopped }

  lemma WarmStep(s: State, a: Action, c: nat)
    requires Shape(s) && Warm(s, c) && a != Evict(c)
    ensures Warm(Step(s, a), c)
  {
    hide Shape, GoodStep;
    if Enabled(s, a) && !Outside(a) && !Aside(a) && !a.Recreate? {
      LocalStep(s, a);
      LocalSweeps(s, a);
      AboutOf(s, Step(s, a), a.t, Subject(s, a));
      hide Step, Enabled;
    } else {
      hide JobOk;
    }
  }

  /** However many calls use it and end meanwhile: a cached container is kept until it is evicted, and not longer. */
  lemma {:induction false} WarmUntilEvicted(s: State, acts: seq<Action>, c: nat)
    requires Shape(s) && Swept(s) && Warm(s, c)
    ensures Warm(Run(s, acts), c) <==> Evict(c) !in acts
  {
    hide Step, Shape, Swept, Warm, Evicted;
    if acts != [] {
      var front, last := acts[..|acts| - 1], acts[|acts| - 1];
      assert acts == front + [last];
      WarmUntilEvicted(s, front, c);
      KeepsShape(s, front);
      if Evict(c) in front {
        EvictedOnce(s, front, c);
        EvictedStep(Run(s, front), last, c);
        EvictedCold(Run(s, acts), c);
      } else if last == Evict(c) {
        EvictTo(Run(s, front), c);
        EvictedCold(Run(s, acts), c);
      } else {
        WarmStep(Run(s, front), last, c);
      }
    }
  }

  lemma EvictedCold(s: State, c: nat)
    requires Evicted(s, c)
    ensures !Warm(s, c)
  {
  }

  lemma EvictTo(s: State, c: nat)
    requires Warm(s, c)
    ensures Evicted(Step(s, Evict(c)), c)
  {
  }

  lemma {:induction false} KeepsShape(s: State, acts: seq<Action>)
    requires Shape(s)
    ensures Shape(Run(s, acts))
  {
    hide Step, Shape;
    if acts != [] {
      KeepsShape(s, acts[..|acts| - 1]);
      ShapeStep(Run(s, acts[..|acts| - 1]), acts[|acts| - 1]);
    }
  }

  lemma {:induction false} EvictedOnce(s: State, acts: seq<Action>, c: nat)
    requires Shape(s) && Swept(s) && Warm(s, c) && Evict(c) in acts
    ensures Evicted(Run(s, acts), c)
  {
    hide Step, Shape, Swept, Warm, Evicted;
    var front, last := acts[..|acts| - 1], acts[|acts| - 1];
    assert acts == front + [last];
    KeepsShape(s, front);
    if Evict(c) in front {
      EvictedOnce(s, front, c);
      EvictedStep(Run(s, front), last, c);
    } else {
      WarmUntilEvicted(s, front, c);
      EvictTo(Run(s, front), c);
    }
  }

  // ---- Reaching that ----

  lemma AfterRunTo(s: State, t: nat)
    requires Shape(s) && Swept(s) && t < |s.jobs| && s.jobs[t].cleanup.Some?
    ensures Enabled(s, AfterRun(t)) && Shape(Step(s, AfterRun(t))) && Swept(Step(s, AfterRun(t)))
    ensures Step(s, AfterRun(t)).jobs == s.jobs[t := s.jobs[t].(cleanup := None)]
  {
    assert JobSwept(s, s.jobs[t]);
    ShapeStep(s, AfterRun(t));
    SweptStep(s, AfterRun(t));
    hide Shape, Swept;
  }

  predicate Ends(a: Action) { Settles(a) || a.AfterRun? }

  /** The ends of afterRun, one after the other. */
  lemma Look(s: State, n: nat) returns (acts: seq<Action>)
    requires Shape(s) && Swept(s) && n <= |s.jobs|
    requires forall t: nat {:trigger s.jobs[t]} :: t < |s.jobs| ==> s.jobs[t].stage.Finished?
    requires forall t: nat {:trigger s.jobs[t]} :: t < n ==> s.jobs[t].cleanup.None?
    ensures (forall a :: a in acts ==> a.AfterRun?) && Over(Run(s, acts))
    decreases |s.jobs| - n
  {
    hide Shape, Swept, Step;
    if n == |s.jobs| {
      acts := [];
    } else if s.jobs[n].cleanup.None? {
      acts := Look(s, n + 1);
    } else {
      AfterRunTo(s, n);
      var rest := Look(Step(s, AfterRun(n)), n + 1);
      acts := [AfterRun(n)] + rest;
      RunSplit(s, [AfterRun(n)], rest);
      Single(s, AfterRun(n));
    }
  }

  /** From wherever a run has got to, all calls can be over. */
  lemma AllOver(config: Config, before: seq<Action>)
    requires forall a :: a in before ==> Clean(a)
    ensures exists acts :: (forall a :: a in acts ==> Ends(a)) && Over(Run(Init(config), before + acts))
  {
    hide Run, SomeKept, Step, Shape, Swept;
    EveryCallEnds(config, before);
    var first :| Settling(first)
      && forall t: nat :: t < |Run(Init(config), before + first).jobs| ==>
           Run(Init(config), before + first).jobs[t].stage.Finished?;
    RunShape(config, before + first);
    RunSwept(config, before + first);
    var second := Look(Run(Init(config), before + first), 0);
    RunSplit(Init(config), before + first, second);
    assert before + first + second == before + (first + second);
  }
}
