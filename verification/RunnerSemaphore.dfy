/**
 The weighted semaphore of a worker, over the runs of RunnerPool: what it holds, what comes back, and where
 weight is lost or given back twice.
 */
module RunnerSemaphore {
  import opened Sums
  import opened RunnerPool

  /** The first connection's Acquire failed: its owner is about to drop it. */
  predicate Bare(s: State, k: Container, c: nat) {
    k.owner.Some? && k.owner.value < |s.jobs| && s.jobs[k.owner.value].stage == NoSem(c)
  }

  ghost predicate WeightOk(s: State, k: Container, c: nat) {
    && (k.conns == {} || Bare(s, k, c) ==> k.acquired == 0)
    && (k.conns != {} && k.lost == {} && !Bare(s, k, c) ==> k.acquired == WeightOf(s, k.def))
  }

  ghost function AcquiredOf(s: State): nat -> int {
    (c: nat) => if c < |s.conts| then s.conts[c].acquired else 0
  }

  /** Weight acquired by containers; those without connections have none. */
  ghost function AcquiredWeight(s: State): int { SumTo(|s.conts|, AcquiredOf(s)) }

  /** The weight held is what containers acquired, less d; container x may be out of order. */
  ghost predicate WeighedBut(s: State, x: int, d: int) {
    && (forall c: nat {:trigger s.conts[c]} :: c < |s.conts| && c != x ==> WeightOk(s, s.conts[c], c))
    && s.held == AcquiredWeight(s) - d && s.held <= s.config.concurrency
  }

  ghost predicate Weighed(s: State) { WeighedBut(s, -1, 0) }

  /** Acquire does not fail on a cached container that still accepts connections. */
  predicate Clean(a: Action) { a.AcquireFails? ==> a.skip }

  /** What is held changes by what the container acquired. */
  ghost predicate Weighs(s: State, s2: State, c: nat)
    requires c < |s.conts| && c < |s2.conts|
  {
    && s2.held - s.held == s2.conts[c].acquired - s.conts[c].acquired
    && (s2.held <= s.held || s2.held <= s.config.concurrency)
    && WeightOk(s2, s2.conts[c], c)
  }

  lemma ListedNotBare(s: State, c: nat)
    requires JobsOk(s) && c < |s.conts| && s.conts[c].listed
    ensures !Bare(s, s.conts[c], c)
  {
    var o := s.conts[c].owner;
    assert o.Some? && o.value < |s.jobs| ==> JobOk(s, s.jobs[o.value], o.value);
    hide JobsOk;
  }

  lemma ReleasedNotBare(s: State, t: nat, c: nat)
    requires JobsOk(s) && At(s, t) && (s.jobs[t].stage.Ended? || s.jobs[t].stage.Refused?) && c == s.jobs[t].stage.c
    ensures !Bare(s, s.conts[c], c)
  {
    assert JobOk(s, s.jobs[t], t);
    var o := s.conts[c].owner;
    assert o.Some? && o.value < |s.jobs| ==> JobOk(s, s.jobs[o.value], o.value);
    hide JobsOk;
  }

  lemma JoinWeighs(s: State, t: nat, c: nat)
    requires t < |s.jobs| && c < |s.conts| && t !in s.conts[c].conns && s.jobs[t].def == s.conts[c].def
    requires CanJoin(s, c, s.jobs[t].def) && WeightOk(s, s.conts[c], c) && !Bare(s, s.conts[c], c)
    requires s.conts[c].lost <= s.conts[c].conns
    ensures var s2 := Join(s, t, c);
            && s2.held - s.held == s2.conts[c].acquired - s.conts[c].acquired
            && (s2.held <= s.held || s2.held <= s.config.concurrency)
            && (s.conts[c].lost == {} ==> s2.conts[c].acquired == WeightOf(s, s.conts[c].def))
  {
    hide Weight;
  }

  lemma WeighCache(s: State, a: Action, c: nat)
    requires Enabled(s, a) && InCache(a) && Clean(a) && c == a.cont
    requires ContOk(s, s.conts[c], c) && WeightOk(s, s.conts[c], c) && JobsOk(s)
    ensures c < |CacheOf(s, a).conts| && Weighs(s, CacheOf(s, a), c)
  {
    assert Offers(s, a.t, c);
    ListedNotBare(s, c);
    if !a.AcquireFails? {
      JoinWeighs(s, a.t, c);
    }
    JoinShape(s, a.t, c);
    hide Enabled, Join, JobsOk, ContOk, Offers, WeightOf;
    assert !Bare(CacheOf(s, a), CacheOf(s, a).conts[c], c);
  }

  lemma WeighReserve(s: State, t: nat, c: nat)
    requires Enabled(s, ReserveNew(t)) && c == s.jobs[t].stage.c
    requires JobOk(s, s.jobs[t], t) && ContOk(s, s.conts[c], c) && WeightOk(s, s.conts[c], c)
    ensures c < |DoReserveNew(s, t).conts| && Weighs(s, DoReserveNew(s, t), c)
  {
    hide Weight;
  }

  lemma WeighRelease(s: State, t: nat, c: nat)
    requires At(s, t) && (s.jobs[t].stage.Ended? || s.jobs[t].stage.Refused?) && c == s.jobs[t].stage.c
    requires ContOk(s, s.conts[c], c) && WeightOk(s, s.conts[c], c) && JobsOk(s)
    ensures c < |DoRelease(s, t).conts| && Weighs(s, DoRelease(s, t), c)
  {
    hide Weight;
    assert JobOk(s, s.jobs[t], t);
    ReleasedNotBare(s, t, c);
    hide JobsOk;
  }

  lemma WeighOther(s: State, a: Action, c: nat)
    requires Enabled(s, a) && OfJob(a) && !a.Recreate? && !a.ReserveNew? && !a.Release?
    requires c == Subject(s, a) && (a.Take? ==> s.conts[c].owner.None?)
    requires JobOk(s, s.jobs[a.t], a.t) && ContOk(s, s.conts[c], c) && WeightOk(s, s.conts[c], c)
    ensures c < |JobOf(s, a).conts| && Weighs(s, JobOf(s, a), c)
  {
    hide Weight;
  }

  lemma WeighStep(s: State, a: Action, c: nat)
    requires Shape(s) && Enabled(s, a) && Clean(a) && !Outside(a) && !Aside(a) && !a.Recreate?
    requires c == Subject(s, a) && c < |s.conts| && WeightOk(s, s.conts[c], c)
    ensures c < |Step(s, a).conts| && Weighs(s, Step(s, a), c)
  {
    var t := a.t;
    assert JobOk(s, s.jobs[t], t) && ContOk(s, s.conts[c], c);
    assert a.Take? ==> s.conts[c].owner.None? by { if a.Take? { assert PoolAt(s, s.jobs[t].def.runtime, c); } }
    hide JobOk, ContOk, WeightOk, Weighs, CacheOf, DoReserveNew, DoRelease;
    if InCache(a) {
      WeighCache(s, a, c);
    } else if a.ReserveNew? {
      WeighReserve(s, t, c);
    } else if a.Release? {
      WeighRelease(s, t, c);
    } else {
      WeighOther(s, a, c);
    }
  }

  lemma WeighFrame(s: State, s2: State, t: nat, c: nat, x: int, d: int)
    requires WeighedBut(s, x, d) && GoodStep(s, s2, t, c) && Weighs(s, s2, c)
    ensures WeighedBut(s2, x, d)
  {
    hide JobOk, SideOk, PoolsFollow, SlotFollows, Touches;
    forall i: nat | i < |s2.conts| && i != x ensures WeightOk(s2, s2.conts[i], i) {
      if i != c { assert WeightOk(s, s.conts[i], i); }
    }
    SumChange(|s.conts|, AcquiredOf(s), AcquiredOf(s2), c);
  }

  /** Steps that are not about container x. */
  lemma WeighedStep(s: State, a: Action, x: int, d: int)
    requires Shape(s) && WeighedBut(s, x, d) && Clean(a)
    requires Enabled(s, a) && !Outside(a) && !Aside(a) && !a.Recreate? ==> Subject(s, a) != x
    ensures WeighedBut(Step(s, a), x, d)
  {
    if Enabled(s, a) {
      if Outside(a) || a.Recreate? {
        WeighedOutside(s, a, x, d);
      } else if Aside(a) {
        AsideFlags(s, a);
        WeighedFlags(s, Step(s, a), x, d);
      } else {
        LocalStep(s, a);
        SubjectInRange(s, a);
        assert WeightOk(s, s.conts[Subject(s, a)], Subject(s, a));
        WeighStep(s, a, Subject(s, a));
        hide WeighedBut, GoodStep, Weighs, Step, Shape;
        WeighFrame(s, Step(s, a), a.t, Subject(s, a), x, d);
      }
    }
  }

  lemma SubjectInRange(s: State, a: Action)
    requires Enabled(s, a) && !Outside(a) && !Aside(a) && !a.Recreate?
    ensures Subject(s, a) < |s.conts|
  {
  }

  lemma WeighedOutside(s: State, a: Action, x: int, d: int)
    requires WeighedBut(s, x, d) && Enabled(s, a) && (Outside(a) || a.Recreate?)
    ensures WeighedBut(Step(s, a), x, d)
  {
    var s2 := Step(s, a);
    hide Pool, Created;
    forall i: nat | i < |s2.conts| && i != x ensures WeightOk(s2, s2.conts[i], i) {
      if i < |s.conts| { assert WeightOk(s, s.conts[i], i); }
    }
    SumSame(|s.conts|, AcquiredOf(s), AcquiredOf(s2));
  }

  lemma WeighedFlags(s: State, s2: State, x: int, d: int)
    requires WeighedBut(s, x, d) && SameButFlags(s, s2)
    ensures WeighedBut(s2, x, d)
  {
    forall i: nat | i < |s2.conts| && i != x ensures WeightOk(s2, s2.conts[i], i) {
      assert WeightOk(s, s.conts[i], i);
    }
    SumSame(|s.conts|, AcquiredOf(s), AcquiredOf(s2));
  }

  lemma InitWeighed(config: Config)
    ensures Weighed(Init(config))
  {
  }

  lemma {:induction false} RunWeighed(config: Config, acts: seq<Action>)
    requires forall a :: a in acts ==> Clean(a)
    ensures Weighed(Run(Init(config), acts))
  {
    hide Step, Shape, WeighedBut;
    if acts == [] {
      InitWeighed(config);
    } else {
      var s := Run(Init(config), acts[..|acts| - 1]);
      RunWeighed(config, acts[..|acts| - 1]);
      RunShape(config, acts[..|acts| - 1]);
      WeighedStep(s, acts[|acts| - 1], -1, 0);
    }
  }

  /** Reached by a run in which Acquire never fails on a cached container that still accepts connections. */
  ghost predicate CleanlyReachable(s: State) {
    exists acts :: (forall a :: a in acts ==> Clean(a)) && s == Run(Init(s.config), acts)
  }

  lemma CleanlyReachableInv(s: State)
    requires CleanlyReachable(s)
    ensures Weighed(s) && Shape(s)
  {
    var acts :| (forall a :: a in acts ==> Clean(a)) && s == Run(Init(s.config), acts);
    RunWeighed(s.config, acts);
    RunShape(s.config, acts);
  }

  /**
   The semaphore holds what the containers with connections acquired, and a container whose connections will
   all be released has acquired the weight of its definition.
   */
  lemma SemaphoreLaw(s: State)
    requires CleanlyReachable(s)
    ensures s.held == AcquiredWeight(s) && 0 <= s.held <= s.config.concurrency
    ensures forall c: nat :: c < |s.conts| && s.conts[c].acquired > 0 ==> s.conts[c].conns != {}
    ensures forall c: nat :: c < |s.conts| && s.conts[c].listed && s.conts[c].conns != {} && s.conts[c].lost == {} ==>
              s.conts[c].acquired == WeightOf(s, s.conts[c].def)
  {
    hide Run, Step, Weight;
    CleanlyReachableInv(s);
    SumNonNegative(|s.conts|, AcquiredOf(s));
    forall c: nat | c < |s.conts|
      ensures s.conts[c].acquired > 0 ==> s.conts[c].conns != {}
      ensures s.conts[c].listed && s.conts[c].conns != {} && s.conts[c].lost == {} ==>
                s.conts[c].acquired == WeightOf(s, s.conts[c].def)
    {
      assert WeightOk(s, s.conts[c], c);
      if Bare(s, s.conts[c], c) {
        assert JobOk(s, s.jobs[s.conts[c].owner.value], s.conts[c].owner.value);
      }
    }
  }

  lemma FloorBelow(a: nat, b: nat)
    requires b > 0
    ensures TruncDiv(a, b) * b <= a
  {
  }

  /** Both divisions round down, so full concurrency stays within the budget. */
  lemma QuotaBound(o: Config)
    ensures 0 <= CPUQuota(o) && o.concurrency * CPUQuota(o) <= (o.mcpu - o.reserved) * 100
  {
    LimitPositive(o);
    var l, q := CPULimit(o), CPUQuota(o);
    FloorBelow(Budget(o), o.concurrency);
    FloorBelow(l * CPUPeriod, 1000000000);
    assert q * 10000 <= l;
    Scale(o.concurrency, q * 10000, l);
    assert o.concurrency * (q * 10000) == o.concurrency * q * 10000;
  }

  /** The limit is the largest share that all containers can have, and the quota the largest within the limit. */
  lemma QuotaExactly(o: Config)
    ensures var l, q := CPULimit(o), CPUQuota(o);
            && l * o.concurrency <= Budget(o) < (l + 1) * o.concurrency
            && q * 10000 <= l < (q + 1) * 10000
  {
    LimitPositive(o);
    var l, q, c := CPULimit(o), CPUQuota(o), o.concurrency;
    assert Budget(o) == l * c + Budget(o) % c && (l + 1) * c == l * c + c;
    assert l * CPUPeriod == q * 1000000000 + l * CPUPeriod % 1000000000;
  }

  lemma Scale(c: nat, a: int, b: int)
    requires a <= b
    ensures c * a <= c * b
  {
  }

  /** The CPU quotas of all containers in use, in microseconds per period, never exceed what the worker offers. */
  lemma QuotaWithinBudget(s: State)
    requires CleanlyReachable(s)
    ensures AcquiredWeight(s) * CPUQuota(s.config) <= (s.config.mcpu - s.config.reserved) * 100
  {
    SemaphoreLaw(s);
    QuotaBound(s.config);
    hide CleanlyReachable, CPUQuota;
    Scale(CPUQuota(s.config), s.held, s.config.concurrency);
  }

  /** A definition gets the least weight whose share of the limit covers its MCPU. */
  lemma WeightCovers(o: Config, mcpu: nat)
    requires mcpu > 0
    ensures mcpu * 1000000 <= Weight(o, mcpu) * CPULimit(o)
    ensures (Weight(o, mcpu) - 1) * CPULimit(o) < mcpu * 1000000
  {
    LimitPositive(o);
    var l, n := CPULimit(o), mcpu * 1000000;
    var w := (n + l - 1) / l;
    assert n + l - 1 == w * l + (n + l - 1) % l;
    assert (w - 1) * l == w * l - l;
  }

  /** One that names no MCPU gets one share, or none if a share is less than one milli-CPU. */
  lemma DefaultWeight(o: Config)
    ensures Weight(o, 0) == if CPULimit(o) >= 1000000 then 1 else 0
  {
    LimitPositive(o);
    var l := CPULimit(o);
    hide CPULimit;
    var n := l / 1000000 * 1000000;
    assert l == n + l % 1000000;
    RoundedUp(n, l);
    if l < 1000000 { assert l / 1000000 == 0; }
  }

  lemma RoundedUp(n: nat, l: nat)
    requires 0 < l && n <= l
    ensures (n + l - 1) / l == if n == 0 then 0 else 1
  {
    TruncDivExactly(n + l - 1, l, if n == 0 then 0 else 1);
  }

  // ---- What comes back ----

  /** No call of Run is under way. */
  predicate Quiet(s: State) {
    forall t: nat :: t < |s.jobs| ==> s.jobs[t].stage.Start? || s.jobs[t].stage.Finished?
  }

  ghost function LostOf(s: State): nat -> int {
    (c: nat) => if c < |s.conts| && s.conts[c].lost != {} then s.conts[c].acquired else 0
  }

  /** Weight acquired by containers with a connection that nobody is going to release. */
  ghost function LostWeight(s: State): int { SumTo(|s.conts|, LostOf(s)) }

  ghost predicate HasLost(s: State, c: nat) { c < |s.conts| && s.conts[c].lost != {} }

  ghost predicate KeepsWeight(s: State, c: nat) { HasLost(s, c) && s.conts[c].acquired > 0 }

  lemma QuietEmpty(s: State, c: nat)
    requires Quiet(s) && c < |s.conts| && ContOk(s, s.conts[c], c)
    ensures s.conts[c].conns == s.conts[c].lost
  {
    forall t | t in s.conts[c].conns ensures t in s.conts[c].lost {
    }
  }

  /** When no job holds a container, what is still held is what lost connections keep. */
  lemma QuietWeight(s: State)
    requires CleanlyReachable(s) && Quiet(s)
    ensures s.held == LostWeight(s)
    ensures s.held == 0 <==> !SomeKept(s)
  {
    CleanlyReachableInv(s);
    hide CleanlyReachable, Run, Step;
    QuietSound(s);
  }

  lemma QuietSound(s: State)
    requires Weighed(s) && Shape(s) && Quiet(s)
    ensures s.held == LostWeight(s)
    ensures s.held == 0 <==> !SomeKept(s)
  {
    forall c: nat | c < |s.conts| ensures AcquiredOf(s)(c) == LostOf(s)(c) {
      assert ContOk(s, s.conts[c], c) && WeightOk(s, s.conts[c], c);
      QuietEmpty(s, c);
    }
    SumSame(|s.conts|, AcquiredOf(s), LostOf(s));
    hide Shape, Quiet, WeightOk;
    if s.held == 0 {
      forall c: nat ensures !KeepsWeight(s, c) {
        if c < |s.conts| { SumAtLeast(|s.conts|, LostOf(s), c); }
      }
    } else {
      SumNonNegative(|s.conts|, LostOf(s));
      var c := SumWitness(|s.conts|, LostOf(s));
      assert KeepsWeight(s, c);
    }
  }

  /** The steps after which nobody is going to release a connection. */
  predicate Loses(s: State, a: Action) {
    Enabled(s, a) && (a.ReturnMissing? || (a.UpdateFails? && a.skip) || (a.AcquireFails? && a.skip))
  }

  /** Those that leave acquired weight with it. */
  predicate LosesWeight(s: State, a: Action) {
    && Loses(s, a)
    && match a
       case ReturnMissing(t) => s.conts[s.jobs[t].stage.c].acquired > 0
       case UpdateFails(_, c, _) => WeightOf(s, s.conts[c].def) > 0
       case _ => false
  }

  predicate LosesAt(s: State, a: Action, c: nat) { Loses(s, a) && c == Subject(s, a) }

  predicate LosesWeightAt(s: State, a: Action, c: nat) { LosesWeight(s, a) && c == Subject(s, a) }

  lemma CacheLoses(s: State, a: Action)
    requires Enabled(s, a) && InCache(a)
    ensures a.t < |s.jobs| && a.cont < |s.conts| && a.t !in s.conts[a.cont].conns
    ensures Loses(s, a) <==> (a.UpdateFails? || a.AcquireFails?) && a.skip
  {
    hide CanJoin, ConnLimit;
  }

  lemma CacheLost(s: State, a: Action)
    requires Enabled(s, a) && InCache(a)
    ensures var s2 := CacheOf(s, a);
            a.cont < |s2.conts| && s2.conts[a.cont].lost == s.conts[a.cont].lost + if Loses(s, a) then {a.t} else {}
  {
    hide Join, Offers, WeightOf, Enabled, Loses;
    CacheLoses(s, a);
    JoinShape(s, a.t, a.cont);
  }

  lemma ReserveLost(s: State, t: nat)
    requires At(s, t)
    ensures var s2, c := DoReserveNew(s, t), s.jobs[t].stage.c; c < |s2.conts| && s2.conts[c].lost == s.conts[c].lost
  {
    hide WeightOf, ConnLimit;
  }

  lemma ReleaseLost(s: State, t: nat)
    requires At(s, t) && (s.jobs[t].stage.Ended? || s.jobs[t].stage.Refused?)
    ensures var s2, c := DoRelease(s, t), s.jobs[t].stage.c; c < |s2.conts| && s2.conts[c].lost == s.conts[c].lost
  {
    hide WeightOf;
  }

  lemma OtherLost(s: State, a: Action, c: nat)
    requires Enabled(s, a) && OfJob(a) && !a.Recreate? && !a.ReserveNew? && !a.Release? && c == Subject(s, a)
    ensures var s2 := JobOf(s, a);
            c < |s.conts| && c < |s2.conts| && s2.conts[c].lost == s.conts[c].lost + if Loses(s, a) then {a.t} else {}
  {
  }

  lemma LostChange(s: State, a: Action, c: nat)
    requires Enabled(s, a) && !Outside(a) && !Aside(a) && !a.Recreate? && c == Subject(s, a) && c < |s.conts|
    ensures c < |Step(s, a).conts|
    ensures Step(s, a).conts[c].lost == s.conts[c].lost + if Loses(s, a) then {a.t} else {}
  {
    hide CacheOf, DoReserveNew, DoRelease;
    if InCache(a) {
      CacheLost(s, a);
    } else if a.ReserveNew? {
      ReserveLost(s, a.t);
    } else if a.Release? {
      ReleaseLost(s, a.t);
    } else {
      OtherLost(s, a, c);
    }
  }

  lemma LosesAcquired(s: State, a: Action, c: nat)
    requires Loses(s, a) && c == Subject(s, a) && c < |s.conts| && WeightOk(s, s.conts[c], c)
    ensures c < |Step(s, a).conts| && (Step(s, a).conts[c].acquired > 0 <==> LosesWeight(s, a))
    ensures a.ReturnMissing? ==> Step(s, a).conts[c].acquired == s.conts[c].acquired
    ensures a.UpdateFails? ==> Step(s, a).conts[c].acquired == WeightOf(s, s.conts[c].def)
  {
    hide Weight, ConnLimit;
  }

  /** Acquiring and giving back are for a job that is alone in the container. */
  lemma AcquiredStays(s: State, a: Action)
    requires Enabled(s, a) && !Outside(a) && !Aside(a) && !a.Recreate? && Subject(s, a) < |s.conts|
    requires s.conts[Subject(s, a)].conns - {a.t} != {}
    ensures Subject(s, a) < |Step(s, a).conts|
    ensures Step(s, a).conts[Subject(s, a)].acquired == s.conts[Subject(s, a)].acquired
  {
    hide Weight, WeightOf, ConnLimit;
  }

  lemma AsideStays(s: State, a: Action, c: nat)
    requires Enabled(s, a) && c < |s.conts| && (Outside(a) || Aside(a) || a.Recreate?)
    ensures var s2 := Step(s, a);
            c < |s2.conts| && s2.conts[c] == s.conts[c].(halted := s2.conts[c].halted, stopped := s2.conts[c].stopped)
  {
    hide Pool, Created;
  }

  /** Containers a step is not about keep all but their flags. */
  lemma OthersStay(s: State, a: Action, c: nat)
    requires Shape(s) && Enabled(s, a) && c < |s.conts|
    requires !Outside(a) && !Aside(a) && !a.Recreate? ==> c != Subject(s, a)
    ensures var s2 := Step(s, a);
            c < |s2.conts| && s2.conts[c] == s.conts[c].(halted := s2.conts[c].halted, stopped := s2.conts[c].stopped)
  {
    if Outside(a) || Aside(a) || a.Recreate? {
      hide Step;
      AsideStays(s, a, c);
    } else {
      LocalStep(s, a);
      hide Step, Shape, Enabled;
    }
  }

  lemma LostStep(s: State, a: Action, c: nat, u: nat)
    requires Shape(s) && c < |s.conts| && u in s.conts[c].lost
    ensures var s2 := Step(s, a);
            c < |s2.conts| && u in s2.conts[c].lost && s2.conts[c].acquired == s.conts[c].acquired
  {
    if Enabled(s, a) {
      if !Outside(a) && !Aside(a) && !a.Recreate? && c == Subject(s, a) {
        assert ContOk(s, s.conts[c], c) && JobOk(s, s.jobs[a.t], a.t);
        assert a.Take? ==> PoolAt(s, s.jobs[a.t].def.runtime, a.cont);
        LostChange(s, a, c);
        assert u != a.t && u in s.conts[c].conns - {a.t};
        AcquiredStays(s, a);
      } else {
        OthersStay(s, a, c);
      }
    }
  }

  lemma HasLostStep(s: State, a: Action, c: nat)
    requires Shape(s)
    ensures HasLost(Step(s, a), c) <==> HasLost(s, c) || LosesAt(s, a, c)
  {
    if Enabled(s, a) {
      if !Outside(a) && !Aside(a) && !a.Recreate? && c == Subject(s, a) {
        SubjectInRange(s, a);
        LostChange(s, a, c);
      } else if c < |s.conts| {
        OthersStay(s, a, c);
      } else {
        NewHasNone(s, a, c);
      }
    }
  }

  lemma NewByOthers(s: State, a: Action, c: nat)
    requires Enabled(s, a) && |s.conts| <= c && (Outside(a) || Aside(a) || a.Recreate?)
    ensures !HasLost(Step(s, a), c)
  {
    hide Pool, Created, Shape, WeightOf, ConnLimit;
  }

  lemma NewHasNone(s: State, a: Action, c: nat)
    requires Shape(s) && Enabled(s, a) && |s.conts| <= c
    ensures !HasLost(Step(s, a), c)
  {
    if Outside(a) || Aside(a) || a.Recreate? {
      hide Shape;
      NewByOthers(s, a, c);
    } else {
      LocalStep(s, a);
      hide Step, Shape, Enabled;
    }
  }

  lemma LosesAtAcquired(s: State, a: Action, c: nat)
    requires Weighed(s) && LosesAt(s, a, c)
    ensures c < |Step(s, a).conts| && (Step(s, a).conts[c].acquired > 0 <==> LosesWeightAt(s, a, c))
  {
    SubjectInRange(s, a);
    assert WeightOk(s, s.conts[c], c);
    LosesAcquired(s, a, c);
    hide Step, Enabled;
  }

  lemma KeepsWeightStep(s: State, a: Action, c: nat)
    requires Shape(s) && Weighed(s)
    ensures KeepsWeight(Step(s, a), c) <==> KeepsWeight(s, c) || LosesWeightAt(s, a, c)
  {
    assert LosesWeightAt(s, a, c) ==> LosesAt(s, a, c);
    hide Step, Shape, WeighedBut, Enabled, LosesAt, LosesWeightAt;
    HasLostStep(s, a, c);
    if HasLost(s, c) {
      var u :| u in s.conts[c].lost;
      LostStep(s, a, c, u);
    }
    if LosesAt(s, a, c) {
      LosesAtAcquired(s, a, c);
    }
  }

  /** Some container has a connection that nobody is going to release; some such container keeps weight. */
  ghost predicate SomeLost(s: State) { exists c: nat :: HasLost(s, c) }

  ghost predicate SomeKept(s: State) { exists c: nat :: KeepsWeight(s, c) }

  ghost predicate LostBy(config: Config, acts: seq<Action>, n: nat) {
    n < |acts| && Loses(Run(Init(config), acts[..n]), acts[n])
  }

  ghost predicate WeightLostBy(config: Config, acts: seq<Action>, n: nat) {
    n < |acts| && LosesWeight(Run(Init(config), acts[..n]), acts[n])
  }

  lemma SomeLostStep(s: State, a: Action)
    requires Shape(s)
    ensures SomeLost(Step(s, a)) <==> SomeLost(s) || Loses(s, a)
  {
    forall c: nat ensures HasLost(Step(s, a), c) <==> HasLost(s, c) || LosesAt(s, a, c) {
      HasLostStep(s, a, c);
    }
    LosesSomewhere(s, a);
    hide Step, Shape, Loses, LosesAt, LosesWeight, HasLost;
    if Loses(s, a) {
      var c: nat :| LosesAt(s, a, c);
      assert HasLost(Step(s, a), c);
    }
    if SomeLost(s) {
      var c: nat :| HasLost(s, c);
      assert HasLost(Step(s, a), c);
    }
  }

  lemma SomeKeptStep(s: State, a: Action)
    requires Shape(s) && Weighed(s)
    ensures SomeKept(Step(s, a)) <==> SomeKept(s) || LosesWeight(s, a)
  {
    forall c: nat ensures KeepsWeight(Step(s, a), c) <==> KeepsWeight(s, c) || LosesWeightAt(s, a, c) {
      KeepsWeightStep(s, a, c);
    }
    LosesSomewhere(s, a);
    hide Step, Shape, WeighedBut, Loses, LosesWeight, LosesWeightAt, KeepsWeight;
    if LosesWeight(s, a) {
      var c: nat :| LosesWeightAt(s, a, c);
      assert KeepsWeight(Step(s, a), c);
    }
    if SomeKept(s) {
      var c: nat :| KeepsWeight(s, c);
      assert KeepsWeight(Step(s, a), c);
    }
  }

  lemma LostByLast(config: Config, acts: seq<Action>)
    requires acts != []
    ensures var m := |acts| - 1; var s := Run(Init(config), acts[..m]);
            && ((exists n: nat :: LostBy(config, acts, n)) <==>
                  (exists n: nat :: LostBy(config, acts[..m], n)) || Loses(s, acts[m]))
            && ((exists n: nat :: WeightLostBy(config, acts, n)) <==>
                  (exists n: nat :: WeightLostBy(config, acts[..m], n)) || LosesWeight(s, acts[m]))
  {
    hide Loses, LosesWeight;
    var m := |acts| - 1;
    forall n: nat
      ensures LostBy(config, acts, n) <==>
                LostBy(config, acts[..m], n) || (n == m && Loses(Run(Init(config), acts[..m]), acts[m]))
      ensures WeightLostBy(config, acts, n) <==>
                WeightLostBy(config, acts[..m], n) || (n == m && LosesWeight(Run(Init(config), acts[..m]), acts[m]))
    {
      assert n < m ==> acts[..m][..n] == acts[..n];
    }
    hide Run;
    if Loses(Run(Init(config), acts[..m]), acts[m]) { assert LostBy(config, acts, m); }
    if LosesWeight(Run(Init(config), acts[..m]), acts[m]) { assert WeightLostBy(config, acts, m); }
    hide LostBy, WeightLostBy;
    if n: nat :| LostBy(config, acts[..m], n) { assert LostBy(config, acts, n); }
    if n: nat :| WeightLostBy(config, acts[..m], n) { assert WeightLostBy(config, acts, n); }
  }

  /** A container has a lost connection exactly when the run took one of the steps that lose one. */
  lemma {:induction false} LostExactly(config: Config, acts: seq<Action>)
    ensures SomeLost(Run(Init(config), acts)) <==> exists n: nat :: LostBy(config, acts, n)
  {
    hide Step, Shape, Loses;
    if acts == [] {
      NothingLostYet(config);
    } else {
      var before := acts[..|acts| - 1];
      LostByLast(config, acts);
      hide LostBy, SomeLost;
      LostExactly(config, before);
      RunShape(config, before);
      SomeLostStep(Run(Init(config), before), acts[|acts| - 1]);
    }
  }

  /** And it keeps weight exactly when that step left some with it. */
  lemma {:induction false} WeightLostExactly(config: Config, acts: seq<Action>)
    requires forall a :: a in acts ==> Clean(a)
    ensures SomeKept(Run(Init(config), acts)) <==> exists n: nat :: WeightLostBy(config, acts, n)
  {
    hide Step, Shape, LosesWeight, WeighedBut;
    if acts == [] {
      NothingLostYet(config);
    } else {
      var before := acts[..|acts| - 1];
      LostByLast(config, acts);
      hide WeightLostBy, SomeKept;
      WeightLostExactly(config, before);
      RunShape(config, before);
      RunWeighed(config, before);
      SomeKeptStep(Run(Init(config), before), acts[|acts| - 1]);
    }
  }

  lemma LosesSomewhere(s: State, a: Action)
    ensures Loses(s, a) <==> exists c: nat :: LosesAt(s, a, c)
    ensures LosesWeight(s, a) <==> exists c: nat :: LosesWeightAt(s, a, c)
  {
    if Loses(s, a) { assert LosesAt(s, a, Subject(s, a)); }
    if LosesWeight(s, a) { assert LosesWeightAt(s, a, Subject(s, a)); }
  }

  lemma NothingLostYet(config: Config)
    ensures !SomeLost(Init(config)) && !SomeKept(Init(config))
  {
  }

  /**
   All weight comes back, if and only if no connection was lost together with weight: by putting back a container
   after a missing resource, or by giving up on a cached container after its update failed.
   */
  lemma {:induction false} WeightComesBack(config: Config, acts: seq<Action>)
    requires (forall a :: a in acts ==> Clean(a)) && Quiet(Run(Init(config), acts))
    ensures Run(Init(config), acts).held == 0 <==> forall n: nat :: !WeightLostBy(config, acts, n)
  {
    var s := Run(Init(config), acts);
    RunShape(config, acts);
    assert CleanlyReachable(s);
    hide Run, CleanlyReachable, Shape, Step;
    QuietWeight(s);
    WeightLostExactly(config, acts);
    hide WeightLostBy, SomeKept, LostWeight, Quiet;
  }

  lemma {:induction false} LostForever(config: Config, acts: seq<Action>, more: seq<Action>, c: nat, u: nat)
    requires var s := Run(Init(config), acts); c < |s.conts| && u in s.conts[c].lost
    ensures var s, s2 := Run(Init(config), acts), Run(Init(config), acts + more);
            c < |s2.conts| && u in s2.conts[c].lost && s2.conts[c].acquired == s.conts[c].acquired
    decreases |more|
  {
    hide Step, Shape;
    if more == [] {
      assert acts + more == acts;
    } else {
      var n := |more| - 1;
      assert (acts + more)[..|acts| + n] == acts + more[..n];
      LostForever(config, acts, more[..n], c, u);
      RunShape(config, acts + more[..n]);
      LostStep(Run(Init(config), acts + more[..n]), more[n], c, u);
    }
  }

  lemma LostNow(s: State, a: Action, c: nat)
    requires Weighed(s) && LosesAt(s, a, c)
    ensures var s1 := Step(s, a);
            && c < |s.conts| && c < |s1.conts| && a.t in s1.conts[c].lost
            && (a.ReturnMissing? ==> s1.conts[c].acquired == s.conts[c].acquired)
            && (a.UpdateFails? ==> s1.conts[c].acquired == WeightOf(s, s.conts[c].def))
  {
    SubjectInRange(s, a);
    assert WeightOk(s, s.conts[c], c);
    LostChange(s, a, c);
    LosesAcquired(s, a, c);
    hide Step, Enabled;
  }

  /** Weight lost once is held in every continuation, by either path. */
  lemma LostWeightStays(config: Config, acts: seq<Action>, a: Action, c: nat, more: seq<Action>)
    requires forall b :: b in acts + [a] + more ==> Clean(b)
    requires LosesAt(Run(Init(config), acts), a, c)
    ensures var s, s2 := Run(Init(config), acts), Run(Init(config), acts + [a] + more);
            && c < |s.conts| && c < |s2.conts| && a.t in s2.conts[c].lost && s2.held >= s2.conts[c].acquired
            && (a.ReturnMissing? ==> s2.conts[c].acquired == s.conts[c].acquired)
            && (a.UpdateFails? ==> s2.conts[c].acquired == WeightOf(s, s.conts[c].def))
  {
    var s := Run(Init(config), acts);
    var before := acts + [a];
    assert before[..|acts|] == acts && Run(Init(config), before) == Step(s, a);
    hide Run, Step, LosesAt, WeightOf, Clean, WeightOk;
    forall b | b in acts ensures Clean(b) { assert b in acts + [a] + more; }
    RunWeighed(config, acts);
    LostNow(s, a, c);
    LostForever(config, before, more, c, a.t);
    RunWeighed(config, before + more);
    HeldAtLeast(Run(Init(config), before + more), c);
  }

  lemma HeldAtLeast(s: State, c: nat)
    requires Weighed(s) && c < |s.conts|
    ensures s.held >= s.conts[c].acquired
  {
    hide WeightOk;
    SumAtLeast(|s.conts|, AcquiredOf(s), c);
  }

  /**
   The missing-resource path keeps both the connection and the weight of the container it puts back: the
   weight is held for good, and a later job without async that takes the container is refused.
   */
  lemma MissingResourceLeaks(config: Config, acts: seq<Action>, more: seq<Action>, t: nat)
    requires forall a :: a in acts + [ReturnMissing(t)] + more ==> Clean(a)
    requires Enabled(Run(Init(config), acts), ReturnMissing(t))
    ensures var s := Run(Init(config), acts);
            var c := s.jobs[t].stage.c;
            var s2 := Run(Init(config), acts + [ReturnMissing(t)] + more);
            && c < |s2.conts| && s2.held >= s.conts[c].acquired
            && (forall u: nat ::
                  Enabled(s2, ReserveNew(u)) && s2.jobs[u].stage == Took(c) && s2.jobs[u].def.async <= 1 ==>
                  Step(s2, ReserveNew(u)).jobs[u].stage.Refused?)
  {
    var s := Run(Init(config), acts);
    var c := s.jobs[t].stage.c;
    LostWeightStays(config, acts, ReturnMissing(t), c, more);
    var s2 := Run(Init(config), acts + [ReturnMissing(t)] + more);
    RunShape(config, acts + [ReturnMissing(t)] + more);
    hide Run, Step, Weight;
    forall u: nat | Enabled(s2, ReserveNew(u)) && s2.jobs[u].stage == Took(c) && s2.jobs[u].def.async <= 1
      ensures Step(s2, ReserveNew(u)).jobs[u].stage.Refused?
    {
      assert JobOk(s2, s2.jobs[u], u) && ContOk(s2, s2.conts[c], c);
      NonEmpty(s2.conts[c].conns, t);
      RefusedWhenFull(s2, u);
    }
  }

  lemma RefusedWhenFull(s: State, t: nat)
    requires Enabled(s, ReserveNew(t))
    requires |s.conts[s.jobs[t].stage.c].conns| >= ConnLimit(s.conts[s.jobs[t].stage.c].def)
    ensures Step(s, ReserveNew(t)).jobs[t].stage.Refused?
  {
  }

  lemma NonEmpty(conns: set<nat>, t: nat)
    requires t in conns
    ensures |conns| >= 1
  {
    assert {t} <= conns;
  }

  // ---- What is given back twice ----

  /** Container c has connections, the first of which acquired nothing. */
  ghost predicate Unpaid(s: State, c: nat, w: nat) {
    && WeighedBut(s, c, 0) && c < |s.conts| && s.conts[c].listed && s.conts[c].conns != {} && s.conts[c].acquired == 0
    && WeightOf(s, s.conts[c].def) == w
  }

  /** Or its last connection gave back the weight all the same. */
  ghost predicate InDebt(s: State, c: nat, w: nat) {
    c < |s.conts| && (Unpaid(s, c, w) || WeighedBut(s, -1, w))
  }

  lemma UnpaidRelease(s: State, a: Action, c: nat)
    requires Enabled(s, a) && a.Release? && c == Subject(s, a) && c < |s.conts|
    requires JobOk(s, s.jobs[a.t], a.t) && ContOk(s, s.conts[c], c)
    requires s.conts[c].listed && s.conts[c].conns != {} && s.conts[c].acquired == 0
    ensures var s2 := Step(s, a);
            && c < |s2.conts| && s2.conts[c].listed && s2.conts[c].acquired == 0 && s2.conts[c].def == s.conts[c].def
            && (if s2.conts[c].conns != {} then s2.held == s.held else s2.held == s.held - WeightOf(s, s.conts[c].def))
  {
    hide Weight, ConnLimit, WeightOf;
  }

  lemma UnpaidLocal(s: State, a: Action, c: nat)
    requires Enabled(s, a) && !Outside(a) && !Aside(a) && !a.Recreate? && c == Subject(s, a) && c < |s.conts|
    requires s.conts[c].listed && s.conts[c].conns != {} && s.conts[c].acquired == 0
    requires JobOk(s, s.jobs[a.t], a.t) && (a.Take? ==> s.conts[c].owner.None?) && ContOk(s, s.conts[c], c)
    ensures var s2 := Step(s, a);
            && c < |s2.conts| && s2.conts[c].listed && s2.conts[c].acquired == 0 && s2.conts[c].def == s.conts[c].def
            && (if s2.conts[c].conns != {} then s2.held == s.held else s2.held == s.held - WeightOf(s, s.conts[c].def))
  {
    if a.Release? {
      UnpaidRelease(s, a, c);
      hide Step, Enabled, Subject, JobOk, ContOk;
    }
    hide Weight, ConnLimit, WeightOf, DoRelease;
  }

  lemma UnpaidStep(s: State, a: Action, c: nat, w: nat)
    requires Shape(s) && Unpaid(s, c, w) && Clean(a) && Enabled(s, a)
    requires !Outside(a) && !Aside(a) && !a.Recreate? && c == Subject(s, a)
    ensures InDebt(Step(s, a), c, w)
  {
    var s2 := Step(s, a);
    assert JobOk(s, s.jobs[a.t], a.t) && ContOk(s, s.conts[c], c);
    assert a.Take? ==> PoolAt(s, s.jobs[a.t].def.runtime, a.cont);
    UnpaidLocal(s, a, c);
    LocalStep(s, a);
    hide Step, Shape, JobOk, ContOk, SideOk, PoolsFollow, SlotFollows, Touches, Enabled, Subject;
    UnpaidFrame(s, s2, a.t, c, w);
  }

  lemma UnpaidFrame(s: State, s2: State, t: nat, c: nat, w: nat)
    requires Unpaid(s, c, w) && GoodStep(s, s2, t, c)
    requires s2.conts[c].listed && s2.conts[c].acquired == 0 && s2.conts[c].def == s.conts[c].def
    requires if s2.conts[c].conns != {} then s2.held == s.held else s2.held == s.held - WeightOf(s, s.conts[c].def)
    ensures InDebt(s2, c, w)
  {
    hide JobOk, SideOk, PoolsFollow, SlotFollows, Touches, Weight;
    forall i: nat | i < |s2.conts| && i != c ensures WeightOk(s2, s2.conts[i], i) {
      assert WeightOk(s, s.conts[i], i);
    }
    SumSame(|s.conts|, AcquiredOf(s), AcquiredOf(s2));
  }

  lemma DebtStep(s: State, a: Action, c: nat, w: nat)
    requires Shape(s) && InDebt(s, c, w) && Clean(a)
    ensures InDebt(Step(s, a), c, w)
  {
    ContsGrow(s, a);
    DisabledStays(s, a);
    hide Step, Shape, WeighedBut, Enabled, Weight;
    if Unpaid(s, c, w) {
      if Enabled(s, a) {
        if !Outside(a) && !Aside(a) && !a.Recreate? && c == Subject(s, a) {
          UnpaidStep(s, a, c, w);
        } else {
          WeighedStep(s, a, c, 0);
          OthersStay(s, a, c);
        }
      }
    } else {
      WeighedStep(s, a, -1, w);
    }
  }

  lemma DisabledStays(s: State, a: Action)
    ensures !Enabled(s, a) ==> Step(s, a) == s
    ensures Step(s, a).config == s.config
  {
  }

  lemma ContsGrow(s: State, a: Action)
    requires Shape(s)
    ensures |s.conts| <= |Step(s, a).conts|
  {
    hide Pool, Created;
    if Enabled(s, a) && !Outside(a) && !Aside(a) && !a.Recreate? {
      LocalStep(s, a);
      hide Step, Shape;
    }
  }

  lemma {:induction false} DebtRun(s: State, acts: seq<Action>, c: nat, w: nat)
    requires Shape(s) && InDebt(s, c, w) && forall a :: a in acts ==> Clean(a)
    ensures Shape(Run(s, acts)) && InDebt(Run(s, acts), c, w)
  {
    hide Step, Shape, InDebt;
    if acts != [] {
      var before := acts[..|acts| - 1];
      DebtRun(s, before, c, w);
      ShapeStep(Run(s, before), acts[|acts| - 1]);
      DebtStep(Run(s, before), acts[|acts| - 1], c, w);
    }
  }

  lemma FailureUnpaid(s: State, t: nat, c: nat)
    requires Shape(s) && Weighed(s) && Enabled(s, AcquireFails(t, c, false))
    ensures Unpaid(Step(s, AcquireFails(t, c, false)), c, WeightOf(s, s.jobs[t].def))
  {
    var s2 := Step(s, AcquireFails(t, c, false));
    assert ContOk(s, s.conts[c], c) && WeightOk(s, s.conts[c], c);
    LocalStep(s, AcquireFails(t, c, false));
    assert s2 == Move(JoinBare(s, t, c), t, Ended(c, false));
    hide Step, Shape, Enabled, JobOk, SideOk, PoolsFollow, SlotFollows, Touches, Weight;
    forall i: nat | i < |s2.conts| && i != c ensures WeightOk(s2, s2.conts[i], i) {
      assert WeightOk(s, s.conts[i], i);
    }
    SumSame(|s.conts|, AcquiredOf(s), AcquiredOf(s2));
  }

  /**
   The excluded case.  When Acquire fails on a cached container that is idle and accepts connections, then, however
   the run goes on, as soon as the container has no connection the semaphore is short of its weight, and stays so.
   */
  lemma CachedFailureOverReleases(s: State, t: nat, c: nat, more: seq<Action>)
    requires CleanlyReachable(s) && Enabled(s, AcquireFails(t, c, false)) && forall a :: a in more ==> Clean(a)
    ensures var w := WeightOf(s, s.jobs[t].def);
            var s2 := Run(Step(s, AcquireFails(t, c, false)), more);
            && c < |s2.conts|
            && (s2.held == AcquiredWeight(s2) || s2.held == AcquiredWeight(s2) - w)
            && (s2.conts[c].conns == {} ==> s2.held == AcquiredWeight(s2) - w)
  {
    CleanlyReachableInv(s);
    var a := AcquireFails(t, c, false);
    FailureUnpaid(s, t, c);
    ShapeStep(s, a);
    hide Step, Shape, CleanlyReachable, Weight, WeightOf;
    DebtRun(Step(s, a), more, c, WeightOf(s, s.jobs[t].def));
  }

  /** The job's own release is enough for that. */
  lemma CachedFailureThenRelease(s: State, t: nat, c: nat)
    requires CleanlyReachable(s) && Enabled(s, AcquireFails(t, c, false)) && WeightOf(s, s.jobs[t].def) > 0
    ensures var s2 := Run(Step(s, AcquireFails(t, c, false)), [Release(t)]);
            s2.held == AcquiredWeight(s2) - WeightOf(s, s.jobs[t].def) && s2.held != AcquiredWeight(s2)
  {
    var s1 := Step(s, AcquireFails(t, c, false));
    assert s1.conts[c].conns == {t} && s1.jobs[t].stage == Ended(c, false);
    assert [Release(t)][..0] == [];
    assert Run(s1, [Release(t)]) == Step(s1, Release(t));
    ReleaseEmpties(s1, t, c);
    hide Step, Weight, WeightOf, Enabled;
    CachedFailureOverReleases(s, t, c, [Release(t)]);
  }

  lemma ReleaseEmpties(s: State, t: nat, c: nat)
    requires t < |s.jobs| && s.jobs[t].stage == Ended(c, false) && c < |s.conts| && s.conts[c].conns == {t}
    ensures var s2 := Step(s, Release(t)); c < |s2.conts| && s2.conts[c].conns == {}
  {
  }
}
