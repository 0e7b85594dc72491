/**
 Where the selection of containers meets 32-bit free CPU: when exactly a worker that is alive refuses a reservation
 that saw enough free CPU, and that the bound `Solvent` is exactly what rules it out.
 */
module LbOvercommit {
  import opened Sums
  import opened LbReservation
  import opened LbInterference
  import opened LbAccounting
  import opened Wrappers

  // ---- One reservation between its test and Worker.reserve ----

  /** A refund to the worker that wraps makes free CPU negative, so the first connection is refused. */
  lemma WrapRefuses(s: State, a: Action, t: nat, c: nat)
    requires Inv(s) && s.mu == Some(t) && t < |s.threads| && s.threads[t] == Measured(c, 1, true)
    requires Actor(a) != Some(t) && c < |s.conts| && Wraps(s, a, s.conts[c].worker)
    ensures var r := Step(s, a); var w := s.conts[c].worker;
            && w < |r.workers| && r.workers[w].alive && r.workers[w].freeCPU < 0
            && t < |r.threads| && Step(r, Enter(t)) == r.(threads := r.threads[t := Refused(c)])
  {
    var w := s.conts[c].worker;
    InvShape(s);
    HoldStep(s, a, t);
    FreeInRange(s, w);
    RefundWraps(s, a, w);
    hide Inv, Int32, Shape;
    var r := Step(s, a);
    assert r.conts[c].(conns := 0) == s.conts[c].(conns := 0);
  }

  lemma RefundWraps(s: State, a: Action, w: nat)
    requires w < |s.workers| && s.workers[w].freeCPU < 0x8000_0000 && Wraps(s, a, w)
    ensures Step(s, a).workers[w].freeCPU < 0
  {
  }

  /** CPU given back to worker w in a run. */
  ghost function GivenBack(s: State, acts: seq<Action>, w: nat): int {
    if acts == [] then 0
    else
      var front := acts[..|acts| - 1];
      GivenBack(s, front, w) - Taken(Run(s, front), acts[|acts| - 1], w)
  }

  lemma FreeAfterStep(s: State, a: Action, t: nat, w: nat, free: int)
    requires Inv(s) && s.mu == Some(t) && Actor(a) != Some(t) && w < |s.workers| && s.workers[w].alive
    requires s.workers[w].freeCPU == Int32(free)
    ensures var r := Step(s, a);
            w < |r.workers| && r.workers[w].freeCPU == Int32(free - Taken(s, a, w)) && Taken(s, a, w) <= 0
  {
    InvShape(s);
    HoldStep(s, a, t);
    OthersCannotCharge(s, a, t, w);
    FreeInRange(s, w);
    assert !Enabled(s, a) ==> Taken(s, a, w) == 0;
    StepDisabled(s, a);
    hide Step, Inv, Enabled, Shape, Int32;
    if Enabled(s, a) {
      FreeCpuStep(s, a, w);
      WrapAdd(free, 0 - Taken(s, a, w));
    }
  }

  lemma GivenBackLast(s: State, acts: seq<Action>, w: nat)
    requires acts != []
    ensures var front, last := acts[..|acts| - 1], acts[|acts| - 1];
            && Run(s, acts) == Step(Run(s, front), last)
            && GivenBack(s, acts, w) == GivenBack(s, front, w) - Taken(Run(s, front), last, w)
  {
    hide Step, Taken;
  }

  /** What a thread under mu still finds later. */
  lemma StillThere(s: State, r: State, t: nat, w: nat)
    requires KeepsHold(s, r, t) && w < |s.workers|
    ensures r.mu == Some(t) && t < |r.threads| && r.threads[t] == s.threads[t]
    ensures w < |r.workers| && r.workers[w].alive == s.workers[w].alive
    ensures |r.conts| == |s.conts| && forall c: nat :: c < |s.conts| ==> r.conts[c].mCPU == s.conts[c].mCPU
    ensures forall c: nat :: c < |s.conts| ==> r.conts[c].worker == s.conts[c].worker
  {
    assert forall c: nat :: c < |s.conts| ==> r.conts[c].(conns := 0) == s.conts[c].(conns := 0);
  }

  lemma {:induction false} FreeAfter(s: State, acts: seq<Action>, t: nat, w: nat)
    requires Inv(s) && s.mu == Some(t) && t < |s.threads| && w < |s.workers| && s.workers[w].alive
    requires forall a :: a in acts ==> Actor(a) != Some(t)
    ensures var r := Run(s, acts);
            && Inv(r) && KeepsHold(s, r, t) && 0 <= GivenBack(s, acts, w) && w < |r.workers|
            && r.workers[w].freeCPU == Int32(s.workers[w].freeCPU + GivenBack(s, acts, w))
  {
    hide Step, Inv, Int32, Taken, KeepsHold;
    if acts == [] {
      FreeInRange(s, w);
      WrapSmall(s.workers[w].freeCPU);
      HoldSelf(s, t);
      HeldMu(s, s, t, 0);
    } else {
      hide Run, GivenBack;
      var front, last := acts[..|acts| - 1], acts[|acts| - 1];
      var q := Run(s, front);
      assert last in acts;
      FreeAfter(s, front, t, w);
      StillThere(s, q, t, w);
      GivenBackLast(s, acts, w);
      StepInv(q, last);
      InvShape(q);
      HoldStep(q, last, t);
      HoldTrans(s, q, Step(q, last), t);
      FreeAfterStep(q, last, t, w, s.workers[w].freeCPU + GivenBack(s, front, w));
    }
  }

  lemma FirstOrLater(s: State, t: nat)
    requires Inv(s) && t < |s.threads| && s.threads[t].Measured?
    ensures 1 <= s.threads[t].n
  {
    assert Justified(s, s.threads[t]);
  }

  lemma RefusedAt(s: State, t: nat, c: nat, n: int)
    requires t < |s.threads| && s.threads[t] == Measured(c, n, true) && 1 <= n
    requires c < |s.conts| && s.conts[c].worker < |s.workers| && s.workers[s.conts[c].worker].alive
    ensures Step(s, Enter(t)).threads[t] == Refused(c) <==>
              n == 1 && s.workers[s.conts[c].worker].freeCPU < s.conts[c].mCPU
  {
    hide Int32;
  }

  /**
   A reservation that saw enough free CPU on a worker that is alive is refused if and only if it is the first
   connection and what was given back since, wrapped to 32 bits, leaves less than the container needs.
   */
  lemma RefusalExactly(s: State, acts: seq<Action>, t: nat, c: nat, n: int)
    requires Inv(s) && s.mu == Some(t) && t < |s.threads| && s.threads[t] == Measured(c, n, true)
    requires c < |s.conts| && s.conts[c].worker < |s.workers| && s.workers[s.conts[c].worker].alive
    requires forall a :: a in acts ==> Actor(a) != Some(t)
    ensures var r := Run(s, acts); var w := s.conts[c].worker;
            && t < |r.threads| && r.threads[t] == Measured(c, n, true) && w < |r.workers| && r.workers[w].alive
            && (Step(r, Enter(t)).threads[t] == Refused(c) <==>
                  n == 1 && Int32(s.workers[w].freeCPU + GivenBack(s, acts, w)) < s.conts[c].mCPU)
  {
    hide *;
    var w := s.conts[c].worker;
    FirstOrLater(s, t);
    FreeAfter(s, acts, t, w);
    StillThere(s, Run(s, acts), t, w);
    RefusedAt(Run(s, acts), t, c, n);
  }

  /** Some refund to worker w wraps. */
  ghost predicate WrapsIn(s: State, acts: seq<Action>, w: nat) {
    exists i: nat :: i < |acts| && Wraps(Run(s, acts[..i]), acts[i], w)
  }

  lemma WrapsFront(s: State, acts: seq<Action>, w: nat)
    requires acts != [] && !WrapsIn(s, acts, w)
    ensures !WrapsIn(s, acts[..|acts| - 1], w)
    ensures !Wraps(Run(s, acts[..|acts| - 1]), acts[|acts| - 1], w)
  {
    var front := acts[..|acts| - 1];
    forall i: nat | i < |front| ensures !Wraps(Run(s, front[..i]), front[i], w) {
      assert front[..i] == acts[..i];
    }
  }

  /** As long as no refund to the worker wraps, its free CPU does not fall while thread t holds mu. */
  lemma {:induction false} NoWrapNoFall(s: State, acts: seq<Action>, t: nat, w: nat)
    requires Inv(s) && s.mu == Some(t) && t < |s.threads| && w < |s.workers| && s.workers[w].alive
    requires (forall a :: a in acts ==> Actor(a) != Some(t)) && !WrapsIn(s, acts, w)
    ensures w < |Run(s, acts).workers| && s.workers[w].freeCPU <= Run(s, acts).workers[w].freeCPU
  {
    hide Step, Inv, Wraps, WrapsIn;
    if acts != [] {
      var front, last := acts[..|acts| - 1], acts[|acts| - 1];
      assert last in acts;
      WrapsFront(s, acts, w);
      NoWrapNoFall(s, front, t, w);
      FreeAfter(s, front, t, w);
      FreeCpuFallsExactly(Run(s, front), last, t, w);
    }
  }

  /** In particular it is refused only if a refund to that worker wrapped. */
  lemma RefusalNeedsWrap(s: State, acts: seq<Action>, t: nat, c: nat, n: int)
    requires Inv(s) && s.mu == Some(t) && t < |s.threads| && s.threads[t] == Measured(c, n, true)
    requires c < |s.conts| && s.conts[c].worker < |s.workers| && s.workers[s.conts[c].worker].alive
    requires s.workers[s.conts[c].worker].freeCPU > s.conts[c].mCPU
    requires forall a :: a in acts ==> Actor(a) != Some(t)
    ensures t < |Run(s, acts).threads|
    ensures Step(Run(s, acts), Enter(t)).threads[t] == Refused(c) ==> WrapsIn(s, acts, s.conts[c].worker)
  {
    var w := s.conts[c].worker;
    RefusalExactly(s, acts, t, c, n);
    FreeAfter(s, acts, t, w);
    hide Run, Step, Inv, GivenBack, WrapsIn, Int32;
    if !WrapsIn(s, acts, w) { NoWrapNoFall(s, acts, t, w); }
  }

  // ---- A reservation that nobody disturbs ----

  /** A reservation of a fresh container up to the test of free CPU. */
  function MeasureFresh(t: nat, w: nat, m: Millis): seq<Action> {
    [] + [Lock(t)] + [PickFresh(t, w, 1, m)] + [Count(t)] + [Measure(t)]
  }

  /** The whole reservation, undisturbed. */
  function ReserveFresh(t: nat, w: nat, m: Millis): seq<Action> {
    MeasureFresh(t, w, m) + [Enter(t)] + [Post(t)] + [Unlock(t)]
  }

  predicate Ready(s: State, t: nat, w: nat) {
    && s.mu.None? && t < |s.threads| && s.threads[t].Idle? && w < |s.workers| && s.workers[w].alive
  }

  lemma PickTo(s: State, t: nat, w: nat, m: Millis)
    requires Ready(s, t, w)
    ensures Step(Step(s, Lock(t)), PickFresh(t, w, 1, m)) ==
            s.(mu := Some(t), threads := s.threads[t := Picked(|s.conts|)], conts := s.conts + [Cont(w, m, 1, 0)])
  {
    assert Step(s, Lock(t)) == s.(mu := Some(t), threads := s.threads[t := Choosing]);
  }

  lemma CountTo(s: State, t: nat, c: nat, w: nat)
    requires t < |s.threads| && s.threads[t] == Picked(c) && c < |s.conts| && s.conts[c].worker == w < |s.workers|
    requires s.conts[c].async == 1 && s.conts[c].conns == 0
    ensures Step(Step(s, Count(t)), Measure(t)) ==
            s.(threads := s.threads[t := Measured(c, 1, s.workers[w].freeCPU > s.conts[c].mCPU)],
               conts := s.conts[c := s.conts[c].(conns := 1)])
  {
    assert Step(s, Count(t)) ==
           s.(threads := s.threads[t := Counted(c, 1)], conts := s.conts[c := s.conts[c].(conns := 1)]);
  }

  lemma EnterTo(s: State, t: nat, c: nat, w: nat, required: bool)
    requires t < |s.threads| && s.threads[t] == Measured(c, 1, required) && c < |s.conts|
    requires s.conts[c].worker == w < |s.workers|
    requires s.workers[w].alive
    ensures var v := s.workers[w]; var m := s.conts[c].mCPU;
            Step(s, Enter(t)) ==
              if required && v.freeCPU < m then s.(threads := s.threads[t := Refused(c)])
              else s.(threads := s.threads[t := Debited(c)],
                      workers := s.workers[w := v.(freeCPU := Int32(v.freeCPU - m), waiting := v.waiting + 1)])
  {
    hide Int32;
  }

  lemma PostTo(s: State, t: nat, c: nat, w: nat)
    requires t < |s.threads| && s.threads[t] == Debited(c) && c < |s.conts| && s.conts[c].worker == w < |s.workers|
    ensures Step(Step(s, Post(t)), Unlock(t)) ==
            s.(threads := s.threads[t := Holding(c)], mu := None, gauge := s.gauge - s.conts[c].mCPU)
  {
    assert Step(s, Post(t)) == s.(threads := s.threads[t := Granted(c)], gauge := s.gauge - s.conts[c].mCPU);
  }

  /** What one undisturbed reservation leaves. */
  function Reserved(s: State, t: nat, w: nat, m: Millis): State
    requires Ready(s, t, w)
  {
    var v := s.workers[w];
    s.(threads := s.threads[t := Holding(|s.conts|)],
       conts := s.conts + [Cont(w, m, 1, 1)],
       gauge := s.gauge - m,
       workers := s.workers[w := v.(freeCPU := Int32(v.freeCPU - m), waiting := v.waiting + 1)])
  }

  /** The reservation up to the test of free CPU. */
  function Measuring(s: State, t: nat, w: nat, m: Millis): State
    requires Ready(s, t, w)
  {
    s.(mu := Some(t),
       threads := s.threads[t := Measured(|s.conts|, 1, s.workers[w].freeCPU > m)],
       conts := s.conts + [Cont(w, m, 1, 1)])
  }

  lemma MeasuringTo(s: State, t: nat, w: nat, m: Millis)
    requires Ready(s, t, w)
    ensures Step(Step(Step(Step(s, Lock(t)), PickFresh(t, w, 1, m)), Count(t)), Measure(t)) == Measuring(s, t, w, m)
  {
    hide Step;
    var c := |s.conts|;
    PickTo(s, t, w, m);
    CountTo(Step(Step(s, Lock(t)), PickFresh(t, w, 1, m)), t, c, w);
    var required := s.workers[w].freeCPU > m;
    assert s.threads[t := Picked(c)][t := Measured(c, 1, required)] == s.threads[t := Measured(c, 1, required)];
    assert (s.conts + [Cont(w, m, 1, 0)])[c := Cont(w, m, 1, 1)] == s.conts + [Cont(w, m, 1, 1)];
  }

  lemma ReservedTo(s: State, t: nat, w: nat, m: Millis)
    requires Ready(s, t, w)
    ensures Step(Step(Step(Measuring(s, t, w, m), Enter(t)), Post(t)), Unlock(t)) == Reserved(s, t, w, m)
  {
    hide Step, Int32;
    var c := |s.conts|;
    var s4 := Measuring(s, t, w, m);
    EnterTo(s4, t, c, w, s.workers[w].freeCPU > m);
    PostTo(Step(s4, Enter(t)), t, c, w);
    assert s4.threads[t := Debited(c)][t := Holding(c)] == s.threads[t := Holding(c)];
  }

  lemma MeasuringRun(s: State, t: nat, w: nat, m: Millis)
    requires Ready(s, t, w)
    ensures Run(s, MeasureFresh(t, w, m)) == Measuring(s, t, w, m)
  {
    hide Step;
    RunNothing(s);
    RunSnoc(s, [], Lock(t));
    RunSnoc(s, [] + [Lock(t)], PickFresh(t, w, 1, m));
    RunSnoc(s, [] + [Lock(t)] + [PickFresh(t, w, 1, m)], Count(t));
    RunSnoc(s, [] + [Lock(t)] + [PickFresh(t, w, 1, m)] + [Count(t)], Measure(t));
    hide Run;
    MeasuringTo(s, t, w, m);
  }

  lemma ReservedRun(s: State, t: nat, w: nat, m: Millis)
    requires Ready(s, t, w)
    ensures Run(s, ReserveFresh(t, w, m)) == Reserved(s, t, w, m)
  {
    hide Step;
    var acts := MeasureFresh(t, w, m);
    RunSnoc(s, acts, Enter(t));
    RunSnoc(s, acts + [Enter(t)], Post(t));
    RunSnoc(s, acts + [Enter(t)] + [Post(t)], Unlock(t));
    hide Run, MeasureFresh;
    MeasuringRun(s, t, w, m);
    ReservedTo(s, t, w, m);
  }

  // ---- Overcommitted by more than 2^31 ----

  /** A reservation of the state s is given back. */
  predicate Returns(s: State, a: Action) { (a.Drop? || a.Refund?) && a.t < |s.threads| }

  /** A thread arrives and tests worker w for a fresh container. */
  function Arrive(s: State, w: nat, m: Millis): seq<Action> {
    [Spawn] + MeasureFresh(|s.threads|, w, m)
  }

  /**
   Reservations are given back, then a thread tests worker w for a fresh container of m milli-CPUs, more are given back,
   and the reservation is refused although the worker is alive.
   */
  ghost predicate RefusesFresh(s: State, before: seq<Action>, w: nat, m: Millis, after: seq<Action>) {
    && (forall a :: a in before ==> Returns(s, a)) && (forall a :: a in after ==> Returns(s, a))
    && var q := Run(s, before);
    && w < |q.workers| && q.workers[w].alive
    && var r := Run(Run(q, Arrive(q, w, m)), after);
       |s.threads| < |r.threads| && Step(r, Enter(|s.threads|)).threads[|s.threads|] == Refused(|s.conts|)
  }

  /** What giving back a reservation leaves as it was. */
  lemma ReturnsStep(s: State, a: Action)
    requires a.Drop? || a.Refund?
    ensures var r := Step(s, a);
            && r.mu == s.mu && |r.threads| == |s.threads| && |r.conts| == |s.conts| && |r.workers| == |s.workers|
            && (forall w: nat :: w < |s.workers| ==> r.workers[w].alive == s.workers[w].alive)
            && (forall c: nat :: c < |s.conts| ==> r.conts[c].(conns := 0) == s.conts[c].(conns := 0))
  {
  }

  lemma {:induction false} ReturnsRun(s: State, s0: State, acts: seq<Action>)
    requires Inv(s) && forall a :: a in acts ==> Returns(s0, a)
    ensures var r := Run(s, acts);
            && Inv(r) && r.mu == s.mu && |r.threads| == |s.threads| && |r.conts| == |s.conts|
            && |r.workers| == |s.workers| && (Solvent(s) ==> Solvent(r))
  {
    hide Step, Inv, Solvent;
    if acts != [] {
      var front, last := acts[..|acts| - 1], acts[|acts| - 1];
      assert last in acts;
      ReturnsRun(s, s0, front);
      ReturnsStep(Run(s, front), last);
      StepInv(Run(s, front), last);
      if Solvent(s) { SolventKept(Run(s, front), last); }
    }
  }

  /** Nothing but a payment or a registration can make a worker insolvent. */
  lemma SolventKept(s: State, a: Action)
    requires Inv(s) && Solvent(s) && !a.Enter? && !a.Register?
    ensures Solvent(Step(s, a))
  {
    StepDisabled(s, a);
    hide Step, Inv;
    if Enabled(s, a) {
      var r := Step(s, a);
      NewWorkers(s, a);
      forall w: nat | w < |r.workers| && r.workers[w].alive ensures -0x8000_0000 <= Balance(r, w) {
        DeadStaysDead(s, a, w);
        BalanceStep(s, a, w);
      }
    }
  }

  lemma {:induction false} SolventRun(s: State, acts: seq<Action>)
    requires Inv(s) && Solvent(s) && forall a :: a in acts ==> !a.Enter? && !a.Register?
    ensures Inv(Run(s, acts)) && Solvent(Run(s, acts))
  {
    hide Step, Inv, Solvent;
    if acts != [] {
      var front, last := acts[..|acts| - 1], acts[|acts| - 1];
      assert last in acts;
      SolventRun(s, front);
      SolventKept(Run(s, front), last);
      StepInv(Run(s, front), last);
    }
  }

  /** The state in which the new thread has made its test. */
  lemma ArriveRun(s: State, w: nat, m: Millis)
    requires s.mu.None? && w < |s.workers| && s.workers[w].alive
    ensures var s1 := s.(threads := s.threads + [Idle]);
            Ready(s1, |s.threads|, w) && Run(s, Arrive(s, w, m)) == Measuring(s1, |s.threads|, w, m)
    ensures forall a :: a in Arrive(s, w, m) ==> !a.Enter? && !a.Register?
  {
    var s1 := s.(threads := s.threads + [Idle]);
    assert Step(s, Spawn) == s1;
    RunNothing(s);
    RunSnoc(s, [], Spawn);
    assert [] + [Spawn] == [Spawn];
    hide Run, Step;
    RunAppend(s, [Spawn], MeasureFresh(|s.threads|, w, m));
    MeasuringRun(s1, |s.threads|, w, m);
  }

  lemma {:induction false} OthersAll(t: nat, acts: seq<Action>)
    requires forall a :: a in acts ==> Actor(a) != Some(t)
    ensures Others(t, acts) == acts
  {
    if acts != [] {
      var front, last := acts[..|acts| - 1], acts[|acts| - 1];
      assert last in acts;
      OthersAll(t, front);
      assert acts == front + [last];
    }
  }

  lemma SolventNoWrap(s: State, acts: seq<Action>, t: nat, w: nat)
    requires Inv(s) && Solvent(s) && s.mu == Some(t) && w < |s.workers| && s.workers[w].alive
    requires forall a :: a in acts ==> Actor(a) != Some(t)
    ensures var r := Run(s, acts); w < |r.workers| && s.workers[w].freeCPU <= r.workers[w].freeCPU && KeepsHold(s, r, t)
  {
    OthersAll(t, acts);
    hide Run, Inv, Returning, WrapCount;
    MeanwhileRun(s, acts, t);
  }

  lemma NotRefusedAt(s: State, t: nat, c: nat, required: bool)
    requires t < |s.threads| && s.threads[t] == Measured(c, 1, required)
    requires c < |s.conts| && s.conts[c].worker < |s.workers| && s.workers[s.conts[c].worker].alive
    requires required ==> s.conts[c].mCPU <= s.workers[s.conts[c].worker].freeCPU
    ensures Step(s, Enter(t)).threads[t] != Refused(c)
  {
    hide Int32;
  }

  /** No solvent worker refuses. */
  lemma SolventNeverRefuses(s: State, before: seq<Action>, w: nat, m: Millis, after: seq<Action>)
    requires Inv(s) && s.mu.None? && Solvent(s)
    ensures !RefusesFresh(s, before, w, m, after)
  {
    if RefusesFresh(s, before, w, m, after) {
      hide Run, Step, Inv, Solvent, KeepsHold, Arrive;
      var q, t, c := Run(s, before), |s.threads|, |s.conts|;
      ReturnsRun(s, s, before);
      ArriveRun(q, w, m);
      SolventRun(q, Arrive(q, w, m));
      var s1 := q.(threads := q.threads + [Idle]);
      var mid := Measuring(s1, t, w, m);
      SolventNoWrap(mid, after, t, w);
      var r := Run(mid, after);
      StillThere(mid, r, t, w);
      NotRefusedAt(r, t, c, mid.workers[w].freeCPU > m);
      assert false;
    }
  }

  /** Drops and refunds still to come. */
  ghost function WorkOf(s: State): nat -> int {
    (t: nat) =>
      if t >= |s.threads| then 0 else if s.threads[t].Holding? then 2 else if s.threads[t].Dropped? then 1 else 0
  }

  ghost function Work(s: State): nat {
    SumNonNegative(|s.threads|, WorkOf(s));
    SumTo(|s.threads|, WorkOf(s))
  }

  lemma WorkStep(s: State, a: Action)
    requires Enabled(s, a) && (a.Drop? || a.Refund?)
    ensures Work(Step(s, a)) < Work(s)
  {
    var r := Step(s, a);
    StepFrame(s, a);
    assert WorkOf(r)(a.t) < WorkOf(s)(a.t);
    hide Step, Enabled;
    SumChange(|s.threads|, WorkOf(s), WorkOf(r), a.t);
  }

  /** Some container of an overcommitted worker is still held, or its refund is on the way. */
  lemma SomethingOut(s: State, w: nat) returns (u: nat)
    requires Inv(s) && s.mu.None? && w < |s.workers| && Balance(s, w) < 0
    ensures u < |s.threads| && (s.threads[u].Holding? || (s.threads[u].Dropped? && s.threads[u].n == 0))
    ensures Known(s, u) && s.conts[s.threads[u].c].worker == w
  {
    if 0 < RefundsInFlight(s, w) {
      u := SumWitness(|s.threads|, RefundOf(s, w));
    } else {
      var c := SumWitness(|s.conts|, ChargeOf(s, w));
      u :| u < |s.threads| && Claims(s.threads[u], c);
    }
    assert ThreadShape(s, u);
  }

  lemma GivingBack(s: State, u: nat, w: nat) returns (a: Action)
    requires Inv(s) && u < |s.threads| && (s.threads[u].Holding? || (s.threads[u].Dropped? && s.threads[u].n == 0))
    requires Known(s, u) && s.conts[s.threads[u].c].worker == w && s.workers[w].alive
    ensures Returns(s, a) && a.t == u && Enabled(s, a) && a.Refund? == s.threads[u].Dropped?
    ensures Balance(Step(s, a), w) == Balance(s, w) + if a.Refund? then s.conts[s.threads[u].c].mCPU else 0
  {
    a := if s.threads[u].Holding? then Drop(u) else Refund(u);
    assert Taken(s, a, w) == if a.Refund? then 0 - s.conts[s.threads[u].c].mCPU else 0;
    hide Balance, Step;
    BalanceStep(s, a, w);
  }

  lemma WrapsNow(s: State, u: nat, w: nat)
    requires Inv(s) && w < |s.workers| && s.workers[w].alive && Enabled(s, Refund(u))
    requires s.conts[s.threads[u].c].worker == w
    requires Balance(s, w) < -0x8000_0000 <= Balance(s, w) + s.conts[s.threads[u].c].mCPU
    ensures Wraps(s, Refund(u), w)
  {
    hide Balance;
    var x := Balance(s, w);
    assert Int32(x) == x + 0x1_0000_0000;
  }

  /** From a worker overcommitted by more than 2^31, drops and refunds lead to a refund that wraps. */
  lemma {:induction false} ReturnUntilWrap(s: State, w: nat) returns (acts: seq<Action>, u: nat)
    requires Inv(s) && s.mu.None? && w < |s.workers| && s.workers[w].alive && Balance(s, w) < -0x8000_0000
    ensures forall a :: a in acts ==> Returns(s, a)
    ensures var r := Run(s, acts); u < |s.threads| && w < |r.workers| && r.workers[w].alive && Wraps(r, Refund(u), w)
    decreases Work(s)
  {
    hide Step, Inv, Balance, Wraps, Enabled, Work, Run;
    u := SomethingOut(s, w);
    var a := GivingBack(s, u, w);
    if a.Refund? && Balance(Step(s, a), w) >= -0x8000_0000 {
      WrapsNow(s, u, w);
      acts := [];
      RunNothing(s);
    } else {
      WorkStep(s, a);
      StepInv(s, a);
      ReturnsStep(s, a);
      var s1 := Step(s, a);
      var more;
      more, u := ReturnUntilWrap(s1, w);
      acts := [a] + more;
      RunNothing(s);
      RunSnoc(s, [], a);
      assert [] + [a] == [a];
      RunAppend(s, [a], more);
    }
  }

  /** The refund that wraps comes between the test and Worker.reserve. */
  lemma WrapsAfterTest(q: State, u: nat, w: nat, m: Millis)
    requires Inv(q) && q.mu.None? && w < |q.workers| && u < |q.threads| && Wraps(q, Refund(u), w)
    requires q.conts[q.threads[u].c].mCPU + m < 0x8000_0000
    ensures var s1 := q.(threads := q.threads + [Idle]);
            && Ready(s1, |q.threads|, w)
            && var mid := Measuring(s1, |q.threads|, w, m);
               Wraps(mid, Refund(u), w) && mid.threads[|q.threads|] == Measured(|q.conts|, 1, true)
  {
    hide Inv;
  }

  /** A worker that is overcommitted by more than 2^31 refuses a fresh container after the right refunds. */
  lemma OvercommittedRefuses(s: State, w: nat, m: Millis) returns (before: seq<Action>, u: nat)
    requires Inv(s) && s.mu.None? && w < |s.workers| && s.workers[w].alive && Balance(s, w) < -0x8000_0000
    requires forall c: nat :: c < |s.conts| && s.conts[c].worker == w ==> s.conts[c].mCPU + m < 0x8000_0000
    ensures RefusesFresh(s, before, w, m, [Refund(u)])
  {
    hide Step, Inv, Balance, Wraps, Run, Arrive;
    before, u := ReturnUntilWrap(s, w);
    var q, t := Run(s, before), |s.threads|;
    ReturnsRun(s, s, before);
    RefundOfWorker(s, before, u, w, m);
    WrapsAfterTest(q, u, w, m);
    ArriveRun(q, w, m);
    RunInv(q, Arrive(q, w, m));
    var mid := Run(q, Arrive(q, w, m));
    WrapRefuses(mid, Refund(u), t, |s.conts|);
    RunNothing(mid);
    RunSnoc(mid, [], Refund(u));
    assert [] + [Refund(u)] == [Refund(u)];
  }

  lemma {:induction false} SameSizes(s: State, s0: State, acts: seq<Action>)
    requires forall a :: a in acts ==> Returns(s0, a)
    ensures var r := Run(s, acts);
            && |r.conts| == |s.conts|
            && forall c: nat :: c < |s.conts| ==> r.conts[c].(conns := 0) == s.conts[c].(conns := 0)
  {
    hide Step;
    if acts != [] {
      var front, last := acts[..|acts| - 1], acts[|acts| - 1];
      assert last in acts;
      SameSizes(s, s0, front);
      ReturnsStep(Run(s, front), last);
    }
  }

  lemma RefundOfWorker(s: State, before: seq<Action>, u: nat, w: nat, m: Millis)
    requires forall a :: a in before ==> Returns(s, a)
    requires forall c: nat :: c < |s.conts| && s.conts[c].worker == w ==> s.conts[c].mCPU + m < 0x8000_0000
    requires Wraps(Run(s, before), Refund(u), w)
    ensures var q := Run(s, before); q.conts[q.threads[u].c].mCPU + m < 0x8000_0000
  {
    SameSizes(s, s, before);
    hide Run;
    var q := Run(s, before);
    var c := q.threads[u].c;
    assert q.conts[c].(conns := 0) == s.conts[c].(conns := 0);
  }

  /**
   The exact condition under which no fresh container is ever refused by a worker that is alive, whatever is given back
   before and after the test: no alive worker is overcommitted by more than 2^31 milli-CPUs.
   */
  lemma SolventExactly(s: State)
    requires Inv(s) && s.mu.None?
    ensures Solvent(s) <==>
              forall before, w: nat, m: Millis, after :: !RefusesFresh(s, before, w, m, after)
  {
    hide Inv, RefusesFresh, Balance;
    if Solvent(s) {
      forall before, w: nat, m: Millis, after ensures !RefusesFresh(s, before, w, m, after) {
        SolventNeverRefuses(s, before, w, m, after);
      }
    } else {
      var w: nat :| w < |s.workers| && s.workers[w].alive && Balance(s, w) < -0x8000_0000;
      var before, u := OvercommittedRefuses(s, w, 0);
      assert RefusesFresh(s, before, w, 0, [Refund(u)]);
    }
  }

  // ---- A run in which all this happens ----

  /** One worker and three reservations that are yet to begin. */
  function Opening(): seq<Action> {
    [] + [Register(2000, 1, 0)] + [Spawn] + [Spawn] + [Spawn]
  }

  lemma OpeningRun()
    ensures Run(Init, Opening()) ==
            State([Worker(2000, 1, 0, 2000, true, true, 0, false)], [], [Idle, Idle, Idle], None, 2000)
  {
    RunNothing(Init);
    RunSnoc(Init, [], Register(2000, 1, 0));
    RunSnoc(Init, [] + [Register(2000, 1, 0)], Spawn);
    RunSnoc(Init, [] + [Register(2000, 1, 0)] + [Spawn], Spawn);
    RunSnoc(Init, [] + [Register(2000, 1, 0)] + [Spawn] + [Spawn], Spawn);
  }

  const Huge: Millis := 0x7fff_ffff

  lemma HugeInt32()
    ensures Int32(2000 - Huge) == 2000 - Huge
    ensures Int32(2000 - Huge - Huge) == 2002
    ensures Int32(2002 + Huge) == 2001 - 0x8000_0000
  {
  }

  /** Two huge containers are placed and a third reservation is about to enter Worker.reserve. */
  function Crowd(): seq<Action> {
    Opening() + ReserveFresh(0, 0, Huge) + ReserveFresh(1, 0, Huge) + MeasureFresh(2, 0, 2000)
  }

  function Server(free: int, holders: int): Worker {
    Worker(2000, 1, 0, free, true, true, holders, false)
  }

  const Placed: Cont := Cont(0, Huge, 1, 1)

  const Crowded: State :=
    State([Server(2002, 2)], [Placed, Placed, Cont(0, 2000, 1, 1)], [Holding(0), Holding(1), Measured(2, 1, true)],
          Some(2), 2000 - Huge - Huge)

  lemma CrowdParts()
    ensures Run(Init, Crowd()) ==
            Run(Run(Run(Run(Init, Opening()), ReserveFresh(0, 0, Huge)), ReserveFresh(1, 0, Huge)),
                MeasureFresh(2, 0, 2000))
  {
    hide Run, Opening, MeasureFresh, ReserveFresh;
    RunAppend(Init, Opening() + ReserveFresh(0, 0, Huge) + ReserveFresh(1, 0, Huge), MeasureFresh(2, 0, 2000));
    RunAppend(Init, Opening() + ReserveFresh(0, 0, Huge), ReserveFresh(1, 0, Huge));
    RunAppend(Init, Opening(), ReserveFresh(0, 0, Huge));
  }

  lemma CrowdRun()
    ensures Run(Init, Crowd()) == Crowded
  {
    CrowdParts();
    OpeningRun();
    HugeInt32();
    hide Run, Step, Opening, MeasureFresh, ReserveFresh, Int32;
    var s0 := State([Server(2000, 0)], [], [Idle, Idle, Idle], None, 2000);
    assert Run(Init, Opening()) == s0;
    ReservedRun(s0, 0, 0, Huge);
    var s1 := State([Server(2000 - Huge, 1)], [Placed], [Holding(0), Idle, Idle], None, 2000 - Huge);
    assert Reserved(s0, 0, 0, Huge) == s1;
    ReservedRun(s1, 1, 0, Huge);
    var s2 := State([Server(2002, 2)], [Placed, Placed], [Holding(0), Holding(1), Idle], None, 2000 - Huge - Huge);
    assert Reserved(s1, 1, 0, Huge) == s2;
    MeasuringRun(s2, 2, 0, 2000);
    assert Measuring(s2, 2, 0, 2000) == Crowded;
  }

  const Returning: State :=
    Crowded.(conts := [Placed.(conns := 0), Placed, Cont(0, 2000, 1, 1)],
             threads := [Dropped(0, 0), Holding(1), Measured(2, 1, true)])

  const Returned: State :=
    Returning.(workers := [Server(2001 - 0x8000_0000, 2)],
               threads := [Refunded(0), Holding(1), Measured(2, 1, true)],
               gauge := 2000 - Huge)

  lemma ReturnTo()
    ensures Step(Crowded, Drop(0)) == Returning
    ensures Step(Returning, Refund(0)) == Returned
  {
    HugeInt32();
    hide Int32;
    assert Step(Crowded, Drop(0)) == Returning;
  }

  /**
   A worker of 2000 milli-CPUs accepts two containers of 2^31 - 1 each, which leaves its free CPU at 2002.  Returning
   one of them makes free CPU negative, so a reservation that saw enough of it is refused by a worker that is alive.
   */
  lemma RefusedByLiveWorker()
    ensures var s := Run(Init, Crowd() + [Drop(0)]); var s' := Step(s, Refund(0));
            && s.mu == Some(2) && Wraps(s, Refund(0), 0)
            && s == Returning && s' == Returned
            && s.workers[0].freeCPU > s.conts[2].mCPU && s'.workers[0].freeCPU < 0
            && s'.workers[0].alive && s'.workers[0].registered
            && Step(s', Enter(2)) == s'.(threads := s'.threads[2 := Refused(2)])
  {
    RunSnoc(Init, Crowd(), Drop(0));
    CrowdRun();
    ReturnTo();
    hide Run, Step, Crowd, Int32;
    EnterTo(Returned, 2, 2, 0, true);
  }

  lemma CrowdedSums()
    ensures FreeOfAlive(Crowded) == 2002 && UnpostedDebits(Crowded) == 0
    ensures FreeOfAlive(Returned) == 2001 - 0x8000_0000 && UnpostedDebits(Returned) == 0
  {
    assert FreeOf(Crowded)(0) == 2002 && FreeOf(Returned)(0) == 2001 - 0x8000_0000;
    assert forall t: nat :: UnpostedOf(Crowded)(t) == 0 == UnpostedOf(Returned)(t);
    SumSame(3, UnpostedOf(Crowded), (t: nat) => 0);
    SumSame(3, UnpostedOf(Returned), (t: nat) => 0);
  }

  /** There the gauge is 2^32 too low, since one reservation wrapped; after the refund that wraps it is exact again. */
  lemma GaugeOffThenExact()
    ensures var s := Run(Init, Crowd());
            s.gauge == FreeOfAlive(s) + UnpostedDebits(s) - 0x1_0000_0000
            && DownCount(Init, Crowd()) == WrapCount(Init, Crowd()) + 1
    ensures var acts := Crowd() + [Drop(0)] + [Refund(0)]; var s := Run(Init, acts);
            s.gauge == FreeOfAlive(s) + UnpostedDebits(s) && DownCount(Init, acts) == WrapCount(Init, acts)
  {
    CrowdRun();
    CrowdedSums();
    DriftExactly(Crowd());
    RunSnoc(Init, Crowd(), Drop(0));
    RunSnoc(Init, Crowd() + [Drop(0)], Refund(0));
    ReturnTo();
    GaugeExactly(Crowd() + [Drop(0)] + [Refund(0)]);
    hide *;
    assert Crowded.gauge == 2000 - Huge - Huge && Returned.gauge == 2000 - Huge;
  }
}
