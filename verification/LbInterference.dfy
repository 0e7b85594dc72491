/**
 What the other threads of the reservation machine can do while one thread holds the server mutex: they release, and
 workers come and leave the LRU cache.  Free CPU rises meanwhile, except where a refund wraps around.
 */
module LbInterference {
  import opened Sums
  import opened LbReservation
  import opened Wrappers

  /** The environment never acts for thread t. */
  function Others(t: nat, acts: seq<Action>): seq<Action> {
    if acts == [] then []
    else
      var last := acts[|acts| - 1];
      Others(t, acts[..|acts| - 1]) + (if Actor(last) == Some(t) then [] else [last])
  }

  /** No alive worker is so far overcommitted that a refund could wrap around. */
  ghost predicate Solvent(s: State) {
    forall w: nat :: w < |s.workers| && s.workers[w].alive ==> -0x8000_0000 <= Balance(s, w)
  }

  /** What thread t can rely on while it holds the server mutex. */
  ghost predicate KeepsHold(s: State, r: State, t: nat) {
    && s.mu == Some(t) && r.mu == s.mu && t < |s.threads| <= |r.threads| && r.threads[t] == s.threads[t]
    && |s.workers| <= |r.workers|
    && (forall w: nat :: w < |s.workers| ==>
          && r.workers[w].alive == s.workers[w].alive && r.workers[w].defaultMCPU == s.workers[w].defaultMCPU
          && (r.workers[w].registered ==> s.workers[w].registered))
    && |r.conts| == |s.conts|
    && (forall c: nat :: c < |s.conts| ==>
          r.conts[c].(conns := 0) == s.conts[c].(conns := 0) && r.conts[c].conns <= s.conts[c].conns)
  }

  ghost predicate FreeRises(s: State, r: State) {
    |s.workers| <= |r.workers| &&
    forall w: nat :: w < |s.workers| && s.workers[w].alive ==> s.workers[w].freeCPU <= r.workers[w].freeCPU
  }

  // ---- Refunds that wrap ----

  /** A refund that takes the free CPU of its worker past 2^31 - 1. */
  predicate WrapsUp(s: State, a: Action) {
    && a.Refund? && Enabled(s, a)
    && var k := s.conts[s.threads[a.t].c];
       s.workers[k.worker].alive && s.workers[k.worker].freeCPU + k.mCPU >= 0x8000_0000
  }

  /** That worker is w. */
  predicate Wraps(s: State, a: Action, w: nat) {
    WrapsUp(s, a) && s.conts[s.threads[a.t].c].worker == w
  }

  /** Refunds of a run that wrap. */
  function WrapCount(s: State, acts: seq<Action>): nat {
    if acts == [] then 0
    else
      var front := acts[..|acts| - 1];
      WrapCount(s, front) + if WrapsUp(Run(s, front), acts[|acts| - 1]) then 1 else 0
  }

  lemma FreeInRange(s: State, w: nat)
    requires Inv(s) && w < |s.workers| && s.workers[w].alive
    ensures -0x8000_0000 <= s.workers[w].freeCPU < 0x8000_0000
  {
    hide Balance;
  }

  /** Under mu, nothing but a refund changes free CPU. */
  lemma FreeCpuKept(s: State, a: Action, t: nat, w: nat)
    requires Inv(s) && s.mu == Some(t) && Actor(a) != Some(t) && w < |s.workers| && s.workers[w].alive && !a.Refund?
    ensures Step(s, a).workers[w].freeCPU == s.workers[w].freeCPU
  {
    if Actor(a).Some? && Actor(a).value < |s.threads| {
      assert ThreadShape(s, Actor(a).value);
    }
    hide Inv, Int32;
  }

  lemma RefundFalls(s: State, a: Action, w: nat)
    requires a.Refund? && w < |s.workers| && s.workers[w].alive && -0x8000_0000 <= s.workers[w].freeCPU < 0x8000_0000
    ensures Step(s, a).workers[w].freeCPU < s.workers[w].freeCPU <==> Wraps(s, a, w)
  {
  }

  /** While a thread holds mu, free CPU falls in a step of another thread if and only if that is a refund that wraps. */
  lemma FreeCpuFallsExactly(s: State, a: Action, t: nat, w: nat)
    requires Inv(s) && s.mu == Some(t) && Actor(a) != Some(t) && w < |s.workers| && s.workers[w].alive
    ensures w < |Step(s, a).workers|
    ensures Step(s, a).workers[w].freeCPU < s.workers[w].freeCPU <==> Wraps(s, a, w)
  {
    FreeInRange(s, w);
    if !a.Refund? { FreeCpuKept(s, a, t, w); }
    hide Inv, Enabled;
    if a.Refund? { RefundFalls(s, a, w); }
  }

  // ---- Reservations that can still be returned ----

  ghost function ReturningOf(s: State): nat -> int {
    (t: nat) => if t < |s.threads| && (s.threads[t].Holding? || s.threads[t].Dropped?) then 1 else 0
  }

  /** Reservations that are held or about to be given back. */
  ghost function Returning(s: State): (n: nat) {
    SumNonNegative(|s.threads|, ReturningOf(s));
    SumTo(|s.threads|, ReturningOf(s))
  }

  lemma ReturningMoves(s: State, a: Action)
    requires Enabled(s, a)
    ensures Actor(a).None? ==> Returning(Step(s, a)) == Returning(s)
    ensures Actor(a).Some? ==>
              var t := Actor(a).value;
              Returning(Step(s, a)) == Returning(s) - ReturningOf(s)(t) + ReturningOf(Step(s, a))(t)
  {
    var r := Step(s, a);
    StepFrame(s, a);
    hide Step, Enabled;
    if Actor(a).Some? {
      SumChange(|s.threads|, ReturningOf(s), ReturningOf(r), Actor(a).value);
    } else {
      SumSameThreads(s, r, ReturningOf(s), ReturningOf(r));
    }
  }

  lemma ReturningActor(s: State, a: Action, t: nat)
    requires Shape(s) && s.mu == Some(t) && Actor(a).Some? && Actor(a) != Some(t) && Enabled(s, a)
    ensures var u := Actor(a).value;
            ReturningOf(Step(s, a))(u) <= ReturningOf(s)(u) - if WrapsUp(s, a) then 1 else 0
  {
    assert ThreadShape(s, Actor(a).value);
  }

  /** While mu is held there are no new ones, and each refund uses one up. */
  lemma ReturningStep(s: State, a: Action, t: nat)
    requires Shape(s) && s.mu == Some(t) && Actor(a) != Some(t) && Enabled(s, a)
    ensures Returning(Step(s, a)) + (if WrapsUp(s, a) then 1 else 0) <= Returning(s)
  {
    ReturningMoves(s, a);
    if Actor(a).Some? { ReturningActor(s, a, t); }
    hide Step, Enabled, Returning, Shape;
  }

  // ---- What holds from one state to a later one ----

  /** n refunds wrapped on the way. */
  ghost predicate Onward(s: State, r: State, n: nat) {
    n + Returning(r) <= Returning(s) && (Solvent(s) ==> Solvent(r) && n == 0)
  }

  ghost predicate Meanwhile(s: State, r: State, t: nat, n: nat) {
    KeepsHold(s, r, t) && Onward(s, r, n) && (n == 0 ==> FreeRises(s, r))
  }

  lemma HoldTrans(s: State, q: State, r: State, t: nat)
    requires KeepsHold(s, q, t) && KeepsHold(q, r, t)
    ensures KeepsHold(s, r, t)
  {
  }

  lemma MeanwhileTrans(s: State, q: State, r: State, t: nat, m: nat, n: nat)
    requires Meanwhile(s, q, t, m) && Meanwhile(q, r, t, n)
    ensures Meanwhile(s, r, t, m + n)
  {
    hide Solvent, Returning;
    HoldTrans(s, q, r, t);
  }

  lemma OthersCannotCharge(s: State, a: Action, t: nat, w: nat)
    requires Shape(s) && s.mu == Some(t) && Actor(a) != Some(t)
    ensures Taken(s, a, w) <= 0
  {
  }

  lemma BalanceAtMost(s: State, w: nat)
    requires w < |s.workers|
    ensures Balance(s, w) <= s.workers[w].mCPU
  {
    ChargesNonNegative(s, w);
  }

  /** Of a solvent worker, free CPU only rises while mu is held by somebody else. */
  lemma FreeCpuRises(s: State, a: Action, t: nat, w: nat)
    requires Inv(s) && Solvent(s) && s.mu == Some(t) && Actor(a) != Some(t) && Enabled(s, a)
    requires w < |s.workers| && s.workers[w].alive
    ensures Step(s, a).workers[w].alive ==> s.workers[w].freeCPU <= Step(s, a).workers[w].freeCPU
    ensures -0x8000_0000 <= Balance(Step(s, a), w)
  {
    hide Step;
    OthersCannotCharge(s, a, t, w);
    BalanceStep(s, a, w);
    BalanceAtMost(s, w);
    BalanceAtMost(Step(s, a), w);
    StepFrame(s, a);
    WrapSmall(Balance(s, w));
    WrapSmall(Balance(Step(s, a), w));
    if Step(s, a).workers[w].alive { StepCpuOf(s, a, w); }
  }

  lemma InvShape(s: State)
    requires Inv(s)
    ensures Shape(s)
  {
  }

  lemma HoldStep(s: State, a: Action, t: nat)
    requires Shape(s) && s.mu == Some(t) && Actor(a) != Some(t)
    ensures KeepsHold(s, Step(s, a), t)
  {
  }

  lemma SolventStep(s: State, a: Action, t: nat)
    requires Inv(s) && Solvent(s) && s.mu == Some(t) && Actor(a) != Some(t) && Enabled(s, a)
    requires KeepsHold(s, Step(s, a), t)
    ensures Solvent(Step(s, a)) && FreeRises(s, Step(s, a))
  {
    hide Step, Inv, Enabled;
    var r := Step(s, a);
    NewWorkers(s, a);
    forall w: nat | w < |s.workers| && s.workers[w].alive
      ensures s.workers[w].freeCPU <= r.workers[w].freeCPU && -0x8000_0000 <= Balance(r, w)
    {
      FreeCpuRises(s, a, t, w);
    }
    if |r.workers| == |s.workers| + 1 { NewWorkerBalance(s, a); }
  }

  /** The worker of a refund that wraps. */
  lemma WrappingWorker(s: State, a: Action)
    requires Shape(s) && WrapsUp(s, a)
    ensures var w := s.conts[s.threads[a.t].c].worker; w < |s.workers| && s.workers[w].alive && Wraps(s, a, w)
  {
  }

  lemma RisesUnlessWraps(s: State, a: Action, t: nat)
    requires Inv(s) && s.mu == Some(t) && Actor(a) != Some(t) && !WrapsUp(s, a)
    requires KeepsHold(s, Step(s, a), t)
    ensures FreeRises(s, Step(s, a))
  {
    hide Inv, Step;
    forall w: nat | w < |s.workers| && s.workers[w].alive
      ensures s.workers[w].freeCPU <= Step(s, a).workers[w].freeCPU
    {
      FreeCpuFallsExactly(s, a, t, w);
    }
  }

  lemma OnwardStep(s: State, a: Action, t: nat)
    requires Inv(s) && s.mu == Some(t) && Actor(a) != Some(t) && Enabled(s, a) && KeepsHold(s, Step(s, a), t)
    ensures Onward(s, Step(s, a), if WrapsUp(s, a) then 1 else 0)
  {
    InvShape(s);
    hide Step, Inv, Enabled;
    ReturningStep(s, a, t);
    if Solvent(s) {
      SolventStep(s, a, t);
      if WrapsUp(s, a) {
        WrappingWorker(s, a);
        FreeCpuFallsExactly(s, a, t, s.conts[s.threads[a.t].c].worker);
      }
    }
  }

  lemma OnwardDisabled(s: State, a: Action)
    requires !Enabled(s, a)
    ensures Onward(s, Step(s, a), 0) && !WrapsUp(s, a)
  {
    hide Solvent, Returning;
  }

  lemma MeanwhileStep(s: State, a: Action, t: nat)
    requires Inv(s) && s.mu == Some(t) && Actor(a) != Some(t)
    ensures Inv(Step(s, a)) && Meanwhile(s, Step(s, a), t, if WrapsUp(s, a) then 1 else 0)
  {
    hide Step, Inv, Enabled, Shape, Onward, FreeRises, KeepsHold, WrapsUp;
    StepInv(s, a);
    InvShape(s);
    HoldStep(s, a, t);
    if !WrapsUp(s, a) { RisesUnlessWraps(s, a, t); }
    if Enabled(s, a) {
      OnwardStep(s, a, t);
    } else {
      OnwardDisabled(s, a);
    }
  }

  lemma HoldSelf(s: State, t: nat)
    requires Inv(s) && s.mu == Some(t)
    ensures Meanwhile(s, s, t, 0)
  {
  }

  lemma HeldMu(s: State, r: State, t: nat, n: nat)
    requires Meanwhile(s, r, t, n)
    ensures r.mu == Some(t) && KeepsHold(s, r, t)
  {
  }

  lemma RunSnoc(s: State, acts: seq<Action>, a: Action)
    ensures Run(s, acts + [a]) == Step(Run(s, acts), a)
    ensures WrapCount(s, acts + [a]) == WrapCount(s, acts) + if WrapsUp(Run(s, acts), a) then 1 else 0
  {
    hide Step, WrapsUp;
    assert (acts + [a])[..|acts|] == acts;
  }

  lemma RunNothing(s: State)
    ensures Run(s, []) == s && WrapCount(s, []) == 0
  {
  }

  lemma {:induction false} RunAppend(s: State, a: seq<Action>, b: seq<Action>)
    ensures Run(s, a + b) == Run(Run(s, a), b)
  {
    hide Step, Run;
    if b == [] {
      RunNothing(Run(s, a));
      assert a + b == a;
    } else {
      var front, last := b[..|b| - 1], b[|b| - 1];
      RunAppend(s, a, front);
      assert b == front + [last] && a + b == (a + front) + [last];
      RunSnoc(Run(s, a), front, last);
      RunSnoc(s, a + front, last);
    }
  }

  lemma {:induction false} MeanwhileRun(s: State, acts: seq<Action>, t: nat)
    requires Inv(s) && s.mu == Some(t)
    ensures var o := Others(t, acts); Inv(Run(s, o)) && Meanwhile(s, Run(s, o), t, WrapCount(s, o))
  {
    hide Run, Step, Inv, Meanwhile, WrapCount, WrapsUp;
    if acts == [] {
      RunNothing(s);
      HoldSelf(s, t);
    } else {
      var last := acts[|acts| - 1];
      var o := Others(t, acts[..|acts| - 1]);
      MeanwhileRun(s, acts[..|acts| - 1], t);
      HeldMu(s, Run(s, o), t, WrapCount(s, o));
      if Actor(last) != Some(t) {
        RunSnoc(s, o, last);
        MeanwhileStep(Run(s, o), last, t);
        MeanwhileTrans(s, Run(s, o), Step(Run(s, o), last), t, WrapCount(s, o),
                       if WrapsUp(Run(s, o), last) then 1 else 0);
      } else {
        assert o + [] == o;
      }
    }
  }

  // ---- The steps of the selecting thread ----

  predicate Selects(a: Action) {
    a.Lock? || a.PickCached? || a.PickFresh? || a.Count? || a.Measure? || a.Enter? || a.Undo?
  }

  lemma OwnReturning(s: State, a: Action, t: nat)
    requires Enabled(s, a) && Selects(a) && Actor(a) == Some(t)
    ensures t < |s.threads| && ReturningOf(s)(t) == ReturningOf(Step(s, a))(t)
  {
  }

  lemma OwnStepSolvent(s: State, a: Action, t: nat)
    requires Inv(s) && Solvent(s) && Actor(a) == Some(t) && Enabled(s, a)
    requires !a.Refund? && (a.Enter? ==> !Pays(s, a.t))
    ensures Solvent(Step(s, a))
  {
    hide Step;
    var r := Step(s, a);
    NewWorkers(s, a);
    forall w: nat | w < |r.workers| && r.workers[w].alive ensures -0x8000_0000 <= Balance(r, w) {
      DeadStaysDead(s, a, w);
      BalanceStep(s, a, w);
    }
  }

  /** Its own steps up to the payment change neither. */
  lemma OwnOnward(s: State, a: Action, t: nat)
    requires Inv(s) && Enabled(s, a) && Selects(a) && Actor(a) == Some(t) && (a.Enter? ==> !Pays(s, a.t))
    ensures Onward(s, Step(s, a), 0)
  {
    OwnReturning(s, a, t);
    ReturningMoves(s, a);
    hide Step, Enabled, Inv;
    if Solvent(s) { OwnStepSolvent(s, a, t); }
  }

  lemma OnwardTrans(s: State, q: State, r: State, m: nat, n: nat)
    requires Onward(s, q, m) && Onward(q, r, n)
    ensures Onward(s, r, m + n)
  {
    hide Solvent, Returning;
  }
}
