/**
 What the reservation machine keeps over every run: CPU and gauge conservation, the async bound, and the
 drain of a worker before its connection is closed.
 */
module LbAccounting {
  import opened LbReservation
  import opened LbInterference

  lemma ExactBalance(s: State, w: nat)
    requires Inv(s) && w < |s.workers| && s.workers[w].alive
    requires ChargedMillis(s, w) + RefundsInFlight(s, w) <= 0x8000_0000
    ensures s.workers[w].freeCPU + ChargedMillis(s, w) + RefundsInFlight(s, w) == s.workers[w].mCPU
  {
    ChargesNonNegative(s, w);
    WrapSmall(Balance(s, w));
  }

  ghost predicate Reachable(s: State) {
    exists acts :: s == Run(Init, acts)
  }

  lemma ReachableInv(s: State)
    requires Reachable(s)
    ensures Inv(s)
  {
    var acts :| s == Run(Init, acts);
    InitInv();
    RunInv(Init, acts);
  }

  /** CPU conservation: modulo 2^32 always, exact while the charges stay within 32 bits. */
  lemma CpuConservation(s: State, w: nat)
    requires Reachable(s) && w < |s.workers| && s.workers[w].alive
    ensures s.workers[w].freeCPU == Int32(s.workers[w].mCPU - ChargedMillis(s, w) - RefundsInFlight(s, w))
    ensures ChargedMillis(s, w) + RefundsInFlight(s, w) <= 0x8000_0000 ==>
              s.workers[w].freeCPU + ChargedMillis(s, w) + RefundsInFlight(s, w) == s.workers[w].mCPU
  {
    hide Step, Run;
    ReachableInv(s);
    if ChargedMillis(s, w) + RefundsInFlight(s, w) <= 0x8000_0000 { ExactBalance(s, w); }
  }

  /** No alive worker's free CPU is outside the 32-bit range. */
  ghost predicate Fits(s: State) {
    forall w: nat :: w < |s.workers| && s.workers[w].alive ==> -0x8000_0000 <= Balance(s, w) < 0x8000_0000
  }

  ghost predicate NeverWraps(s: State, acts: seq<Action>) {
    forall n: nat :: n <= |acts| ==> Fits(Run(s, acts[..n]))
  }

  /** A reservation that takes the free CPU of its worker below -2^31. */
  predicate WrapsDown(s: State, a: Action) {
    && a.Enter? && Enabled(s, a) && Pays(s, a.t)
    && var k := s.conts[s.threads[a.t].c];
       s.workers[k.worker].freeCPU - k.mCPU < -0x8000_0000
  }

  /** Reservations of a run that wrap. */
  function DownCount(s: State, acts: seq<Action>): nat {
    if acts == [] then 0
    else
      var front := acts[..|acts| - 1];
      DownCount(s, front) + if WrapsDown(Run(s, front), acts[|acts| - 1]) then 1 else 0
  }

  lemma Int32Excess(x: int)
    requires -0x1_0000_0000 <= x < 0x1_0000_0000
    ensures x - Int32(x) ==
            if x >= 0x8000_0000 then 0x1_0000_0000 else if x < -0x8000_0000 then -0x1_0000_0000 else 0
  {
  }

  function Excess(s: State, a: Action): int {
    if WrapsUp(s, a) then 0x1_0000_0000 else if WrapsDown(s, a) then -0x1_0000_0000 else 0
  }

  lemma ExcessTaken(s: State, a: Action, w: nat)
    requires Enabled(s, a) && (a.Enter? || a.Refund?) && w == s.conts[s.threads[a.t].c].worker
    requires s.workers[w].alive && -0x8000_0000 <= s.workers[w].freeCPU < 0x8000_0000
    ensures var x := s.workers[w].freeCPU - Taken(s, a, w); x - Int32(x) == Excess(s, a)
  {
    Int32Excess(s.workers[w].freeCPU - Taken(s, a, w));
    hide Int32;
  }

  lemma NoExcess(s: State, a: Action)
    requires Enabled(s, a) ==> !a.Enter? && !a.Refund?
    ensures Excess(s, a) == 0
  {
  }

  lemma NoExcessDead(s: State, a: Action, w: nat)
    requires Enabled(s, a) && (a.Enter? || a.Refund?) && w == s.conts[s.threads[a.t].c].worker && !s.workers[w].alive
    ensures Excess(s, a) == 0
  {
  }

  lemma DriftStep(s: State, a: Action)
    requires Inv(s)
    ensures Drift(Step(s, a)) == Drift(s) + Excess(s, a)
  {
    hide Step, Drift, Excess;
    StepDisabled(s, a);
    if Enabled(s, a) && (a.Enter? || a.Refund?) {
      var w := s.conts[s.threads[a.t].c].worker;
      DriftCharge(s, a, w);
      if s.workers[w].alive {
        FreeInRange(s, w);
        ExcessTaken(s, a, w);
      } else {
        NoExcessDead(s, a, w);
      }
    } else {
      NoExcess(s, a);
      if Enabled(s, a) { DriftElsewhere(s, a); }
    }
  }

  lemma CountsSnoc(s: State, acts: seq<Action>)
    requires acts != []
    ensures var front, last := acts[..|acts| - 1], acts[|acts| - 1];
            0x1_0000_0000 * (WrapCount(s, acts) - DownCount(s, acts)) ==
              0x1_0000_0000 * (WrapCount(s, front) - DownCount(s, front)) + Excess(Run(s, front), last)
  {
    hide Run;
  }

  /** In every run: each refund that wraps puts the gauge 2^32 too high, each reservation that wraps 2^32 too low. */
  lemma {:induction false} DriftExactly(acts: seq<Action>)
    ensures var s := Run(Init, acts);
            s.gauge - FreeOfAlive(s) - UnpostedDebits(s) ==
              0x1_0000_0000 * (WrapCount(Init, acts) - DownCount(Init, acts))
  {
    hide Step, Inv, FreeOfAlive, UnpostedDebits, WrapsUp, WrapsDown;
    if acts == [] {
      InitDrift();
    } else {
      var front, last := acts[..|acts| - 1], acts[|acts| - 1];
      DriftExactly(front);
      InitInv();
      RunInv(Init, front);
      CountsSnoc(Init, acts);
      hide WrapCount, DownCount, Excess;
      DriftStep(Run(Init, front), last);
    }
  }

  /** So it is exact if and only if as many refunds as reservations wrapped. */
  lemma GaugeExactly(acts: seq<Action>)
    ensures var s := Run(Init, acts);
            s.gauge == FreeOfAlive(s) + UnpostedDebits(s) <==> WrapCount(Init, acts) == DownCount(Init, acts)
  {
    hide Run, FreeOfAlive, UnpostedDebits, WrapCount, DownCount;
    DriftExactly(acts);
  }

  /** Between states in which every free CPU fits, nothing wraps. */
  lemma FitsNoExcess(s: State, a: Action)
    requires Inv(s) && Fits(s) && Fits(Step(s, a))
    ensures !WrapsUp(s, a) && !WrapsDown(s, a)
  {
    if Enabled(s, a) && (a.Enter? || a.Refund?) {
      var w := s.conts[s.threads[a.t].c].worker;
      if s.workers[w].alive {
        BalanceStep(s, a, w);
        WrapSmall(Balance(s, w));
        DeadStaysDead(s, a, w);
        assert -0x8000_0000 <= Balance(Step(s, a), w) < 0x8000_0000;
      }
    }
  }

  lemma {:induction false} NothingWraps(s: State, acts: seq<Action>)
    requires Inv(s) && NeverWraps(s, acts)
    ensures WrapCount(s, acts) == 0 == DownCount(s, acts)
  {
    hide Step, WrapsUp, WrapsDown;
    if acts != [] {
      var n := |acts| - 1;
      var before := acts[..n];
      forall m: nat | m <= n ensures Fits(Run(s, before[..m])) { assert before[..m] == acts[..m]; }
      assert acts[..n + 1] == acts;
      NothingWraps(s, before);
      RunInv(s, before);
      assert Fits(Run(s, acts[..n])) && Fits(Run(s, acts[..n + 1]));
      FitsNoExcess(Run(s, before), acts[n]);
    }
  }

  lemma InitDrift()
    ensures Drift(Init) == 0
  {
  }

  /** The gauge, a 32-bit counter's worth of it, is the free CPU of alive workers plus the debits not yet posted. */
  lemma GaugeModulo(s: State)
    requires Reachable(s)
    ensures (s.gauge - FreeOfAlive(s) - UnpostedDebits(s)) % 0x1_0000_0000 == 0
  {
    ReachableInv(s);
  }

  /** Reached by a run in which no free CPU leaves the 32-bit range. */
  ghost predicate ReachedWithoutWrapping(s: State) {
    exists acts :: s == Run(Init, acts) && NeverWraps(Init, acts)
  }

  /** Then the gauge is exactly that. */
  lemma GaugeConservation(s: State)
    requires ReachedWithoutWrapping(s)
    ensures s.gauge == FreeOfAlive(s) + UnpostedDebits(s)
  {
    var acts :| s == Run(Init, acts) && NeverWraps(Init, acts);
    hide Step, Run, NeverWraps, FreeOfAlive, UnpostedDebits, WrapCount, DownCount, Inv;
    InitInv();
    NothingWraps(Init, acts);
    GaugeExactly(acts);
  }

  /** A shared container never exceeds its limit, and Reserve never takes its overshoot branch. */
  lemma AsyncBound(s: State, c: nat)
    requires Reachable(s) && c < |s.conts| && s.conts[c].async > 1
    ensures 0 <= s.conts[c].conns <= s.conts[c].async
    ensures forall t: nat :: t < |s.threads| && s.threads[t].Counted? && s.threads[t].c == c ==>
              Step(s, Measure(t)).threads[t].Measured?
  {
    ReachableInv(s);
    ConnsNonNegative(s, c);
    forall t: nat | t < |s.threads| && s.threads[t].Counted? && s.threads[t].c == c
      ensures Step(s, Measure(t)).threads[t].Measured?
    {
      assert Justified(s, s.threads[t]);
    }
  }

  /** Should a shared container have more connections than its limit all the same, Reserve undoes its own. */
  lemma OvershootUndone(s: State, t: nat)
    requires Known(s, t) && s.threads[t].Counted?
    ensures var c := s.threads[t].c; var s1 := Step(s, Measure(t));
            && (s1.threads[t].Refused? <==> s.conts[c].async > 1 && s.threads[t].n > s.conts[c].async)
            && (s1.threads[t].Refused? ==>
                  Step(s1, Undo(t)).conts == s.conts[c := s.conts[c].(conns := s.conts[c].conns - 1)]
                  && Step(s1, Undo(t)).threads[t] == Choosing && Step(s1, Undo(t)).workers == s.workers)
  {
    hide DoEnter, DoPost, DoRefund, DoDone;
  }

  lemma DeadStep(s: State, a: Action, w: nat)
    requires w < |s.workers| && !s.workers[w].alive
    ensures !Step(s, a).workers[w].alive && Step(s, a).workers[w].freeCPU == s.workers[w].freeCPU
  {
  }

  /** Once a worker is shut down its free CPU never changes again, whatever is still given back. */
  lemma {:induction false} DeadStaysAsItWas(s: State, acts: seq<Action>, w: nat)
    requires w < |s.workers| && !s.workers[w].alive
    ensures var r := Run(s, acts);
            w < |r.workers| && !r.workers[w].alive && r.workers[w].freeCPU == s.workers[w].freeCPU
  {
    hide Step;
    if acts != [] {
      DeadStaysAsItWas(s, acts[..|acts| - 1], w);
      DeadStep(Run(s, acts[..|acts| - 1]), acts[|acts| - 1], w);
    }
  }

  lemma ClosedStep(s: State, a: Action, w: nat)
    requires w < |s.workers| && s.workers[w].closed
    ensures Step(s, a).workers[w].closed
  {
  }

  lemma {:induction false} ClosedStays(s: State, acts: seq<Action>, w: nat)
    requires w < |s.workers| && s.workers[w].closed
    ensures w < |Run(s, acts).workers| && Run(s, acts).workers[w].closed
  {
    hide Step;
    if acts != [] {
      var before := acts[..|acts| - 1];
      ClosedStays(s, before, w);
      ClosedStep(Run(s, before), acts[|acts| - 1], w);
    }
  }

  /**
   The wait group counts the outstanding reservations; once a worker's connection is closed, no
   reservation on it is outstanding and none is ever made again, whatever runs next.
   */
  lemma DrainedBeforeClose(s: State, more: seq<Action>, w: nat)
    requires Reachable(s) && w < |s.workers|
    ensures s.workers[w].waiting == Outstanding(s, w)
    ensures !s.workers[w].alive && Outstanding(s, w) == 0 ==> Step(s, CloseConn(w)).workers[w].closed
    ensures s.workers[w].alive || Outstanding(s, w) != 0 ==> Step(s, CloseConn(w)) == s
    ensures s.workers[w].closed ==>
              forall t: nat :: t < |Run(s, more).threads| && Awaits(Run(s, more).threads[t]) ==>
                WorkerOf(Run(s, more), Run(s, more).threads[t]) != w
  {
    ReachableInv(s);
    RunInv(s, more);
    if s.workers[w].closed {
      ClosedStays(s, more, w);
      var s2 := Run(s, more);
      forall t: nat | t < |s2.threads| && Awaits(s2.threads[t]) ensures WorkerOf(s2, s2.threads[t]) != w {
        AwaitedStaysOpen(s2, t);
      }
    }
  }
}
