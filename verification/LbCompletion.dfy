/**
 How the load balancer comes to rest: every reservation can be given back, with nobody else's help, and then every
 worker can be closed.
 */
module LbCompletion {
  import opened Wrappers
  import opened Sums
  import opened LbReservation
  import opened LbInterference
  import opened LbAccounting

  ghost predicate AllIdle(s: State) {
    forall t: nat {:trigger s.threads[t]} :: t < |s.threads| ==> s.threads[t].Idle?
  }

  // ---- At rest ----

  lemma RestSums(s: State)
    requires AllIdle(s)
    ensures forall c: nat :: Occupancy(s, c) == 0
    ensures forall w: nat :: ChargedMillis(s, w) == 0 && RefundsInFlight(s, w) == 0 && Outstanding(s, w) == 0
    ensures UnpostedDebits(s) == 0
  {
    forall c: nat ensures Occupancy(s, c) == 0 {
      SumZero(|s.threads|, OccupancyOf(s, c));
    }
    forall w: nat ensures ChargedMillis(s, w) == 0 && RefundsInFlight(s, w) == 0 && Outstanding(s, w) == 0 {
      SumZero(|s.conts|, ChargeOf(s, w));
      SumZero(|s.threads|, RefundOf(s, w));
      SumZero(|s.threads|, AwaitOf(s, w));
    }
    SumZero(|s.threads|, UnpostedOf(s));
  }

  /** When no reservation is left, every container is free and every live worker has all its CPU back. */
  lemma AtRest(s: State)
    requires Reachable(s) && AllIdle(s)
    ensures s.mu == None
    ensures forall c: nat :: c < |s.conts| ==> s.conts[c].conns == 0
    ensures forall w: nat :: w < |s.workers| ==> s.workers[w].waiting == 0
    ensures forall w: nat :: w < |s.workers| && s.workers[w].alive ==> s.workers[w].freeCPU == s.workers[w].mCPU
  {
    ReachableInv(s);
    RestAt(s);
  }

  lemma MuHeld(s: State)
    requires Shape(s) && s.mu.Some?
    ensures s.mu.value < |s.threads| && UnderMu(s.threads[s.mu.value])
  {
    assert ThreadShape(s, s.mu.value);
  }

  lemma RestAt(s: State)
    requires Inv(s) && AllIdle(s)
    ensures s.mu == None
    ensures forall c: nat :: c < |s.conts| ==> s.conts[c].conns == 0
    ensures forall w: nat :: w < |s.workers| ==> s.workers[w].waiting == 0
    ensures forall w: nat :: w < |s.workers| && s.workers[w].alive ==> s.workers[w].freeCPU == s.workers[w].mCPU
  {
    RestSums(s);
    hide ChargedMillis, RefundsInFlight, Outstanding, Occupancy, GaugeConserved, Limits;
    if s.mu.Some? { MuHeld(s); }
    forall w: nat | w < |s.workers| && s.workers[w].alive ensures s.workers[w].freeCPU == s.workers[w].mCPU {
      WrapSmall(s.workers[w].mCPU);
    }
  }

  // ---- Coming to rest ----

  /** The next step of the reservation. */
  function Next(p: Thread, t: nat): Action
    requires !p.Idle?
  {
    match p
    case Picked(_) => Count(t)
    case Counted(_, _) => Measure(t)
    case Measured(_, _, _) => Enter(t)
    case Bypass(_) => Post(t)
    case Debited(_) => Post(t)
    case Refused(_) => Undo(t)
    case Holding(_) => Drop(t)
    case Dropped(_, n) => if n == 0 then Refund(t) else Done(t)
    case Refunded(_) => Done(t)
    case _ => Unlock(t)
  }

  function Left(p: Thread): nat {
    match p
    case Idle => 0
    case Choosing => 1
    case Refunded(_) => 1
    case Dropped(_, n) => if n == 0 then 2 else 1
    case Refused(_) => 2
    case Holding(_) => 3
    case Granted(_) => 4
    case Bypass(_) => 5
    case Debited(_) => 5
    case Measured(_, _, _) => 6
    case Counted(_, _) => 7
    case Picked(_) => 8
  }

  ghost predicate Nearer(s: State, s2: State, t: nat)
    requires t < |s.threads|
  {
    && |s2.threads| == |s.threads| && |s2.workers| == |s.workers|
    && s2.threads == s.threads[t := s2.threads[t]] && Left(s2.threads[t]) < Left(s.threads[t])
  }

  lemma NextStep(s: State, t: nat)
    requires t < |s.threads| && !s.threads[t].Idle? && (Known(s, t) || s.threads[t].Choosing?)
    ensures Nearer(s, Step(s, Next(s.threads[t], t)), t)
  {
    if s.threads[t].Counted? || s.threads[t].Measured? {
      ReserveNearer(s, t);
    } else {
      hide DoMeasure, DoEnter, Int32;
    }
  }

  lemma ReserveNearer(s: State, t: nat)
    requires t < |s.threads| && Known(s, t) && (s.threads[t].Counted? || s.threads[t].Measured?)
    ensures Nearer(s, Step(s, Next(s.threads[t], t)), t)
  {
    hide Int32, DoPost, DoDone, DoRefund;
  }

  /** A step of a reservation that was made, other than taking the mutex again. */
  predicate Returning(a: Action) { Actor(a).Some? && !a.Lock? && !a.PickCached? && !a.PickFresh? }

  /** The end of a worker's connection. */
  predicate Ends(a: Action) { a.Deregister? || a.Shutdown? || a.CloseConn? }

  ghost predicate Closing(acts: seq<Action>) { forall a :: a in acts ==> Returning(a) || Ends(a) }

  lemma Single(s: State, a: Action)
    ensures Run(s, [a]) == Step(s, a) && Run(s, []) == s
  {
    hide Step;
    assert Run(s, [a][..0]) == s;
  }

  ghost predicate Reaches(s: State, acts: seq<Action>, s2: State) { Closing(acts) && s2 == Run(s, acts) && Inv(s2) }

  lemma StepReaches(s: State, a: Action)
    requires Inv(s)
    ensures Reaches(s, [], s)
    ensures Returning(a) || Ends(a) ==> Reaches(s, [a], Step(s, a))
  {
    hide Step, Inv;
    StepInv(s, a);
    Single(s, a);
  }

  lemma ReachesOn(s: State, first: seq<Action>, s1: State, second: seq<Action>, s2: State)
    requires Reaches(s, first, s1) && Reaches(s1, second, s2)
    ensures Reaches(s, first + second, s2)
  {
    hide Inv, Returning, Ends;
    RunAppend(s, first, second);
  }

  /** Reservation t goes on to its end. */
  lemma EndThread(s: State, t: nat) returns (acts: seq<Action>, s2: State)
    requires Inv(s) && t < |s.threads|
    ensures Reaches(s, acts, s2) && |s2.workers| == |s.workers|
    ensures |s2.threads| == |s.threads| && s2.threads == s.threads[t := Idle]
    decreases Left(s.threads[t])
  {
    if s.threads[t].Idle? {
      acts, s2 := [], s;
      StepReaches(s, Spawn);
    } else {
      var a := Next(s.threads[t], t);
      assert ThreadShape(s, t);
      NextStep(s, t);
      hide Inv, Step, Left;
      StepReaches(s, a);
      var rest;
      rest, s2 := EndThread(Step(s, a), t);
      acts := [a] + rest;
      ReachesOn(s, [a], Step(s, a), rest, s2);
    }
  }

  lemma EndThreads(s: State, n: nat) returns (acts: seq<Action>, s2: State)
    requires Inv(s) && n <= |s.threads|
    requires forall t: nat {:trigger s.threads[t]} :: t < n ==> s.threads[t].Idle?
    ensures Reaches(s, acts, s2) && AllIdle(s2) && |s2.workers| == |s.workers|
    decreases |s.threads| - n
  {
    hide Inv;
    if n == |s.threads| {
      acts, s2 := [], s;
      StepReaches(s, Spawn);
    } else {
      var first, s1 := EndThread(s, n);
      var second;
      second, s2 := EndThreads(s1, n + 1);
      acts := first + second;
      ReachesOn(s, first, s1, second, s2);
    }
  }

  // ---- Closing the workers ----

  lemma DeregisterTo(s: State, w: nat)
    requires w < |s.workers| && s.workers[w].registered
    ensures Step(s, Deregister(w)) == SetWorker(s, w, s.workers[w].(registered := false))
  {
  }

  lemma ShutdownTo(s: State, w: nat)
    requires w < |s.workers| && !s.workers[w].registered && s.workers[w].alive && s.mu == None
    ensures Step(s, Shutdown(w)) ==
              SetWorker(s, w, s.workers[w].(alive := false)).(gauge := s.gauge - s.workers[w].freeCPU)
  {
  }

  lemma CloseConnTo(s: State, w: nat)
    requires w < |s.workers| && !s.workers[w].alive && s.workers[w].waiting == 0
    ensures Step(s, CloseConn(w)) == SetWorker(s, w, s.workers[w].(closed := true))
  {
  }

  ghost predicate OnlyWorker(s: State, s2: State, w: nat) {
    w < |s.workers| == |s2.workers| && s2.workers == s.workers[w := s2.workers[w]] && s2.threads == s.threads
  }

  /** Steps left until the worker is closed. */
  function ToClose(k: Worker): nat {
    (if k.registered then 1 else 0) + (if k.alive then 1 else 0) + if k.closed then 0 else 1
  }

  /** The worker leaves the registry, is shut down, and its connection is closed. */
  lemma EndWorker(s: State, w: nat) returns (acts: seq<Action>, s2: State)
    requires Inv(s) && AllIdle(s) && w < |s.workers|
    ensures Reaches(s, acts, s2) && OnlyWorker(s, s2, w) && !s2.workers[w].alive && s2.workers[w].closed
    decreases ToClose(s.workers[w])
  {
    assert DrainsAt(s, w);
    RestAt(s);
    hide Inv, Step;
    if s.workers[w].closed {
      acts, s2 := [], s;
      StepReaches(s, Spawn);
    } else {
      var a;
      if s.workers[w].registered {
        a := Deregister(w);
        DeregisterTo(s, w);
      } else if s.workers[w].alive {
        a := Shutdown(w);
        ShutdownTo(s, w);
      } else {
        a := CloseConn(w);
        CloseConnTo(s, w);
      }
      StepReaches(s, a);
      var rest;
      rest, s2 := EndWorker(Step(s, a), w);
      acts := [a] + rest;
      ReachesOn(s, [a], Step(s, a), rest, s2);
    }
  }

  lemma EndWorkers(s: State, n: nat) returns (acts: seq<Action>, s2: State)
    requires Inv(s) && AllIdle(s) && n <= |s.workers|
    requires forall w: nat {:trigger s.workers[w]} :: w < n ==> !s.workers[w].alive && s.workers[w].closed
    ensures Reaches(s, acts, s2) && AllIdle(s2)
    ensures forall w: nat {:trigger s2.workers[w]} :: w < |s2.workers| ==> !s2.workers[w].alive && s2.workers[w].closed
    decreases |s.workers| - n
  {
    hide Inv;
    if n == |s.workers| {
      acts, s2 := [], s;
      StepReaches(s, Spawn);
    } else {
      var first, s1 := EndWorker(s, n);
      var second;
      second, s2 := EndWorkers(s1, n + 1);
      acts := first + second;
      ReachesOn(s, first, s1, second, s2);
    }
  }

  ghost predicate AllClosed(s: State) {
    forall w: nat :: w < |s.workers| ==> !s.workers[w].alive && s.workers[w].closed
  }

  lemma ClosedFree(s: State)
    requires AllClosed(s)
    ensures FreeOfAlive(s) == 0
  {
    SumZero(|s.workers|, FreeOf(s));
  }

  /**
   From wherever a run has got to, every reservation can be given back and every worker be closed, with no new
   reservation.  Then no container has a connection, and the gauge is back at 0, up to the refunds and reservations that
   wrapped on the way.
   */
  lemma EverythingCloses(before: seq<Action>)
    ensures exists acts :: var s := Run(Init, before + acts);
              && Closing(acts) && AllIdle(s) && AllClosed(s)
              && (forall c: nat :: c < |s.conts| ==> s.conts[c].conns == 0)
              && s.gauge == 0x1_0000_0000 * (WrapCount(Init, before + acts) - DownCount(Init, before + acts))
  {
    InitInv();
    RunInv(Init, before);
    hide Run, Step, Inv, WrapCount, DownCount, AllIdle, AllClosed, Returning, Ends;
    var acts, s2 := EndAll(Run(Init, before));
    RunAppend(Init, before, acts);
    ClosedAt(before + acts, s2);
  }

  lemma EndAll(s: State) returns (acts: seq<Action>, s2: State)
    requires Inv(s)
    ensures Reaches(s, acts, s2) && AllIdle(s2) && AllClosed(s2)
  {
    hide Inv, Reaches;
    var first, s1 := EndThreads(s, 0);
    InvReached(s, first, s1);
    var second;
    second, s2 := EndWorkers(s1, 0);
    acts := first + second;
    ReachesOn(s, first, s1, second, s2);
  }

  lemma InvReached(s: State, acts: seq<Action>, s2: State)
    requires Reaches(s, acts, s2)
    ensures Inv(s2)
  {
  }

  lemma ClosedAt(acts: seq<Action>, s: State)
    requires s == Run(Init, acts) && Inv(s) && AllIdle(s) && AllClosed(s)
    ensures forall c: nat :: c < |s.conts| ==> s.conts[c].conns == 0
    ensures s.gauge == 0x1_0000_0000 * (WrapCount(Init, acts) - DownCount(Init, acts))
  {
    hide Run, Step, Inv, WrapCount, DownCount, FreeOfAlive, UnpostedDebits;
    RestAt(s);
    RestSums(s);
    ClosedFree(s);
    DriftExactly(acts);
  }
}
