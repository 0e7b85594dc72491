/**
 CPU accounting of the load balancer: Worker.reserve/release/Shutdown and WorkerContainer.Reserve/Release
 as a step machine.  One step is one atomic action of the Go code: an atomic read or add, or one
 section under the worker's mutex.  Reservations run under the server mutex `mu`; releases do not.

 A thread is one reservation: the loop of grabWorkerContainer that makes it and the deferred
 Release that ends it.  Workers and containers are pointers in the source; here they are indices.
 */
module LbReservation {
  import opened Sums
  import opened Wrappers

  /** Milli-CPU amounts that int32(mCPU) keeps unchanged. */
  type Millis = x: int | 0 <= x < 0x8000_0000

  datatype Worker = Worker(
    mCPU: Millis,
    defaultMCPU: Millis,
    freeMemory: nat,
    freeCPU: int,
    registered: bool,   // present in Server.workers
    alive: bool,
    waiting: int,       // waitGroup counter
    closed: bool)       // conn.Close() was called

  datatype Cont = Cont(worker: nat, mCPU: Millis, async: nat, conns: int)

  datatype Thread =
    | Idle
    | Choosing                                  // holds mu, in the loop of grabWorkerContainer
    | Picked(c: nat)                            // container chosen, Reserve not yet called
    | Counted(c: nat, n: int)                   // conns became n by our increment
    | Measured(c: nat, n: int, required: bool)  // FreeCPU() was compared with mCPU
    | Bypass(c: nat)                            // n > 1 and Alive() was true
    | Debited(c: nat)                           // freeCPU charged, gauge not yet
    | Refused(c: nat)                           // increment about to be undone
    | Granted(c: nat)                           // Reserve succeeded, mu still held
    | Holding(c: nat)                           // running, mu not held
    | Dropped(c: nat, n: int)                   // Release took conns down to n
    | Refunded(c: nat)                          // refund section done, Done() not yet called

  datatype State = State(
    workers: seq<Worker>,
    conts: seq<Cont>,
    threads: seq<Thread>,
    mu: Option<nat>,
    gauge: int)

  datatype Action =
    | Register(mCPU: Millis, defaultMCPU: Millis, memory: nat)
    | Deregister(w: nat)                        // the entry leaves the LRU cache, callback still to come
    | Shutdown(w: nat)                          // eviction callback, under mu
    | CloseConn(w: nat)                         // goroutine of Shutdown after waitGroup.Wait()
    | Spawn
    | Lock(t: nat)
    | PickCached(t: nat, cont: nat)
    | PickFresh(t: nat, w: nat, async: nat, mCPU: Millis)
    | Count(t: nat)
    | Measure(t: nat)
    | Enter(t: nat)
    | Post(t: nat)
    | Undo(t: nat)
    | Unlock(t: nat)
    | Drop(t: nat)
    | Refund(t: nat)
    | Done(t: nat)

  /** Two's complement wrap-around of a 32-bit addition. */
  function Int32(x: int): int {
    (x + 0x8000_0000) % 0x1_0000_0000 - 0x8000_0000
  }

  const Init := State([], [], [], None, 0)

  predicate Known(s: State, t: nat) {
    t < |s.threads| && !s.threads[t].Idle? && !s.threads[t].Choosing?
    && s.threads[t].c < |s.conts| && s.conts[s.threads[t].c].worker < |s.workers|
  }

  function Move(s: State, t: nat, p: Thread): State
    requires t < |s.threads|
  {
    s.(threads := s.threads[t := p])
  }

  function AddConns(s: State, c: nat, d: int): State
    requires c < |s.conts|
  {
    s.(conts := s.conts[c := s.conts[c].(conns := s.conts[c].conns + d)])
  }

  function SetWorker(s: State, w: nat, v: Worker): State
    requires w < |s.workers|
  {
    s.(workers := s.workers[w := v])
  }

  // WorkerContainer.Reserve after the increment: the async limit, then the FreeCPU() test.
  function DoMeasure(s: State, t: nat): State
    requires Known(s, t) && s.threads[t].Counted?
  {
    var p := s.threads[t];
    var k := s.conts[p.c];
    if k.async > 1 && p.n > k.async then
      Move(s, t, Refused(p.c))
    else
      Move(s, t, Measured(p.c, p.n, s.workers[k.worker].freeCPU > k.mCPU))
  }

  /** Worker.reserve takes its charging branch. */
  predicate Pays(s: State, t: nat)
    requires Known(s, t) && s.threads[t].Measured?
  {
    var p := s.threads[t];
    var k := s.conts[p.c];
    var w := s.workers[k.worker];
    w.alive && p.n <= 1 && !(p.required && w.freeCPU < k.mCPU)
  }

  // Worker.reserve
  function DoEnter(s: State, t: nat): State
    requires Known(s, t) && s.threads[t].Measured?
  {
    var p := s.threads[t];
    var k := s.conts[p.c];
    var w := s.workers[k.worker];
    if p.n > 1 && w.alive then
      Move(s, t, Bypass(p.c))
    else if !w.alive || (p.required && w.freeCPU < k.mCPU) then
      Move(s, t, Refused(p.c))
    else
      Move(SetWorker(s, k.worker, w.(freeCPU := Int32(w.freeCPU - k.mCPU), waiting := w.waiting + 1)),
           t, Debited(p.c))
  }

  // The rest of Worker.reserve: waitGroup.Add(1) on the bypass, the gauge debit otherwise.
  function DoPost(s: State, t: nat): State
    requires Known(s, t) && (s.threads[t].Bypass? || s.threads[t].Debited?)
  {
    var p := s.threads[t];
    var k := s.conts[p.c];
    var w := s.workers[k.worker];
    if p.Bypass? then
      Move(SetWorker(s, k.worker, w.(waiting := w.waiting + 1)), t, Granted(p.c))
    else
      Move(s, t, Granted(p.c)).(gauge := s.gauge - k.mCPU)
  }

  // Worker.release, the section under the worker's mutex.
  function DoRefund(s: State, t: nat): State
    requires Known(s, t) && s.threads[t].Dropped?
  {
    var p := s.threads[t];
    var k := s.conts[p.c];
    var w := s.workers[k.worker];
    if w.alive then
      Move(SetWorker(s, k.worker, w.(freeCPU := Int32(w.freeCPU + k.mCPU))), t, Refunded(p.c))
        .(gauge := s.gauge + k.mCPU)
    else
      Move(s, t, Refunded(p.c))
  }

  function DoDone(s: State, t: nat): State
    requires Known(s, t)
  {
    var k := s.conts[s.threads[t].c];
    var w := s.workers[k.worker];
    Move(SetWorker(s, k.worker, w.(waiting := w.waiting - 1)), t, Idle)
  }

  function Actor(a: Action): Option<nat> {
    match a
    case Register(_, _, _) => None
    case Spawn => None
    case Deregister(_) => None
    case Shutdown(_) => None
    case CloseConn(_) => None
    case Lock(t) => Some(t)
    case PickCached(t, _) => Some(t)
    case PickFresh(t, _, _, _) => Some(t)
    case Count(t) => Some(t)
    case Measure(t) => Some(t)
    case Enter(t) => Some(t)
    case Post(t) => Some(t)
    case Undo(t) => Some(t)
    case Unlock(t) => Some(t)
    case Drop(t) => Some(t)
    case Refund(t) => Some(t)
    case Done(t) => Some(t)
  }

  predicate Enabled(s: State, a: Action) {
    match a
    case Register(_, _, _) => true
    case Spawn => true
    case Deregister(w) => w < |s.workers| && s.workers[w].registered
    case Shutdown(w) => w < |s.workers| && !s.workers[w].registered && s.workers[w].alive && s.mu.None?
    case CloseConn(w) => w < |s.workers| && !s.workers[w].alive && s.workers[w].waiting == 0
    case Lock(t) => t < |s.threads| && s.threads[t].Idle? && s.mu.None?
    case PickCached(t, c) =>
      // The selection loop offers a shared container only while Conns() < Async.
      t < |s.threads| && s.threads[t].Choosing? && c < |s.conts| && s.conts[c].worker < |s.workers|
      && (s.conts[c].async > 1 ==> s.conts[c].conns < s.conts[c].async)
    case PickFresh(t, w, async, _) =>
      // The worker was registered when the scan read it; it cannot be shut down while mu is held.
      t < |s.threads| && s.threads[t].Choosing? && w < |s.workers| && s.workers[w].alive
    case Count(t) => Known(s, t) && s.threads[t].Picked?
    case Measure(t) => Known(s, t) && s.threads[t].Counted?
    case Enter(t) => Known(s, t) && s.threads[t].Measured?
    case Post(t) => Known(s, t) && (s.threads[t].Bypass? || s.threads[t].Debited?)
    case Undo(t) => Known(s, t) && s.threads[t].Refused?
    case Unlock(t) => t < |s.threads| && (s.threads[t].Granted? || s.threads[t].Choosing?)
    case Drop(t) => Known(s, t) && s.threads[t].Holding?
    case Refund(t) => Known(s, t) && s.threads[t].Dropped? && s.threads[t].n == 0
    case Done(t) => Known(s, t) && ((s.threads[t].Dropped? && s.threads[t].n != 0) || s.threads[t].Refunded?)
  }

  /** The step itself; an action that cannot happen changes nothing. */
  function Step(s: State, a: Action): (r: State)
    ensures |s.workers| <= |r.workers| && |s.conts| <= |r.conts| && |s.threads| <= |r.threads|
  {
    if !Enabled(s, a) then s
    else if Actor(a).None? then Happen(s, a)
    else Act(s, a)
  }

  /** A step of the environment: registration, eviction, closing. */
  function Happen(s: State, a: Action): (r: State)
    requires Enabled(s, a) && Actor(a).None?
    ensures |s.workers| <= |r.workers| && |s.conts| == |r.conts| && |s.threads| <= |r.threads|
  {
    match a
    case Register(mCPU, defaultMCPU, memory) =>
      s.(workers := s.workers + [Worker(mCPU, defaultMCPU, memory, mCPU, true, true, 0, false)],
        gauge := s.gauge + mCPU)
    case Spawn => s.(threads := s.threads + [Idle])
    case Deregister(w) => SetWorker(s, w, s.workers[w].(registered := false))
    case Shutdown(w) =>
      SetWorker(s, w, s.workers[w].(alive := false)).(gauge := s.gauge - s.workers[w].freeCPU)
    case CloseConn(w) => SetWorker(s, w, s.workers[w].(closed := true))
  }

  /** A step of one reservation. */
  function Act(s: State, a: Action): (r: State)
    requires Enabled(s, a) && Actor(a).Some?
    ensures |s.workers| == |r.workers| && |s.conts| <= |r.conts| && |s.threads| == |r.threads|
  {
    match a
    case Lock(t) => Move(s, t, Choosing).(mu := Some(t))
    case PickCached(t, c) => Move(s, t, Picked(c))
    case PickFresh(t, w, async, mCPU) =>
      Move(s, t, Picked(|s.conts|)).(conts := s.conts + [Cont(w, mCPU, async, 0)])
    case Count(t) =>
      var c := s.threads[t].c;
      Move(AddConns(s, c, 1), t, Counted(c, s.conts[c].conns + 1))
    case Measure(t) => DoMeasure(s, t)
    case Enter(t) => DoEnter(s, t)
    case Post(t) => DoPost(s, t)
    case Undo(t) => Move(AddConns(s, s.threads[t].c, -1), t, Choosing)
    case Unlock(t) =>
      Move(s, t, if s.threads[t].Granted? then Holding(s.threads[t].c) else Idle).(mu := None)
    case Drop(t) =>
      var c := s.threads[t].c;
      Move(AddConns(s, c, -1), t, Dropped(c, s.conts[c].conns - 1))
    case Refund(t) => DoRefund(s, t)
    case Done(t) => DoDone(s, t)
  }

  function Run(s: State, acts: seq<Action>): State {
    if acts == [] then s else Step(Run(s, acts[..|acts| - 1]), acts[|acts| - 1])
  }

  // ---- What a thread contributes ----

  /** The thread's increment is part of conns of container c. */
  predicate Occupies(p: Thread, c: nat) {
    (p.Counted? || p.Measured? || p.Bypass? || p.Debited? || p.Refused? || p.Granted? || p.Holding?) && p.c == c
  }

  /** The thread keeps the charge of container c in place: it holds the container, or will join it without paying. */
  predicate Claims(p: Thread, c: nat) {
    || ((p.Bypass? || p.Debited? || p.Granted? || p.Holding?) && p.c == c)
    || ((p.Counted? || p.Measured?) && p.c == c && p.n > 1)
  }

  predicate Awaits(p: Thread) {
    p.Debited? || p.Granted? || p.Holding? || p.Dropped? || p.Refunded?
  }

  predicate UnderMu(p: Thread) {
    p.Choosing? || p.Picked? || p.Counted? || p.Measured? || p.Bypass? || p.Debited? || p.Refused? || p.Granted?
  }

  ghost predicate Charged(s: State, c: nat) {
    exists t: nat :: t < |s.threads| && Claims(s.threads[t], c)
  }

  function WorkerOf(s: State, p: Thread): int {
    if !p.Idle? && !p.Choosing? && p.c < |s.conts| then s.conts[p.c].worker else -1
  }

  ghost function OccupancyOf(s: State, c: nat): nat -> int {
    (t: nat) => if t < |s.threads| && Occupies(s.threads[t], c) then 1 else 0
  }

  ghost function AwaitOf(s: State, w: nat): nat -> int {
    (t: nat) => if t < |s.threads| && Awaits(s.threads[t]) && WorkerOf(s, s.threads[t]) == w then 1 else 0
  }

  ghost function ChargeOf(s: State, w: nat): nat -> int {
    (c: nat) => if c < |s.conts| && s.conts[c].worker == w && Charged(s, c) then s.conts[c].mCPU else 0
  }

  ghost function RefundOf(s: State, w: nat): nat -> int {
    (t: nat) =>
      if t < |s.threads| && s.threads[t].Dropped? && s.threads[t].n == 0 && WorkerOf(s, s.threads[t]) == w
      then s.conts[s.threads[t].c].mCPU else 0
  }

  ghost function FreeOf(s: State): nat -> int {
    (w: nat) => if w < |s.workers| && s.workers[w].alive then s.workers[w].freeCPU else 0
  }

  ghost function UnpostedOf(s: State): nat -> int {
    (t: nat) => if t < |s.threads| && s.threads[t].Debited? && s.threads[t].c < |s.conts|
      then s.conts[s.threads[t].c].mCPU else 0
  }

  /** Number of connections counted on c by live reservations. */
  ghost function Occupancy(s: State, c: nat): int { SumTo(|s.threads|, OccupancyOf(s, c)) }

  /** Reservations on worker w that have not called Done(). */
  ghost function Outstanding(s: State, w: nat): int { SumTo(|s.threads|, AwaitOf(s, w)) }

  /** mCPU of w's containers with a settled connection. */
  ghost function ChargedMillis(s: State, w: nat): int { SumTo(|s.conts|, ChargeOf(s, w)) }

  /** mCPU of refunds whose container already counts no connection but which were not applied yet. */
  ghost function RefundsInFlight(s: State, w: nat): int { SumTo(|s.threads|, RefundOf(s, w)) }

  ghost function FreeOfAlive(s: State): int { SumTo(|s.workers|, FreeOf(s)) }

  ghost function UnpostedDebits(s: State): int { SumTo(|s.threads|, UnpostedOf(s)) }

  /** What freeCPU would be without 32-bit wrap-around. */
  ghost function Balance(s: State, w: nat): int
    requires w < |s.workers|
  {
    s.workers[w].mCPU - ChargedMillis(s, w) - RefundsInFlight(s, w)
  }

  // ---- The invariant ----

  ghost predicate ThreadShape(s: State, t: nat)
    requires t < |s.threads|
  {
    var p := s.threads[t];
    && (!p.Idle? && !p.Choosing? ==> p.c < |s.conts|)
    && (UnderMu(p) <==> s.mu == Some(t))
  }

  ghost predicate Shape(s: State) {
    && (forall c: nat :: c < |s.conts| ==> s.conts[c].worker < |s.workers|)
    && (forall t: nat {:trigger s.threads[t]} :: t < |s.threads| ==> ThreadShape(s, t))
    && (s.mu.Some? ==> s.mu.value < |s.threads|)
  }

  ghost predicate ConnsAreOccupancy(s: State) {
    forall c: nat :: c < |s.conts| ==> s.conts[c].conns == Occupancy(s, c)
  }

  /** What a thread under mu still knows about its container, whatever releases ran meanwhile. */
  ghost predicate Justified(s: State, p: Thread) {
    !p.Idle? && !p.Choosing? && p.c < |s.conts| && s.conts[p.c].worker < |s.workers| ==>
      var k := s.conts[p.c];
      var alive := s.workers[k.worker].alive;
      && (p.Picked? && k.async > 1 ==> k.conns < k.async)
      && (p.Counted? || p.Measured? ==> k.conns <= p.n && 1 <= p.n && (k.async > 1 ==> p.n <= k.async))
      && (p.Bypass? || p.Debited? || p.Granted? ==> alive)
      && (p.Refused? && alive ==> k.conns <= 1)
  }

  ghost predicate Limits(s: State) {
    && (forall c: nat :: c < |s.conts| && s.conts[c].async > 1 ==> s.conts[c].conns <= s.conts[c].async)
    && (forall t: nat :: t < |s.threads| ==> Justified(s, s.threads[t]))
  }

  ghost predicate WaitsAreOutstanding(s: State) {
    forall w: nat :: w < |s.workers| ==> s.workers[w].waiting == Outstanding(s, w)
  }

  /** freeCPU, settled charges and refunds in flight add up to the worker's mCPU. */
  ghost predicate CpuConserved(s: State) {
    forall w: nat :: w < |s.workers| && s.workers[w].alive ==> s.workers[w].freeCPU == Int32(Balance(s, w))
  }

  ghost predicate GaugeConserved(s: State) {
    (s.gauge - FreeOfAlive(s) - UnpostedDebits(s)) % 0x1_0000_0000 == 0
  }

  ghost predicate DrainsAt(s: State, w: nat)
    requires w < |s.workers|
  {
    && (s.workers[w].registered ==> s.workers[w].alive)
    && (s.workers[w].closed ==> !s.workers[w].alive && s.workers[w].waiting == 0)
  }

  ghost predicate Drains(s: State) {
    forall w: nat {:trigger s.workers[w]} :: w < |s.workers| ==> DrainsAt(s, w)
  }

  ghost predicate Inv(s: State) {
    && Shape(s) && ConnsAreOccupancy(s) && Limits(s) && WaitsAreOutstanding(s)
    && CpuConserved(s) && GaugeConserved(s) && Drains(s)
  }

  // ---- Every step keeps the invariant ----

  /** s2 differs from s1 in at most thread t and, in containers, at most in their counters. */
  ghost predicate OnlyThread(s1: State, s2: State, t: nat) {
    && t < |s1.threads| == |s2.threads|
    && (forall u: nat :: u < |s1.threads| && u != t ==> s2.threads[u] == s1.threads[u])
    && |s1.conts| <= |s2.conts|
    && (forall c: nat :: c < |s1.conts| ==> s2.conts[c].(conns := 0) == s1.conts[c].(conns := 0))
  }

  ghost predicate SameThreads(s1: State, s2: State) {
    && |s1.threads| <= |s2.threads|
    && (forall t: nat :: t < |s1.threads| ==> s2.threads[t] == s1.threads[t])
    && (forall t: nat :: |s1.threads| <= t < |s2.threads| ==> s2.threads[t] == Idle)
    && s1.conts == s2.conts
  }

  lemma StepFrame(s: State, a: Action)
    requires Enabled(s, a)
    ensures Actor(a).Some? ==> OnlyThread(s, Step(s, a), Actor(a).value)
    ensures Actor(a).None? ==> SameThreads(s, Step(s, a))
    ensures |s.workers| <= |Step(s, a).workers|
    ensures forall w: nat :: w < |s.workers| ==> Step(s, a).workers[w].mCPU == s.workers[w].mCPU
  {
  }

  lemma {:induction false} SumIdleTail(n: nat, m: nat, f: nat -> int)
    requires n <= m
    requires forall i: nat :: n <= i < m ==> f(i) == 0
    ensures SumTo(m, f) == SumTo(n, f)
  {
    if n < m { SumIdleTail(n, m - 1, f); }
  }

  lemma SumSameThreads(s1: State, s2: State, f: nat -> int, g: nat -> int)
    requires SameThreads(s1, s2)
    requires forall t: nat :: t < |s1.threads| ==> f(t) == g(t)
    requires forall t: nat :: |s1.threads| <= t < |s2.threads| ==> g(t) == 0
    ensures SumTo(|s2.threads|, g) == SumTo(|s1.threads|, f)
  {
    SumSame(|s1.threads|, f, g);
    SumIdleTail(|s1.threads|, |s2.threads|, g);
  }

  lemma StepDisabled(s: State, a: Action)
    ensures !Enabled(s, a) ==> Step(s, a) == s
  {
  }

  lemma ContShape(s: State, a: Action, c: nat)
    requires Shape(s) && c < |Step(s, a).conts|
    ensures Step(s, a).conts[c].worker < |Step(s, a).workers|
  {
  }

  lemma ActorShape(s: State, a: Action, t: nat)
    requires Shape(s) && Enabled(s, a) && Actor(a) == Some(t)
    ensures t < |s.threads| && ThreadShape(Act(s, a), t)
  {
    assert ThreadShape(s, t);
    hide Shape;
  }

  lemma BystanderShape(s: State, a: Action, t: nat)
    requires Shape(s) && Enabled(s, a) && Actor(a).Some? && Actor(a) != Some(t) && t < |s.threads|
    ensures ThreadShape(Act(s, a), t)
  {
    assert ThreadShape(s, t);
    assert Actor(a).value < |s.threads| && ThreadShape(s, Actor(a).value);
    hide Shape;
  }

  lemma StepThreadShape(s: State, a: Action, t: nat)
    requires Shape(s) && t < |Step(s, a).threads|
    ensures ThreadShape(Step(s, a), t)
  {
    if t < |s.threads| { assert ThreadShape(s, t); }
    if Enabled(s, a) && Actor(a).Some? {
      hide Act;
      if Actor(a) == Some(t) { ActorShape(s, a, t); } else { BystanderShape(s, a, t); }
    }
  }

  lemma MuShape(s: State, a: Action)
    requires s.mu.Some? ==> s.mu.value < |s.threads|
    ensures Step(s, a).mu.Some? ==> Step(s, a).mu.value < |Step(s, a).threads|
  {
  }

  lemma StepShape(s: State, a: Action)
    requires Shape(s)
    ensures Shape(Step(s, a))
  {
    hide Step;
    var r := Step(s, a);
    forall c: nat | c < |r.conts| ensures r.conts[c].worker < |r.workers| { ContShape(s, a, c); }
    forall t: nat | t < |r.threads| ensures ThreadShape(r, t) { StepThreadShape(s, a, t); }
    MuShape(s, a);
  }

  lemma OccupancyStep(s: State, a: Action, c: nat)
    requires Enabled(s, a) && Shape(s)
    ensures Actor(a).None? ==> Occupancy(Step(s, a), c) == Occupancy(s, c)
    ensures Actor(a).Some? ==>
              var t := Actor(a).value;
              Occupancy(Step(s, a), c) == Occupancy(s, c) - OccupancyOf(s, c)(t) + OccupancyOf(Step(s, a), c)(t)
  {
    var s2 := Step(s, a);
    StepFrame(s, a);
    if Actor(a).Some? {
      SumChange(|s.threads|, OccupancyOf(s, c), OccupancyOf(s2, c), Actor(a).value);
    } else {
      SumSameThreads(s, s2, OccupancyOf(s, c), OccupancyOf(s2, c));
    }
  }

  lemma StepConns(s: State, a: Action)
    requires Shape(s) && ConnsAreOccupancy(s)
    ensures ConnsAreOccupancy(Step(s, a))
  {
    if Enabled(s, a) {
      var s2 := Step(s, a);
      forall c: nat | c < |s2.conts| ensures s2.conts[c].conns == Occupancy(s2, c) {
        OccupancyStep(s, a, c);
        if c == |s.conts| {
          SumSame(|s.threads|, OccupancyOf(s, c), (t: nat) => 0);
          SumIdleTail(0, |s.threads|, (t: nat) => 0);
        }
      }
    }
  }

  /** Two occupants need two connections. */
  lemma Occupants(s: State, c: nat, t: nat, u: nat)
    requires ConnsAreOccupancy(s) && c < |s.conts|
    requires t < |s.threads| && Occupies(s.threads[t], c)
    requires u < |s.threads| && Occupies(s.threads[u], c)
    ensures 1 <= s.conts[c].conns && (t != u ==> 2 <= s.conts[c].conns)
  {
    SumAtLeast(|s.threads|, OccupancyOf(s, c), t);
    if t < u {
      SumAtLeastTwo(|s.threads|, OccupancyOf(s, c), t, u);
    } else if u < t {
      SumAtLeastTwo(|s.threads|, OccupancyOf(s, c), u, t);
    }
  }

  lemma AnOccupant(s: State, c: nat) returns (t: nat)
    requires ConnsAreOccupancy(s) && c < |s.conts| && 0 < s.conts[c].conns
    ensures t < |s.threads| && Occupies(s.threads[t], c)
  {
    t := SumWitness(|s.threads|, OccupancyOf(s, c));
  }

  lemma ConnsNonNegative(s: State, c: nat)
    requires ConnsAreOccupancy(s) && c < |s.conts|
    ensures 0 <= s.conts[c].conns
  {
    SumNonNegative(|s.threads|, OccupancyOf(s, c));
  }

  lemma StepAsync(s: State, a: Action, c: nat)
    requires Shape(s) && ConnsAreOccupancy(s) && Limits(s) && c < |Step(s, a).conts|
    ensures Step(s, a).conts[c].async > 1 ==> Step(s, a).conts[c].conns <= Step(s, a).conts[c].async
  {
    if Enabled(s, a) && a.Count? {
      assert Justified(s, s.threads[a.t]);
    }
  }

  lemma JustifiedActor(s: State, a: Action, t: nat)
    requires Shape(s) && Enabled(s, a) && Actor(a) == Some(t) && Justified(s, s.threads[t])
    requires a.Count? ==> 0 <= s.conts[s.threads[t].c].conns
    ensures Justified(Step(s, a), Step(s, a).threads[t])
  {
  }

  /** A thread under mu meets only releases, registrations and LRU removals of others. */
  lemma JustifiedOther(s: State, a: Action, t: nat)
    requires Shape(s) && Limits(s) && Enabled(s, a) && Actor(a) != Some(t) && t < |s.threads|
    ensures Justified(Step(s, a), s.threads[t])
  {
    if UnderMu(s.threads[t]) {
      assert Justified(s, s.threads[t]);
    }
  }

  lemma StepLimits(s: State, a: Action)
    requires Shape(s) && ConnsAreOccupancy(s) && Limits(s)
    ensures Limits(Step(s, a))
  {
    hide Step;
    StepDisabled(s, a);
    if Enabled(s, a) {
      var s2 := Step(s, a);
      StepFrame(s, a);
      forall c: nat | c < |s2.conts| ensures s2.conts[c].async > 1 ==> s2.conts[c].conns <= s2.conts[c].async {
        StepAsync(s, a, c);
      }
      forall t: nat | t < |s2.threads| ensures Justified(s2, s2.threads[t]) {
        if Actor(a) == Some(t) {
          assert Justified(s, s.threads[t]);
          if a.Count? { ConnsNonNegative(s, s.threads[t].c); }
          JustifiedActor(s, a, t);
        } else if t < |s.threads| { JustifiedOther(s, a, t); }
      }
    }
  }

  lemma OutstandingStep(s: State, a: Action, w: nat)
    requires Enabled(s, a) && Shape(s)
    ensures Actor(a).None? ==> Outstanding(Step(s, a), w) == Outstanding(s, w)
    ensures Actor(a).Some? ==>
              var t := Actor(a).value;
              Outstanding(Step(s, a), w) == Outstanding(s, w) - AwaitOf(s, w)(t) + AwaitOf(Step(s, a), w)(t)
  {
    var s2 := Step(s, a);
    StepFrame(s, a);
    if Actor(a).Some? {
      SumChange(|s.threads|, AwaitOf(s, w), AwaitOf(s2, w), Actor(a).value);
    } else {
      SumSameThreads(s, s2, AwaitOf(s, w), AwaitOf(s2, w));
    }
  }

  lemma StepWaits(s: State, a: Action)
    requires Shape(s) && WaitsAreOutstanding(s)
    ensures WaitsAreOutstanding(Step(s, a))
  {
    if Enabled(s, a) {
      var s2 := Step(s, a);
      forall w: nat | w < |s2.workers| ensures s2.workers[w].waiting == Outstanding(s2, w) {
        OutstandingStep(s, a, w);
        if w == |s.workers| {
          SumSame(|s.threads|, AwaitOf(s, w), (t: nat) => 0);
          SumIdleTail(0, |s.threads|, (t: nat) => 0);
        }
      }
    }
  }

  /** A thread that still has to call Done() keeps its worker's connection open. */
  lemma AwaitedStaysOpen(s: State, t: nat)
    requires Shape(s) && WaitsAreOutstanding(s) && Drains(s)
    requires t < |s.threads| && Awaits(s.threads[t])
    ensures 1 <= s.workers[s.conts[s.threads[t].c].worker].waiting
    ensures !s.workers[s.conts[s.threads[t].c].worker].closed
  {
    var w := s.conts[s.threads[t].c].worker;
    SumAtLeast(|s.threads|, AwaitOf(s, w), t);
  }

  lemma StepDrainsAt(s: State, a: Action, w: nat)
    requires Shape(s) && Drains(s) && Enabled(s, a) && w < |Step(s, a).workers|
    requires a.Post? ==> Justified(s, s.threads[a.t])
    requires a.Done? ==> !s.workers[s.conts[s.threads[a.t].c].worker].closed
    ensures DrainsAt(Step(s, a), w)
  {
    if w < |s.workers| { assert DrainsAt(s, w); }
  }

  lemma StepDrains(s: State, a: Action)
    requires Shape(s) && Limits(s) && WaitsAreOutstanding(s) && Drains(s)
    ensures Drains(Step(s, a))
  {
    hide Step;
    StepDisabled(s, a);
    if Enabled(s, a) {
      if a.Post? { assert Justified(s, s.threads[a.t]); }
      if a.Done? { AwaitedStaysOpen(s, a.t); }
      forall w: nat | w < |Step(s, a).workers| ensures DrainsAt(Step(s, a), w) { StepDrainsAt(s, a, w); }
    }
  }

  // ---- CPU conservation ----

  lemma ClaimsOccupy(s: State, c: nat)
    requires ConnsAreOccupancy(s) && c < |s.conts|
    ensures Charged(s, c) ==> 1 <= s.conts[c].conns
  {
    if Charged(s, c) {
      var t: nat :| t < |s.threads| && Claims(s.threads[t], c);
      Occupants(s, c, t, t);
    }
  }

  /** Whoever else is counted on a container with at least two connections keeps its charge. */
  lemma SharedIsCharged(s: State, c: nat, u: nat)
    requires Shape(s) && Limits(s) && c < |s.conts| && s.workers[s.conts[c].worker].alive
    requires u < |s.threads| && Occupies(s.threads[u], c)
    requires 2 <= s.conts[c].conns || s.threads[u].Holding?
    ensures Charged(s, c)
  {
    assert Justified(s, s.threads[u]);
    assert Claims(s.threads[u], c);
  }

  /** Only the actor's own container can change between charged and free. */
  lemma ChargeElsewhere(s: State, a: Action, c: nat)
    requires Shape(s) && Enabled(s, a) && c < |s.conts|
    requires Actor(a).Some? ==>
               var t := Actor(a).value;
               !Claims(s.threads[t], c) && !Claims(Step(s, a).threads[t], c)
    ensures Charged(Step(s, a), c) == Charged(s, c)
  {
    var s2 := Step(s, a);
    StepFrame(s, a);
    if Charged(s, c) {
      var u: nat :| u < |s.threads| && Claims(s.threads[u], c);
      assert Claims(s2.threads[u], c);
    }
    if Charged(s2, c) {
      var u: nat :| u < |s2.threads| && Claims(s2.threads[u], c);
      assert Claims(s.threads[u], c);
    }
  }

  lemma ChargeKept(s: State, a: Action, t: nat, c: nat)
    requires Shape(s) && Enabled(s, a) && c < |s.conts| && Actor(a) == Some(t)
    requires Claims(s.threads[t], c) && Claims(Step(s, a).threads[t], c)
    ensures Charged(s, c) && Charged(Step(s, a), c)
  {
  }

  lemma ChargeAtCount(s: State, t: nat, c: nat)
    requires Inv(s) && Enabled(s, Count(t)) && c == s.threads[t].c && s.workers[s.conts[c].worker].alive
    ensures Charged(Step(s, Count(t)), c) == Charged(s, c)
  {
    var s2 := Step(s, Count(t));
    ConnsNonNegative(s, c);
    if 0 < s.conts[c].conns {
      var u := AnOccupant(s, c);
      assert u != t && s.mu == Some(t);
      SharedIsCharged(s, c, u);
      assert Claims(s2.threads[u], c);
    } else {
      ClaimsOccupy(s, c);
      ChargeElsewhere(s, Count(t), c);
    }
  }

  lemma ChargeAtEnter(s: State, t: nat, c: nat)
    requires Inv(s) && Enabled(s, Enter(t)) && c == s.threads[t].c && s.workers[s.conts[c].worker].alive
    ensures Pays(s, t) ==> !Charged(s, c) && Charged(Step(s, Enter(t)), c)
    ensures !Pays(s, t) ==> Charged(Step(s, Enter(t)), c) == Charged(s, c)
  {
    var s2 := Step(s, Enter(t));
    var n := s.threads[t].n;
    assert Justified(s, s.threads[t]);
    if n > 1 {
      ChargeKept(s, Enter(t), t, c);
    } else if Pays(s, t) {
      assert Claims(s2.threads[t], c);
      if Charged(s, c) {
        var u: nat :| u < |s.threads| && Claims(s.threads[u], c);
        Occupants(s, c, t, u);
      }
    } else {
      ChargeElsewhere(s, Enter(t), c);
    }
  }

  lemma ChargeAtDrop(s: State, t: nat, c: nat)
    requires Inv(s) && Enabled(s, Drop(t)) && c == s.threads[t].c && s.workers[s.conts[c].worker].alive
    ensures Charged(s, c)
    ensures Charged(Step(s, Drop(t)), c) <==> Step(s, Drop(t)).threads[t].n != 0
  {
    var s2 := Step(s, Drop(t));
    assert Claims(s.threads[t], c);
    StepConns(s, Drop(t));
    StepShape(s, Drop(t));
    Occupants(s, c, t, t);
    if s2.conts[c].conns == 0 {
      ClaimsOccupy(s2, c);
    } else {
      var u := AnOccupant(s2, c);
      Occupants(s, c, t, u);
      SharedIsCharged(s, c, u);
      assert Justified(s, s.threads[u]);
      assert Claims(s2.threads[u], c);
    }
  }

  /** The charge of container c on an alive worker appears with the debit and vanishes with the last drop. */
  ghost predicate Debits(s: State, a: Action, c: nat) {
    Enabled(s, a) && a.Enter? && s.threads[a.t].c == c && Pays(s, a.t)
  }

  ghost predicate LastDrop(s: State, a: Action, c: nat) {
    Enabled(s, a) && a.Drop? && s.threads[a.t].c == c && s.conts[c].conns == 1
  }

  lemma ClaimSteady(s: State, a: Action, c: nat)
    requires Shape(s) && Enabled(s, a) && Actor(a).Some? && Justified(s, s.threads[Actor(a).value])
    requires !a.Count? && !a.Enter? && !a.Drop?
    ensures var t := Actor(a).value; Claims(Step(s, a).threads[t], c) == Claims(s.threads[t], c)
  {
  }

  lemma ChargeStep(s: State, a: Action, c: nat)
    requires Inv(s) && Enabled(s, a) && c < |s.conts| && s.workers[s.conts[c].worker].alive
    ensures Debits(s, a, c) ==> !Charged(s, c) && Charged(Step(s, a), c)
    ensures LastDrop(s, a, c) ==> Charged(s, c) && !Charged(Step(s, a), c)
    ensures !Debits(s, a, c) && !LastDrop(s, a, c) ==> Charged(Step(s, a), c) == Charged(s, c)
  {
    if Actor(a).None? {
      ChargeElsewhere(s, a, c);
    } else if !a.Count? && !a.Enter? && !a.Drop? {
      var t := Actor(a).value;
      assert Justified(s, s.threads[t]);
      ClaimSteady(s, a, c);
      if Claims(s.threads[t], c) { ChargeKept(s, a, t, c); } else { ChargeElsewhere(s, a, c); }
    } else if s.threads[a.t].c != c {
      ChargeElsewhere(s, a, c);
    } else if a.Count? {
      ChargeAtCount(s, a.t, c);
    } else if a.Enter? {
      ChargeAtEnter(s, a.t, c);
    } else {
      ChargeAtDrop(s, a.t, c);
    }
  }

  /** How far one step moves the charge of container c, and the settled charges of an alive worker. */
  ghost function ChargeDelta(s: State, a: Action, c: nat): int
    requires c < |s.conts|
  {
    if Debits(s, a, c) then s.conts[c].mCPU else if LastDrop(s, a, c) then 0 - s.conts[c].mCPU else 0
  }

  lemma NewContainerFree(s: State, a: Action, c: nat)
    requires Inv(s) && Enabled(s, a) && |s.conts| <= c
    ensures !Charged(Step(s, a), c)
  {
    StepShape(s, a);
  }

  lemma ChargeOfStep(s: State, a: Action, w: nat, c: nat)
    requires Inv(s) && Enabled(s, a) && w < |s.workers| && s.workers[w].alive && c < |s.conts|
    ensures ChargeOf(Step(s, a), w)(c) ==
              ChargeOf(s, w)(c) + (if s.conts[c].worker == w then ChargeDelta(s, a, c) else 0)
  {
    StepFrame(s, a);
    if s.conts[c].worker == w { ChargeStep(s, a, c); }
  }

  lemma ChargedMillisSame(s: State, a: Action, w: nat)
    requires Inv(s) && Enabled(s, a) && w < |s.workers| && s.workers[w].alive
    requires forall c: nat :: c < |s.conts| && s.conts[c].worker == w ==> ChargeDelta(s, a, c) == 0
    ensures ChargedMillis(Step(s, a), w) == ChargedMillis(s, w)
  {
    var s2 := Step(s, a);
    forall c: nat | c < |s.conts| ensures ChargeOf(s2, w)(c) == ChargeOf(s, w)(c) { ChargeOfStep(s, a, w, c); }
    forall c: nat | |s.conts| <= c < |s2.conts| ensures ChargeOf(s2, w)(c) == 0 { NewContainerFree(s, a, c); }
    StepFrame(s, a);
    SumSame(|s.conts|, ChargeOf(s, w), ChargeOf(s2, w));
    SumIdleTail(|s.conts|, |s2.conts|, ChargeOf(s2, w));
  }

  lemma ChargedMillisMove(s: State, a: Action, w: nat)
    requires Inv(s) && Enabled(s, a) && w < |s.workers| && s.workers[w].alive
    requires (a.Enter? || a.Drop?) && s.conts[s.threads[a.t].c].worker == w
    ensures ChargedMillis(Step(s, a), w) == ChargedMillis(s, w) + ChargeDelta(s, a, s.threads[a.t].c)
  {
    var s2 := Step(s, a);
    var d := s.threads[a.t].c;
    forall c: nat | c < |s.conts| && c != d ensures ChargeOf(s2, w)(c) == ChargeOf(s, w)(c) {
      ChargeOfStep(s, a, w, c);
    }
    ChargeOfStep(s, a, w, d);
    SumChange(|s.conts|, ChargeOf(s, w), ChargeOf(s2, w), d);
  }

  lemma RefundsStep(s: State, a: Action, w: nat)
    requires Enabled(s, a) && Shape(s)
    ensures Actor(a).None? ==> RefundsInFlight(Step(s, a), w) == RefundsInFlight(s, w)
    ensures Actor(a).Some? ==>
              var t := Actor(a).value;
              RefundsInFlight(Step(s, a), w) == RefundsInFlight(s, w) - RefundOf(s, w)(t) + RefundOf(Step(s, a), w)(t)
  {
    var s2 := Step(s, a);
    StepFrame(s, a);
    if Actor(a).Some? {
      SumChange(|s.threads|, RefundOf(s, w), RefundOf(s2, w), Actor(a).value);
    } else {
      SumSameThreads(s, s2, RefundOf(s, w), RefundOf(s2, w));
    }
  }

  /** What a step takes off the balance of worker w: a debit, or minus a refund. */
  ghost function Taken(s: State, a: Action, w: nat): int {
    if Enabled(s, a) && a.Enter? && s.conts[s.threads[a.t].c].worker == w && Pays(s, a.t)
    then s.conts[s.threads[a.t].c].mCPU
    else if Enabled(s, a) && a.Refund? && s.conts[s.threads[a.t].c].worker == w
    then 0 - s.conts[s.threads[a.t].c].mCPU
    else 0
  }

  lemma RefundDelta(s: State, a: Action, w: nat)
    requires Shape(s) && Enabled(s, a) && Actor(a).Some?
    ensures var t := Actor(a).value;
            RefundOf(Step(s, a), w)(t) - RefundOf(s, w)(t) ==
              if (a.Drop? || a.Refund?) && s.conts[s.threads[t].c].worker == w then
                if a.Refund? then 0 - s.conts[s.threads[t].c].mCPU
                else if s.conts[s.threads[t].c].conns == 1 then s.conts[s.threads[t].c].mCPU else 0
              else 0
  {
  }

  lemma BalanceStep(s: State, a: Action, w: nat)
    requires Inv(s) && Enabled(s, a) && w < |s.workers| && s.workers[w].alive
    ensures Balance(Step(s, a), w) == Balance(s, w) - Taken(s, a, w)
  {
    hide Step;
    RefundsStep(s, a, w);
    if Actor(a).Some? { RefundDelta(s, a, w); }
    StepFrame(s, a);
    if (a.Enter? || a.Drop?) && s.conts[s.threads[a.t].c].worker == w {
      ChargedMillisMove(s, a, w);
    } else {
      ChargedMillisSame(s, a, w);
    }
  }

  lemma FreeCpuStep(s: State, a: Action, w: nat)
    requires Shape(s) && Enabled(s, a) && w < |s.workers| && Step(s, a).workers[w].alive
    requires -0x8000_0000 <= s.workers[w].freeCPU < 0x8000_0000
    ensures Step(s, a).workers[w].freeCPU == Int32(s.workers[w].freeCPU - Taken(s, a, w))
  {
  }

  lemma WrapAdd(x: int, d: int)
    ensures Int32(Int32(x) + d) == Int32(x + d)
  {
  }

  lemma WrapSmall(x: int)
    requires -0x8000_0000 <= x < 0x8000_0000
    ensures Int32(x) == x
  {
  }

  lemma NewWorkers(s: State, a: Action)
    ensures |Step(s, a).workers| <= |s.workers| + 1
    ensures |Step(s, a).workers| == |s.workers| + 1 ==>
              && a.Register?
              && Step(s, a).workers[|s.workers|] ==
                Worker(a.mCPU, a.defaultMCPU, a.memory, a.mCPU, true, true, 0, false)
  {
  }

  lemma NewWorkerBalance(s: State, a: Action)
    requires Inv(s) && a.Register?
    ensures Balance(Step(s, a), |s.workers|) == a.mCPU
  {
    var s2 := Step(s, a);
    var w := |s.workers|;
    SumSame(|s2.conts|, ChargeOf(s2, w), (c: nat) => 0);
    SumIdleTail(0, |s2.conts|, (c: nat) => 0);
    SumSame(|s2.threads|, RefundOf(s2, w), (t: nat) => 0);
    SumIdleTail(0, |s2.threads|, (t: nat) => 0);
  }

  lemma DeadStaysDead(s: State, a: Action, w: nat)
    requires w < |s.workers|
    ensures Step(s, a).workers[w].alive ==> s.workers[w].alive
    ensures !a.Shutdown? ==> Step(s, a).workers[w].alive == s.workers[w].alive
  {
  }

  lemma StepCpuOf(s: State, a: Action, w: nat)
    requires Inv(s) && Enabled(s, a) && w < |s.workers| && s.workers[w].alive && Step(s, a).workers[w].alive
    ensures Step(s, a).workers[w].freeCPU == Int32(Balance(Step(s, a), w))
  {
    hide Step;
    WrapAdd(Balance(s, w), 0);
    FreeCpuStep(s, a, w);
    BalanceStep(s, a, w);
    WrapAdd(Balance(s, w), 0 - Taken(s, a, w));
  }

  lemma StepCpu(s: State, a: Action)
    requires Inv(s)
    ensures CpuConserved(Step(s, a))
  {
    hide Step;
    StepDisabled(s, a);
    if Enabled(s, a) {
      var s2 := Step(s, a);
      StepFrame(s, a);
      NewWorkers(s, a);
      forall w: nat | w < |s2.workers| && s2.workers[w].alive
        ensures s2.workers[w].freeCPU == Int32(Balance(s2, w))
      {
        if w < |s.workers| {
          DeadStaysDead(s, a, w);
          StepCpuOf(s, a, w);
        } else {
          NewWorkerBalance(s, a);
          WrapSmall(a.mCPU);
        }
      }
    }
  }

  // ---- The global gauge ----

  lemma UnpostedStep(s: State, a: Action)
    requires Enabled(s, a) && Shape(s)
    ensures Actor(a).None? ==> UnpostedDebits(Step(s, a)) == UnpostedDebits(s)
    ensures Actor(a).Some? ==>
              var t := Actor(a).value;
              UnpostedDebits(Step(s, a)) == UnpostedDebits(s) - UnpostedOf(s)(t) + UnpostedOf(Step(s, a))(t)
  {
    var s2 := Step(s, a);
    StepFrame(s, a);
    if Actor(a).Some? {
      SumChange(|s.threads|, UnpostedOf(s), UnpostedOf(s2), Actor(a).value);
    } else {
      SumSameThreads(s, s2, UnpostedOf(s), UnpostedOf(s2));
    }
  }

  function Target(s: State, a: Action): Option<nat>
    requires Enabled(s, a)
  {
    match a
    case Deregister(w) => Some(w)
    case Shutdown(w) => Some(w)
    case CloseConn(w) => Some(w)
    case Enter(t) => Some(s.conts[s.threads[t].c].worker)
    case Post(t) => Some(s.conts[s.threads[t].c].worker)
    case Refund(t) => Some(s.conts[s.threads[t].c].worker)
    case Done(t) => Some(s.conts[s.threads[t].c].worker)
    case _ => None
  }

  lemma FreeStep(s: State, a: Action)
    requires Enabled(s, a) && Shape(s)
    ensures Target(s, a).None? && !a.Register? ==> FreeOfAlive(Step(s, a)) == FreeOfAlive(s)
    ensures a.Register? ==> FreeOfAlive(Step(s, a)) == FreeOfAlive(s) + a.mCPU
    ensures Target(s, a).Some? ==>
              var w := Target(s, a).value;
              w < |s.workers| && FreeOfAlive(Step(s, a)) == FreeOfAlive(s) - FreeOf(s)(w) + FreeOf(Step(s, a))(w)
  {
    var s2 := Step(s, a);
    if Target(s, a).Some? {
      SumChange(|s.workers|, FreeOf(s), FreeOf(s2), Target(s, a).value);
    } else {
      SumSame(|s.workers|, FreeOf(s), FreeOf(s2));
    }
  }

  lemma WrapStep(x: int)
    ensures (Int32(x) - x) % 0x1_0000_0000 == 0
  {
  }

  lemma SameResidue(x: int, y: int)
    requires x % 0x1_0000_0000 == 0 && (y - x) % 0x1_0000_0000 == 0
    ensures y % 0x1_0000_0000 == 0
  {
  }

  ghost function Drift(s: State): int { s.gauge - FreeOfAlive(s) - UnpostedDebits(s) }

  lemma DriftElsewhere(s: State, a: Action)
    requires Inv(s) && Enabled(s, a) && !a.Enter? && !a.Refund?
    ensures Drift(Step(s, a)) == Drift(s)
  {
    FreeStep(s, a);
    UnpostedStep(s, a);
  }

  lemma FreeDelta(s: State, a: Action, w: nat)
    requires Shape(s) && Enabled(s, a) && (a.Enter? || a.Refund?) && w == s.conts[s.threads[a.t].c].worker
    ensures FreeOfAlive(Step(s, a)) ==
              FreeOfAlive(s) + (if s.workers[w].alive then Step(s, a).workers[w].freeCPU - s.workers[w].freeCPU else 0)
  {
    FreeStep(s, a);
  }

  lemma PostingDelta(s: State, a: Action, w: nat)
    requires Shape(s) && Enabled(s, a) && (a.Enter? || a.Refund?) && w == s.conts[s.threads[a.t].c].worker
    ensures Step(s, a).gauge - UnpostedDebits(Step(s, a)) ==
              s.gauge - UnpostedDebits(s) - (if s.workers[w].alive then Taken(s, a, w) else 0)
  {
    UnpostedStep(s, a);
  }

  /** A debit or refund moves gauge, free CPU and unposted debits together, up to a wrap of one freeCPU. */
  lemma DriftCharge(s: State, a: Action, w: nat)
    requires Inv(s) && Enabled(s, a) && (a.Enter? || a.Refund?) && w == s.conts[s.threads[a.t].c].worker
    ensures s.workers[w].alive ==>
              Drift(Step(s, a)) ==
              Drift(s) + s.workers[w].freeCPU - Taken(s, a, w) - Int32(s.workers[w].freeCPU - Taken(s, a, w))
    ensures -0x8000_0000 <= s.workers[w].freeCPU - Taken(s, a, w) < 0x8000_0000 ==> Drift(Step(s, a)) == Drift(s)
    ensures !s.workers[w].alive ==> Drift(Step(s, a)) == Drift(s)
  {
    hide Step;
    FreeDelta(s, a, w);
    PostingDelta(s, a, w);
    if s.workers[w].alive {
      DeadStaysDead(s, a, w);
      FreeCpuStep(s, a, w);
    }
  }

  lemma StepGauge(s: State, a: Action)
    requires Inv(s)
    ensures GaugeConserved(Step(s, a))
  {
    hide Step, FreeOfAlive, UnpostedDebits;
    StepDisabled(s, a);
    if Enabled(s, a) {
      if a.Enter? || a.Refund? {
        var w := s.conts[s.threads[a.t].c].worker;
        DriftCharge(s, a, w);
        WrapStep(s.workers[w].freeCPU - Taken(s, a, w));
        SameResidue(Drift(s), Drift(Step(s, a)));
      } else {
        DriftElsewhere(s, a);
      }
    }
  }

  lemma StepInv(s: State, a: Action)
    requires Inv(s)
    ensures Inv(Step(s, a))
  {
    StepShape(s, a);
    StepConns(s, a);
    StepLimits(s, a);
    StepWaits(s, a);
    StepDrains(s, a);
    StepCpu(s, a);
    StepGauge(s, a);
  }

  lemma {:induction false} RunInv(s: State, acts: seq<Action>)
    requires Inv(s)
    ensures Inv(Run(s, acts))
  {
    if acts != [] {
      RunInv(s, acts[..|acts| - 1]);
      StepInv(Run(s, acts[..|acts| - 1]), acts[|acts| - 1]);
    }
  }

  lemma InitInv()
    ensures Inv(Init)
  {
    assert FreeOfAlive(Init) == 0 && UnpostedDebits(Init) == 0;
  }

  lemma ChargesNonNegative(s: State, w: nat)
    ensures 0 <= ChargedMillis(s, w) && 0 <= RefundsInFlight(s, w)
  {
    SumNonNegative(|s.conts|, ChargeOf(s, w));
    SumNonNegative(|s.threads|, RefundOf(s, w));
  }
}
