/**
 The slot allocator of a worker: DockerRunner.getContainer, reserveContainer, processContainerDone and
 releaseContainer as a step machine.  One step is one channel operation on a pool, or one section under
 a container's mutex; the semaphore is acquired inside that section.

 A job is one call of Run together with its afterRun; its request ID is its index.  `lost`, `owner`,
 `listed` and `acquired` of a container record history; no step tests them, except that a container is
 offered from the cache only if it was put there (`listed`), and accepts connections from then on until
 it is halted.  The results are in RunnerConservation.dfy, RunnerSemaphore.dfy and RunnerCleanup.dfy.
 */
module RunnerPool {
  import opened Wrappers

  // ---- Limits ----

  type Milli = x: nat | x < 0x400_0000

  datatype Options = Options(concurrency: Milli, mcpu: Milli, reserved: Milli)

  /** (MCPU - ReservedMCPU) * 1e6 in uint, then int64. */
  function Budget(o: Options): int { (o.mcpu as int - o.reserved as int) * 1000000 }

  /** Constraints.CPULimit; int64 division truncates. */
  function CPULimit(o: Options): int
    requires o.concurrency > 0
  {
    TruncDiv(Budget(o), o.concurrency)
  }

  function TruncDiv(a: int, b: nat): int
    requires b > 0
  {
    if a >= 0 then a / b else -(-a / b)
  }

  /** Go's int64 division: the remainder is smaller than the divisor and has the sign of the dividend. */
  lemma TruncDivExactly(a: int, b: nat, q: int)
    requires b > 0
    ensures q == TruncDiv(a, b) <==> if a >= 0 then 0 <= a - q * b < b else 0 <= q * b - a < b
  {
    var d := TruncDiv(a, b);
    if a >= 0 {
      assert a == d * b + a % b;
    } else {
      assert -a == (-a / b) * b + -a % b && (-a / b) * b == 0 - d * b;
    }
    QuotientUnique(a, b, d, q);
  }

  lemma QuotientUnique(a: int, b: nat, d: int, q: int)
    requires b > 0
    requires if a >= 0 then 0 <= a - d * b < b else 0 <= d * b - a < b
    ensures q == d <==> if a >= 0 then 0 <= a - q * b < b else 0 <= q * b - a < b
  {
    assert q * b == d * b + (q - d) * b;
    Multiple(q - d, b);
  }

  /** Multiples of b lie at least b apart. */
  lemma Multiple(k: int, b: nat)
    ensures k > 0 ==> k * b >= b
    ensures k < 0 ==> k * b <= 0 - b
    ensures k == 0 ==> k * b == 0
  {
    if k > 0 {
      AtLeastOnce(k, b);
    } else if k < 0 {
      var j: nat := -k;
      AtLeastOnce(j, b);
      assert k * b == 0 - j * b;
    }
  }

  lemma {:induction false} AtLeastOnce(k: nat, b: nat)
    requires k > 0
    ensures k * b >= b
  {
    if k > 1 {
      AtLeastOnce(k - 1, b);
      assert k * b == (k - 1) * b + b;
    }
  }

  const CPUPeriod := 100000

  /** Constraints.CPUQuota */
  function CPUQuota(o: Options): int
    requires o.concurrency > 0
  {
    TruncDiv(CPULimit(o) * CPUPeriod, 1000000000)
  }

  /** A worker with a positive CPU limit. */
  type Config = o: Options | o.concurrency > 0 && Budget(o) >= o.concurrency
    witness Options(2, 2000, 250)

  lemma LimitPositive(o: Config)
    ensures CPULimit(o) > 0
  {
    assert Budget(o) / o.concurrency >= 1;
  }

  /** RunOptions.Weight for a definition; an MCPU of 0 stands for Constraints.MCPU(). */
  function Weight(o: Config, mcpu: nat): (w: nat)
  {
    LimitPositive(o);
    var m := if mcpu == 0 then CPULimit(o) / 1000000 else mcpu;
    (m * 1000000 + CPULimit(o) - 1) / CPULimit(o)
  }

  // ---- State ----

  datatype Definition = Definition(runtime: nat, async: nat, mcpu: nat, source: string)

  /** connLimit of Configure. */
  function ConnLimit(d: Definition): (n: nat)
    ensures n >= 1
  {
    if d.async == 0 then 1 else d.async
  }

  datatype Container = Container(
    def: Definition,
    conns: set<nat>,      // request IDs
    acquired: nat,        // semaphore weight taken for the current connections
    lost: set<nat>,       // connections that nobody is going to release
    owner: Option<nat>,   // None: in the pool; otherwise the job that took it out last
    listed: bool,         // was added to the container cache
    halted: bool,         // StopAcceptingConnections was called
    stopped: bool)        // cleanupContainer stopped it

  datatype Stage =
    | Start                           // in getContainer, looking at cached containers
    | Took(c: nat)                    // received from the pool and configured
    | Attached(c: nat, newCont: bool) // reserveContainer succeeded
    | NoSem(c: nat)                   // fresh container, Acquire failed
    | Missing(c: nat)                 // fresh container, Link or Mount found no resource
    | Refused(c: nat)                 // fresh container, too many connections
    | Ended(c: nat, newCont: bool)    // releaseContainer is next
    | Returning(c: nat)               // the container itself goes back to the pool
    | Owing(c: nat)                   // a new container goes to the pool
    | Finished

  /** `cleanup` is the container that afterRun still has to look at. */
  datatype Job = Job(def: Definition, stage: Stage, cleanup: Option<nat>)

  datatype State = State(
    config: Config,
    conts: seq<Container>,
    pools: map<nat, multiset<nat>>,   // containerPool
    created: map<nat, nat>,           // containers CreatePool has made per runtime
    jobs: seq<Job>,
    held: int)                        // weight held of poolSemaphore

  datatype Action =
    | Create(r: nat)
    | Begin(def: Definition)
    | AttachCached(t: nat, cont: nat)
    | UpdateFails(t: nat, cont: nat, skip: bool)
    | AcquireFails(t: nat, cont: nat, skip: bool)
    | Take(t: nat, cont: nat)
    | ReserveNew(t: nat)
    | AcquireNewFails(t: nat)
    | LinkMissing(t: nat)
    | List(t: nat)
    | EndRun(t: nat)
    | ReturnMissing(t: nat)
    | CleanupFails(t: nat)
    | DropNoSem(t: nat)
    | PutBack(t: nat)
    | Release(t: nat)
    | Recreate(t: nat)
    | AfterRun(t: nat)                // the check at the end of afterRun
    | Evict(c: nat)                   // a cached container is deleted or evicted

  function Init(config: Config): State { State(config, [], map[], map[], [], 0) }

  function Pool(s: State, r: nat): multiset<nat> { if r in s.pools then s.pools[r] else multiset{} }

  function Created(s: State, r: nat): nat { if r in s.created then s.created[r] else 0 }

  function WeightOf(s: State, d: Definition): nat { Weight(s.config, d.mcpu) }

  predicate HasCont(p: Stage) { !p.Start? && !p.Finished? }

  predicate At(s: State, t: nat) {
    t < |s.jobs| && HasCont(s.jobs[t].stage) && s.jobs[t].stage.c < |s.conts|
  }

  predicate Offers(s: State, t: nat, c: nat) {
    && t < |s.jobs| && s.jobs[t].stage.Start? && c < |s.conts|
    && s.conts[c].listed && s.conts[c].def == s.jobs[t].def
    && |s.conts[c].conns| < ConnLimit(s.conts[c].def)
    && t !in s.conts[c].conns   // a job does not come back to a container it gave up on
  }

  /** Weight for a first connection is available. */
  predicate CanJoin(s: State, c: nat, d: Definition)
    requires c < |s.conts|
  {
    s.conts[c].conns == {} ==> s.held + WeightOf(s, d) <= s.config.concurrency
  }

  predicate Enabled(s: State, a: Action) {
    match a
    case Create(r) => Created(s, r) < s.config.concurrency
    case Begin(def) => Created(s, def.runtime) == s.config.concurrency
    case AttachCached(t, c) => Offers(s, t, c) && CanJoin(s, c, s.jobs[t].def)
    // The loop goes on to the next container only if this one stopped accepting connections.
    case UpdateFails(t, c, skip) =>
      && Offers(s, t, c) && CanJoin(s, c, s.jobs[t].def) && s.conts[c].conns == {} && s.conts[c].def.async > 1
      && skip == s.conts[c].halted
    case AcquireFails(t, c, skip) => Offers(s, t, c) && s.conts[c].conns == {} && skip == s.conts[c].halted
    case Take(t, c) =>
      t < |s.jobs| && s.jobs[t].stage.Start? && c < |s.conts| && c in Pool(s, s.jobs[t].def.runtime)
    case ReserveNew(t) =>
      At(s, t) && s.jobs[t].stage.Took? && CanJoin(s, s.jobs[t].stage.c, s.jobs[t].def)
    case AcquireNewFails(t) => At(s, t) && s.jobs[t].stage.Took? && s.conts[s.jobs[t].stage.c].conns == {}
    case LinkMissing(t) =>
      At(s, t) && s.jobs[t].stage.Attached? && s.jobs[t].stage.newCont && !s.conts[s.jobs[t].stage.c].listed
    case List(t) => At(s, t) && s.jobs[t].stage.Attached? && s.jobs[t].stage.newCont
    case EndRun(t) => At(s, t) && s.jobs[t].stage.Attached?
    case ReturnMissing(t) => At(s, t) && s.jobs[t].stage.Missing?
    case CleanupFails(t) => At(s, t) && s.jobs[t].stage.Missing?
    case DropNoSem(t) => At(s, t) && s.jobs[t].stage.NoSem?
    case PutBack(t) => At(s, t) && s.jobs[t].stage.Returning?
    case Release(t) => At(s, t) && (s.jobs[t].stage.Ended? || s.jobs[t].stage.Refused?)
    case Recreate(t) => At(s, t) && s.jobs[t].stage.Owing?
    case AfterRun(t) => t < |s.jobs| && s.jobs[t].cleanup.Some? && s.jobs[t].cleanup.value < |s.conts|
    case Evict(c) => c < |s.conts| && s.conts[c].listed
  }

  function Move(s: State, t: nat, p: Stage): State
    requires t < |s.jobs|
  {
    s.(jobs := s.jobs[t := s.jobs[t].(stage := p)])
  }

  /** processContainerDone is over; the check of afterRun remains. */
  function Finish(s: State, t: nat, c: nat): State
    requires t < |s.jobs|
  {
    s.(jobs := s.jobs[t := s.jobs[t].(stage := Finished, cleanup := Some(c))])
  }

  function SetCont(s: State, c: nat, v: Container): State
    requires c < |s.conts|
  {
    s.(conts := s.conts[c := v])
  }

  /** Container.Reserve with its callback: the first connection acquires the weight. */
  function Join(s: State, t: nat, c: nat): State
    requires t < |s.jobs| && c < |s.conts|
  {
    var k := s.conts[c];
    var w := WeightOf(s, s.jobs[t].def);
    if k.conns == {} then SetCont(s, c, k.(conns := {t}, acquired := w)).(held := s.held + w)
    else SetCont(s, c, k.(conns := k.conns + {t}))
  }

  /** Container.Reserve whose callback could not acquire: the connection stays in the map. */
  function JoinBare(s: State, t: nat, c: nat): State
    requires c < |s.conts|
  {
    SetCont(s, c, s.conts[c].(conns := s.conts[c].conns + {t}))
  }

  /** Container.Release with the callback of releaseContainer: the last connection gives the weight back. */
  function Leave(s: State, t: nat, c: nat): State
    requires t < |s.jobs| && c < |s.conts|
  {
    var k := s.conts[c];
    if k.conns - {t} == {} then
      SetCont(s, c, k.(conns := {}, acquired := 0)).(held := s.held - WeightOf(s, s.jobs[t].def))
    else SetCont(s, c, k.(conns := k.conns - {t}))
  }

  function Lose(s: State, t: nat, c: nat): State
    requires c < |s.conts|
  {
    SetCont(s, c, s.conts[c].(lost := s.conts[c].lost + {t}))
  }

  function Put(s: State, r: nat, c: nat): State
    requires c < |s.conts|
  {
    SetCont(s, c, s.conts[c].(owner := None)).(pools := s.pools[r := Pool(s, r) + multiset{c}])
  }

  function Fresh(r: nat): Container { Container(Definition(r, 0, 0, ""), {}, 0, {}, None, false, false, false) }

  /** createFreshContainer, then the send on the pool channel. */
  function PutFresh(s: State, r: nat): State {
    s.(conts := s.conts + [Fresh(r)], pools := s.pools[r := Pool(s, r) + multiset{|s.conts|}])
  }

  function DoReserveNew(s: State, t: nat): State
    requires At(s, t)
  {
    var c := s.jobs[t].stage.c;
    if |s.conts[c].conns| >= ConnLimit(s.conts[c].def) then Move(s, t, Refused(c))
    else Move(Join(s, t, c), t, Attached(c, true))
  }

  function DoTake(s: State, t: nat, c: nat): State
    requires t < |s.jobs| && c < |s.conts|
  {
    var d := s.jobs[t].def;
    Move(SetCont(s, c, s.conts[c].(def := d, owner := Some(t))), t, Took(c))
      .(pools := s.pools[d.runtime := Pool(s, d.runtime) - multiset{c}])
  }

  function DoRelease(s: State, t: nat): State
    requires At(s, t) && (s.jobs[t].stage.Ended? || s.jobs[t].stage.Refused?)
  {
    var p := s.jobs[t].stage;
    if p.Refused? || p.newCont then Move(Leave(s, t, p.c), t, Owing(p.c)) else Finish(Leave(s, t, p.c), t, p.c)
  }

  predicate InCache(a: Action) { a.AttachCached? || a.UpdateFails? || a.AcquireFails? }

  predicate Outside(a: Action) { a.Create? || a.Begin? }

  predicate Aside(a: Action) { a.AfterRun? || a.Evict? }

  predicate OfJob(a: Action) { !InCache(a) && !Outside(a) && !Aside(a) }

  predicate Accepting(k: Container) { k.listed && !k.halted }

  /** cleanupContainer, for a container without connections. */
  function Cleanup(k: Container): Container {
    if k.conns == {} then k.(halted := true, stopped := true) else k
  }

  /** A step that changes no connection: the end of afterRun, and the eviction callback. */
  function AsideOf(s: State, a: Action): State
    requires Enabled(s, a) && Aside(a)
  {
    match a
    case AfterRun(t) =>
      var c := s.jobs[t].cleanup.value;
      var s1 := s.(jobs := s.jobs[t := s.jobs[t].(cleanup := None)]);
      if Accepting(s.conts[c]) then s1 else SetCont(s1, c, Cleanup(s.conts[c]))
    case Evict(c) => SetCont(s, c, Cleanup(s.conts[c].(halted := true)))
  }

  /** A step of a job on a cached container. */
  function CacheOf(s: State, a: Action): State
    requires Enabled(s, a) && InCache(a)
  {
    match a
    case AttachCached(t, c) => Move(Join(s, t, c), t, Attached(c, false))
    case UpdateFails(t, c, skip) =>
      if skip then Lose(Join(s, t, c), t, c) else Move(Join(s, t, c), t, Ended(c, false))
    case AcquireFails(t, c, skip) =>
      if skip then Lose(JoinBare(s, t, c), t, c) else Move(JoinBare(s, t, c), t, Ended(c, false))
  }

  /** A step of a job on the container it holds, or is about to take. */
  function JobOf(s: State, a: Action): State
    requires Enabled(s, a) && OfJob(a)
  {
    match a
    case Take(t, c) => DoTake(s, t, c)
    case ReserveNew(t) => DoReserveNew(s, t)
    case AcquireNewFails(t) => Move(JoinBare(s, t, s.jobs[t].stage.c), t, NoSem(s.jobs[t].stage.c))
    case LinkMissing(t) => Move(s, t, Missing(s.jobs[t].stage.c))
    case List(t) => SetCont(s, s.jobs[t].stage.c, s.conts[s.jobs[t].stage.c].(listed := true))
    case EndRun(t) => Move(s, t, Ended(s.jobs[t].stage.c, s.jobs[t].stage.newCont))
    case ReturnMissing(t) =>
      var c := s.jobs[t].stage.c;
      Finish(Put(Lose(s, t, c), s.conts[c].def.runtime, c), t, c)
    case CleanupFails(t) => Move(s, t, Ended(s.jobs[t].stage.c, true))
    case DropNoSem(t) =>
      var c := s.jobs[t].stage.c;
      Move(SetCont(s, c, s.conts[c].(conns := s.conts[c].conns - {t})), t, Returning(c))
    case PutBack(t) =>
      var c := s.jobs[t].stage.c;
      Finish(Put(s, s.conts[c].def.runtime, c), t, c)
    case Release(t) => DoRelease(s, t)
    case Recreate(t) =>
      var c := s.jobs[t].stage.c;
      Finish(PutFresh(s, s.conts[c].def.runtime), t, c)
  }

  /** A step of CreatePool, or a call of Run. */
  function OutsideOf(s: State, a: Action): State
    requires Enabled(s, a) && Outside(a)
  {
    match a
    case Create(r) => PutFresh(s, r).(created := s.created[r := Created(s, r) + 1])
    case Begin(def) => s.(jobs := s.jobs + [Job(def, Start, None)])
  }

  /** The step itself; an action that cannot happen changes nothing. */
  function Step(s: State, a: Action): State {
    if !Enabled(s, a) then s
    else if InCache(a) then CacheOf(s, a)
    else if Outside(a) then OutsideOf(s, a)
    else if Aside(a) then AsideOf(s, a)
    else JobOf(s, a)
  }

  function Run(s: State, acts: seq<Action>): State {
    if acts == [] then s else Step(Run(s, acts[..|acts| - 1]), acts[|acts| - 1])
  }

  // ---- Who has which container ----

  /** The job's request ID is in conns of its container. */
  predicate Connected(p: Stage) { p.Attached? || p.NoSem? || p.Missing? || p.Ended? }

  /** The job took a container from the pool and has not put one back. */
  predicate Owes(p: Stage) {
    || p.Took? || p.NoSem? || p.Missing? || p.Refused? || p.Returning? || p.Owing?
    || ((p.Attached? || p.Ended?) && p.newCont)
  }

  /** Nobody else can reach the container. */
  predicate Private(p: Stage) { p.Took? || p.NoSem? || p.Missing? || p.Refused? || p.Returning? }

  ghost predicate JobOk(s: State, u: Job, t: nat) {
    HasCont(u.stage) ==>
      && u.stage.c < |s.conts|
      && var k := s.conts[u.stage.c];
      && k.def == u.def
      && (Connected(u.stage) <==> t in k.conns - k.lost)
      && t !in k.lost
      && (Owes(u.stage) ==> k.owner == Some(t))
      && (Private(u.stage) ==> !k.listed)
      && (Owes(u.stage) && !k.listed ==> k.conns - {t} == k.lost)
      && (!Owes(u.stage) ==> k.listed)
      && (u.stage.Refused? ==> k.lost != {})
      && (u.stage.NoSem? || u.stage.Returning? ==> k.lost == {})
  }

  ghost predicate ContOk(s: State, k: Container, c: nat) {
    && k.lost <= k.conns
    && (forall t: nat {:trigger s.jobs[t]} {:trigger t in k.conns} :: t in k.conns && t !in k.lost ==>
          t < |s.jobs| && Connected(s.jobs[t].stage) && s.jobs[t].stage.c == c)
    && (k.owner.None? ==> !k.listed && k.conns == k.lost)
    && (!k.listed ==> forall t: nat {:trigger s.jobs[t]} {:trigger t in k.lost} :: t in k.lost ==>
          t < |s.jobs| && s.jobs[t].stage.Finished?)
  }

  ghost predicate JobsOk(s: State) {
    forall t: nat {:trigger s.jobs[t]} :: t < |s.jobs| ==> JobOk(s, s.jobs[t], t)
  }

  ghost predicate ContsOk(s: State) {
    forall c: nat {:trigger s.conts[c]} :: c < |s.conts| ==> ContOk(s, s.conts[c], c)
  }

  /** A container is in the pool of its runtime once while it has no owner, and in no pool otherwise. */
  ghost predicate PoolsOk(s: State) {
    forall r: nat, c: nat :: PoolAt(s, r, c)
  }

  predicate PoolAt(s: State, r: nat, c: nat) {
    Pool(s, r)[c] == if c < |s.conts| && s.conts[c].owner.None? && s.conts[c].def.runtime == r then 1 else 0
  }

  ghost predicate Shape(s: State) { JobsOk(s) && ContsOk(s) && PoolsOk(s) }

  /** A step about one job and one container. */
  ghost predicate About(s: State, s2: State, t: nat, c: nat) {
    && t < |s.jobs| && c < |s.conts| && t < |s2.jobs| && c < |s2.conts|
    && s2.jobs == s.jobs[t := s2.jobs[t]]
    && s2.conts == s.conts[c := s2.conts[c]]
    && (s.jobs[t].stage.Start? || (HasCont(s.jobs[t].stage) && s.jobs[t].stage.c == c))
    && (s2.jobs[t].stage.Start? || s2.jobs[t].stage.Finished? || (HasCont(s2.jobs[t].stage) && s2.jobs[t].stage.c == c))
    && Touches(s.conts[c], s2.conts[c], t)
  }

  /** Of a container a job may change: its own connection, and everything while the container is its own. */
  ghost predicate Touches(k: Container, k2: Container, t: nat) {
    && k2.conns - {t} == k.conns - {t} && k2.lost - {t} == k.lost - {t}
    && (k2.def == k.def || k.owner.None?) && (k2.listed == k.listed || (k2.listed && k.owner == Some(t)))
    && (k2.owner == k.owner || k.owner.None? || k.owner == Some(t))
    && (k.owner.None? || k.owner == Some(t) || k.listed)
  }

  lemma AboutJobs(s: State, s2: State, t: nat, c: nat)
    requires JobsOk(s) && ContsOk(s) && About(s, s2, t, c) && JobOk(s2, s2.jobs[t], t)
    ensures JobsOk(s2)
  {
    forall u: nat | u < |s2.jobs| ensures JobOk(s2, s2.jobs[u], u) {
      if u != t {
        assert JobOk(s, s.jobs[u], u);
        assert ContOk(s, s.conts[c], c);
        assert u in s2.conts[c].conns - {t} <==> u in s.conts[c].conns - {t};
        assert u in s2.conts[c].lost - {t} <==> u in s.conts[c].lost - {t};
      }
    }
  }

  lemma AboutConts(s: State, s2: State, t: nat, c: nat)
    requires JobsOk(s) && ContsOk(s) && About(s, s2, t, c) && SideOk(s2, t, c)
    ensures ContsOk(s2)
  {
    assert JobOk(s, s.jobs[t], t);
    hide JobOk;
    forall i: nat | i < |s2.conts| ensures ContOk(s2, s2.conts[i], i) {
      assert ContOk(s, s.conts[i], i);
      assert i == c ==> s2.conts[c].conns - {t} == s.conts[c].conns - {t};
      forall u: nat | u in s2.conts[i].conns && u !in s2.conts[i].lost
        ensures u < |s2.jobs| && Connected(s2.jobs[u].stage) && s2.jobs[u].stage.c == i
      {
        if u != t {
          assert i == c ==> u in s2.conts[c].conns - {t} && u !in s2.conts[c].lost - {t};
          assert u in s.conts[i].conns && u !in s.conts[i].lost;
        }
      }
      forall u: nat | u in s2.conts[i].lost && !s2.conts[i].listed ensures u < |s2.jobs| && s2.jobs[u].stage.Finished? {
        if u != t {
          assert i == c ==> u in s2.conts[c].lost - {t};
          assert u in s.conts[i].lost;
        }
      }
    }
  }

  /** ContOk as far as job t is concerned. */
  ghost predicate SideOk(s: State, t: nat, c: nat)
    requires t < |s.jobs| && c < |s.conts|
  {
    var k, p := s.conts[c], s.jobs[t].stage;
    && k.lost <= k.conns
    && (t in k.conns && t !in k.lost ==> Connected(p) && p.c == c)
    && (k.owner.None? ==> !k.listed && k.conns == k.lost)
    && (!k.listed && t in k.lost ==> p.Finished?)
  }

  /** What a step of job t has to establish at its container c. */
  ghost predicate GoodStep(s: State, s2: State, t: nat, c: nat) {
    && About(s, s2, t, c) && JobOk(s2, s2.jobs[t], t) && SideOk(s2, t, c) && PoolsFollow(s, s2, c)
    && SlotFollows(s, s2, t, c) && s2.created == s.created && s2.config == s.config
  }

  /** Taking a container out of the pool makes the job owe one, putting it back settles that. */
  ghost predicate SlotFollows(s: State, s2: State, t: nat, c: nat)
    requires t < |s.jobs| && t < |s2.jobs| && c < |s.conts| && c < |s2.conts|
  {
    var k, k2, before, after := s.conts[c], s2.conts[c], Owes(s.jobs[t].stage), Owes(s2.jobs[t].stage);
    && s2.jobs[t].def == s.jobs[t].def
    && (if k.owner.None? && k2.owner.Some? then !before && after && k.def.runtime == s.jobs[t].def.runtime
        else if k.owner.Some? && k2.owner.None? then before && !after && k2.def.runtime == s.jobs[t].def.runtime
        else before == after)
  }

  /** The pools change as the owner of c does. */
  ghost predicate PoolsFollow(s: State, s2: State, c: nat)
    requires c < |s.conts| && c < |s2.conts|
  {
    var k, k2 := s.conts[c], s2.conts[c];
    if k.owner.None? && k2.owner.Some? then
      s2.pools == s.pools[k.def.runtime := Pool(s, k.def.runtime) - multiset{c}]
    else if k.owner.Some? && k2.owner.None? then
      s2.pools == s.pools[k2.def.runtime := Pool(s, k2.def.runtime) + multiset{c}]
    else s2.pools == s.pools && (k.owner.None? ==> k2.def == k.def)
  }

  lemma AboutPools(s: State, s2: State, t: nat, c: nat)
    requires PoolsOk(s) && About(s, s2, t, c) && PoolsFollow(s, s2, c)
    ensures PoolsOk(s2)
  {
    hide Touches;
    forall r: nat, i: nat ensures PoolAt(s2, r, i) {
      PoolFollows(s, s2, c, r, i);
    }
  }

  lemma PoolFollows(s: State, s2: State, c: nat, r: nat, i: nat)
    requires c < |s.conts| == |s2.conts| && s2.conts == s.conts[c := s2.conts[c]]
    requires PoolsOk(s) && PoolsFollow(s, s2, c)
    ensures PoolAt(s2, r, i)
  {
    assert PoolAt(s, r, i);
    assert i < |s.conts| && i != c ==> s2.conts[i] == s.conts[i];
  }

  lemma GoodShape(s: State, s2: State, t: nat, c: nat)
    requires Shape(s) && GoodStep(s, s2, t, c)
    ensures Shape(s2)
  {
    hide About, JobsOk, ContsOk, PoolsOk, JobOk, SideOk, PoolsFollow;
    AboutJobs(s, s2, t, c);
    AboutConts(s, s2, t, c);
    AboutPools(s, s2, t, c);
  }

  lemma JoinShape(s: State, t: nat, c: nat)
    requires t < |s.jobs| && c < |s.conts| && t !in s.conts[c].conns
    ensures var s2, k := Join(s, t, c), s.conts[c];
            && c < |s2.conts| && s2.conts[c].conns == k.conns + {t} && s2.conts[c].conns - {t} == k.conns
            && s2 == s.(conts := s.conts[c := k.(conns := k.conns + {t}, acquired := s2.conts[c].acquired)],
                        held := s2.held)
  {
    hide WeightOf;
  }

  lemma AttachStep(s: State, t: nat, c: nat)
    requires Offers(s, t, c) && JobOk(s, s.jobs[t], t) && ContOk(s, s.conts[c], c)
    ensures GoodStep(s, Move(Join(s, t, c), t, Attached(c, false)), t, c)
  {
    JoinShape(s, t, c);
    hide Join, ConnLimit, WeightOf;
  }

  lemma UpdateFailsStep(s: State, a: Action)
    requires Enabled(s, a) && a.UpdateFails?
    requires JobOk(s, s.jobs[a.t], a.t) && ContOk(s, s.conts[a.cont], a.cont)
    ensures GoodStep(s, CacheOf(s, a), a.t, a.cont)
  {
    hide WeightOf, ConnLimit;
    assert s.conts[a.cont].lost == {};
  }

  lemma CacheStepFails(s: State, a: Action)
    requires Enabled(s, a) && a.AcquireFails?
    requires JobOk(s, s.jobs[a.t], a.t) && ContOk(s, s.conts[a.cont], a.cont)
    ensures GoodStep(s, CacheOf(s, a), a.t, a.cont)
  {
    hide WeightOf;
  }

  lemma TakeStep(s: State, t: nat, c: nat)
    requires Enabled(s, Take(t, c)) && JobOk(s, s.jobs[t], t) && ContOk(s, s.conts[c], c)
    requires s.conts[c].owner.None? && s.conts[c].def.runtime == s.jobs[t].def.runtime
    ensures GoodStep(s, DoTake(s, t, c), t, c)
  {
    hide WeightOf;
  }

  lemma RefuseStep(s: State, t: nat, c: nat)
    requires Enabled(s, ReserveNew(t)) && c == s.jobs[t].stage.c && |s.conts[c].conns| >= ConnLimit(s.conts[c].def)
    requires JobOk(s, s.jobs[t], t) && ContOk(s, s.conts[c], c)
    ensures GoodStep(s, DoReserveNew(s, t), t, c)
  {
    hide WeightOf;
  }

  lemma ReserveStep(s: State, t: nat, c: nat)
    requires Enabled(s, ReserveNew(t)) && c == s.jobs[t].stage.c && |s.conts[c].conns| < ConnLimit(s.conts[c].def)
    requires JobOk(s, s.jobs[t], t) && ContOk(s, s.conts[c], c)
    ensures GoodStep(s, DoReserveNew(s, t), t, c)
  {
    assert t !in s.conts[c].conns && s.conts[c].conns == s.conts[c].lost;
    JoinShape(s, t, c);
    hide Join, ConnLimit, WeightOf;
  }

  lemma ReserveFailsStep(s: State, a: Action, c: nat)
    requires Enabled(s, a) && a.AcquireNewFails? && c == s.jobs[a.t].stage.c
    requires JobOk(s, s.jobs[a.t], a.t) && ContOk(s, s.conts[c], c)
    ensures GoodStep(s, JobOf(s, a), a.t, c)
  {
    hide WeightOf;
  }

  lemma PhaseStep(s: State, a: Action, c: nat)
    requires Enabled(s, a) && (a.LinkMissing? || a.List? || a.EndRun? || a.CleanupFails?) && c == s.jobs[a.t].stage.c
    requires JobOk(s, s.jobs[a.t], a.t) && ContOk(s, s.conts[c], c)
    ensures GoodStep(s, JobOf(s, a), a.t, c)
  {
    hide WeightOf;
  }

  lemma ReturnStep(s: State, a: Action, c: nat)
    requires Enabled(s, a) && (a.DropNoSem? || a.PutBack?) && c == s.jobs[a.t].stage.c
    requires JobOk(s, s.jobs[a.t], a.t) && ContOk(s, s.conts[c], c)
    ensures GoodStep(s, JobOf(s, a), a.t, c)
  {
    hide WeightOf;
  }

  lemma ReturnMissingStep(s: State, a: Action, c: nat)
    requires Enabled(s, a) && a.ReturnMissing? && c == s.jobs[a.t].stage.c
    requires JobOk(s, s.jobs[a.t], a.t) && ContOk(s, s.conts[c], c)
    ensures GoodStep(s, JobOf(s, a), a.t, c)
  {
    hide WeightOf;
  }

  lemma LeaveShape(s: State, t: nat, c: nat)
    requires t < |s.jobs| && c < |s.conts|
    ensures var s2, k := Leave(s, t, c), s.conts[c];
            && c < |s2.conts| && s2.conts[c].conns == k.conns - {t}
            && s2 == s.(conts := s.conts[c := k.(conns := k.conns - {t}, acquired := s2.conts[c].acquired)],
                        held := s2.held)
  {
    hide WeightOf;
  }

  lemma ReleaseStep(s: State, t: nat, c: nat)
    requires At(s, t) && (s.jobs[t].stage.Ended? || s.jobs[t].stage.Refused?) && c == s.jobs[t].stage.c
    requires JobOk(s, s.jobs[t], t) && ContOk(s, s.conts[c], c)
    ensures GoodStep(s, DoRelease(s, t), t, c)
  {
    LeaveShape(s, t, c);
    hide Leave, WeightOf;
  }

  /** The container a step of a job is about. */
  function Subject(s: State, a: Action): nat
    requires Enabled(s, a) && !Outside(a) && !Aside(a) && !a.Recreate?
  {
    if InCache(a) || a.Take? then a.cont else s.jobs[a.t].stage.c
  }

  lemma LocalStep(s: State, a: Action)
    requires Shape(s) && Enabled(s, a) && !Outside(a) && !Aside(a) && !a.Recreate?
    ensures GoodStep(s, Step(s, a), a.t, Subject(s, a))
  {
    var t, c := a.t, Subject(s, a);
    assert JobOk(s, s.jobs[t], t) && ContOk(s, s.conts[c], c);
    if a.Take? {
      assert PoolAt(s, s.jobs[t].def.runtime, c);
      TakeStep(s, t, c);
    } else {
      hide Shape, JobOk, ContOk, GoodStep, DoReserveNew, DoRelease;
      if a.AcquireFails? {
        CacheStepFails(s, a);
      } else if a.AttachCached? {
        AttachStep(s, t, c);
      } else if a.UpdateFails? {
        UpdateFailsStep(s, a);
      } else if a.ReserveNew? {
        if |s.conts[c].conns| >= ConnLimit(s.conts[c].def) { RefuseStep(s, t, c); } else { ReserveStep(s, t, c); }
      } else if a.AcquireNewFails? {
        ReserveFailsStep(s, a, c);
      } else if a.ReturnMissing? {
        ReturnMissingStep(s, a, c);
      } else if a.DropNoSem? || a.PutBack? {
        ReturnStep(s, a, c);
      } else if a.Release? {
        ReleaseStep(s, t, c);
      } else {
        PhaseStep(s, a, c);
      }
    }
  }

  lemma PutFreshShape(s: State, r: nat)
    requires Shape(s)
    ensures Shape(PutFresh(s, r)) && |Pool(PutFresh(s, r), r)| == |Pool(s, r)| + 1
  {
    var s2 := PutFresh(s, r);
    assert PoolAt(s, r, |s.conts|);
    forall q: nat, i: nat ensures PoolAt(s2, q, i)
    {
      assert PoolAt(s, q, i);
    }
  }

  lemma SettleShape(s: State, t: nat, c: nat)
    requires Shape(s) && t < |s.jobs| && s.jobs[t].stage.Owing?
    ensures Shape(Finish(s, t, c))
  {
    var s2 := Finish(s, t, c);
    assert JobOk(s, s.jobs[t], t);
    forall i: nat | i < |s2.conts| ensures ContOk(s2, s2.conts[i], i) {
      assert ContOk(s, s.conts[i], i);
    }
    forall r: nat, i: nat ensures PoolAt(s2, r, i)
    {
      assert PoolAt(s, r, i);
    }
  }

  lemma BeginShape(s: State, def: Definition)
    requires Shape(s)
    ensures Shape(s.(jobs := s.jobs + [Job(def, Start, None)]))
  {
    var s2 := s.(jobs := s.jobs + [Job(def, Start, None)]);
    forall i: nat | i < |s2.conts| ensures ContOk(s2, s2.conts[i], i) {
      assert ContOk(s, s.conts[i], i);
    }
    forall r: nat, i: nat ensures PoolAt(s2, r, i)
    {
      assert PoolAt(s, r, i);
    }
  }

  lemma ShapeStep(s: State, a: Action)
    requires Shape(s)
    ensures Shape(Step(s, a))
  {
    if Enabled(s, a) {
      hide Shape, GoodStep, JobOk, ContOk, CacheOf;
      if a.Begin? {
        BeginShape(s, a.def);
      } else if a.Create? {
        PutFreshShape(s, a.r);
        SameShape(PutFresh(s, a.r), Step(s, a));
      } else if a.Recreate? {
        var c := s.jobs[a.t].stage.c;
        PutFreshShape(s, s.conts[c].def.runtime);
        SettleShape(PutFresh(s, s.conts[c].def.runtime), a.t, c);
      } else if Aside(a) {
        AsideFlags(s, a);
        FlagsShape(s, Step(s, a));
      } else {
        LocalStep(s, a);
        GoodShape(s, Step(s, a), a.t, Subject(s, a));
      }
    }
  }

  /** Only flags differ. */
  ghost predicate SameButFlags(s: State, s2: State) {
    && s2.config == s.config && s2.pools == s.pools && s2.created == s.created && s2.held == s.held
    && |s2.conts| == |s.conts| && |s2.jobs| == |s.jobs|
    && (forall c: nat {:trigger s2.conts[c]} :: c < |s.conts| ==>
          s2.conts[c] == s.conts[c].(halted := s2.conts[c].halted, stopped := s2.conts[c].stopped))
    && (forall t: nat {:trigger s2.jobs[t]} :: t < |s.jobs| ==> s2.jobs[t] == s.jobs[t].(cleanup := s2.jobs[t].cleanup))
  }

  lemma AsideFlags(s: State, a: Action)
    requires Enabled(s, a) && Aside(a)
    ensures SameButFlags(s, AsideOf(s, a))
  {
  }

  lemma FlagsShape(s: State, s2: State)
    requires Shape(s) && SameButFlags(s, s2)
    ensures Shape(s2)
  {
    forall t: nat | t < |s2.jobs| ensures JobOk(s2, s2.jobs[t], t) {
      assert JobOk(s, s.jobs[t], t);
    }
    forall c: nat | c < |s2.conts| ensures ContOk(s2, s2.conts[c], c) {
      assert ContOk(s, s.conts[c], c);
    }
    forall r: nat, i: nat ensures PoolAt(s2, r, i) {
      assert PoolAt(s, r, i);
    }
  }

  lemma SameShape(s: State, s2: State)
    requires Shape(s) && s2 == s.(created := s2.created)
    ensures Shape(s2)
  {
    forall c: nat | c < |s2.conts| ensures ContOk(s2, s2.conts[c], c) {
      assert ContOk(s, s.conts[c], c);
    }
    forall r: nat, i: nat ensures PoolAt(s2, r, i) {
      assert PoolAt(s, r, i);
    }
  }

  // ---- Whole runs ----

  lemma InitShape(config: Config)
    ensures Shape(Init(config))
  {
    forall r: nat, c: nat ensures PoolAt(Init(config), r, c) {
    }
  }

  lemma {:induction false} RunShape(config: Config, acts: seq<Action>)
    ensures Shape(Run(Init(config), acts)) && Run(Init(config), acts).config == config
  {
    hide Step, Shape;
    if acts == [] {
      InitShape(config);
    } else {
      var s := Run(Init(config), acts[..|acts| - 1]);
      RunShape(config, acts[..|acts| - 1]);
      ShapeStep(s, acts[|acts| - 1]);
      SameConfig(s, acts[|acts| - 1]);
    }
  }

  lemma SameConfig(s: State, a: Action)
    ensures Step(s, a).config == s.config
  {
  }

  ghost predicate Reachable(s: State) { exists acts :: s == Run(Init(s.config), acts) }
}
