/**
 The decision loop of the load balancer's autoscaler.  A tick carries what the loop reads: the two gauges,
 the answer of the scale endpoint, and the clock.
 */
module Autoscaler {
  import opened Wrappers

  datatype Options = Options(
    upscaleConsecutive: int,
    downscaleConsecutive: int,
    minScale: int,
    maxScale: int,
    minFreeCPU: nat,
    maxFreeCPU: nat,
    cooldown: int)

  datatype Replicas = Replicas(desired: int, current: int)

  type Int64 = x: int | -0x8000_0000_0000_0000 <= x < 0x8000_0000_0000_0000

  datatype Tick = Tick(
    workerCount: int,
    freeCPU: Int64,               // value of the WorkerCPU gauge
    replicas: Option<Replicas>,   // None: getReplicas failed
    now: int,                     // when the cooldown is checked
    updated: int)                 // when lastUpdate is set, if the tick updates

  datatype State = State(upscale: int, downscale: int, lastUpdate: int)

  function Start(now: int): State { State(0, 0, now) }

  /** uint of an int64 */
  function Uint(x: Int64): nat { if x < 0 then x + 0x1_0000_0000_0000_0000 else x }

  /** How a tick is treated, before the counters are looked at. */
  datatype Kind = Skipped | Up | Down | AtLimit | Reset

  function KindOf(o: Options, lastUpdate: int, t: Tick): Kind {
    if t.workerCount <= 0 || t.replicas.None? then Skipped
    else
      var r := t.replicas.value;
      if t.workerCount == r.current && Uint(t.freeCPU) < o.minFreeCPU && r.current == r.desired then
        if r.desired < o.maxScale then Up else AtLimit
      else if Uint(t.freeCPU) > o.maxFreeCPU && t.now - lastUpdate > o.cooldown then
        if r.desired > o.minScale then Down else AtLimit
      else Reset
  }

  // ---- The loop ----

  class Autoscaler {
    const options: Options
    var upscaleConsecutive: int
    var downscaleConsecutive: int
    var lastUpdate: int

    ghost function Now(): State
      reads this
    {
      State(upscaleConsecutive, downscaleConsecutive, lastUpdate)
    }

    constructor (options: Options, now: int)
      ensures this.options == options && Now() == Start(now)
    {
      this.options := options;
      upscaleConsecutive, downscaleConsecutive, lastUpdate := 0, 0, now;
    }

    /** One tick of the loop; the result is the argument of updateReplicas. */
    method OnTick(t: Tick) returns (update: Option<int>)
      modifies this
      ensures (Now(), update) == Next(options, old(Now()), t)
    {
      update := None;
      if t.workerCount <= 0 { return; }
      var freeCPU := Uint(t.freeCPU);
      if t.replicas.None? { return; }
      var changed := false;
      var desiredReplicas, curReplicas := t.replicas.value.desired, t.replicas.value.current;
      if t.workerCount == curReplicas && freeCPU < options.minFreeCPU && curReplicas == desiredReplicas {
        if desiredReplicas < options.maxScale {
          if upscaleConsecutive + 1 > options.upscaleConsecutive {
            desiredReplicas := desiredReplicas + 1;
            changed := true;
          } else {
            upscaleConsecutive := upscaleConsecutive + 1;
          }
        }
      } else if freeCPU > options.maxFreeCPU && t.now - lastUpdate > options.cooldown {
        if desiredReplicas > options.minScale {
          if downscaleConsecutive + 1 > options.downscaleConsecutive {
            desiredReplicas := desiredReplicas - 1;
            changed := true;
          } else {
            downscaleConsecutive := downscaleConsecutive + 1;
          }
        }
      } else {
        downscaleConsecutive := 0;
        upscaleConsecutive := 0;
      }
      if changed {
        lastUpdate := t.updated;
        update := Some(desiredReplicas);
      }
    }
  }

  /** What one tick does to the state, and the update it sends. */
  function Next(o: Options, s: State, t: Tick): (State, Option<int>) {
    match KindOf(o, s.lastUpdate, t)
    case Up =>
      if s.upscale >= o.upscaleConsecutive then (s.(lastUpdate := t.updated), Some(t.replicas.value.desired + 1))
      else (s.(upscale := s.upscale + 1), None)
    case Down =>
      if s.downscale >= o.downscaleConsecutive then (s.(lastUpdate := t.updated), Some(t.replicas.value.desired - 1))
      else (s.(downscale := s.downscale + 1), None)
    case Reset => (s.(upscale := 0, downscale := 0), None)
    case _ => (s, None)
  }

  // ---- What a tick calls for ----

  /** uint of the gauge. */
  predicate Below(t: Tick, limit: nat) {
    (t.freeCPU >= 0 && t.freeCPU < limit) || (t.freeCPU < 0 && t.freeCPU + 0x1_0000_0000_0000_0000 < limit)
  }

  predicate Above(t: Tick, limit: nat) {
    (t.freeCPU >= 0 && t.freeCPU > limit) || (t.freeCPU < 0 && t.freeCPU + 0x1_0000_0000_0000_0000 > limit)
  }

  /** All workers are there, none is on the way, and they have too little free CPU. */
  predicate TooLittle(o: Options, t: Tick) {
    && t.workerCount > 0 && t.replicas.Some?
    && t.workerCount == t.replicas.value.current == t.replicas.value.desired && Below(t, o.minFreeCPU)
  }

  /** There is too much free CPU, and the last update was long enough ago. */
  predicate TooMuch(o: Options, lastUpdate: int, t: Tick) {
    && t.workerCount > 0 && t.replicas.Some? && !TooLittle(o, t)
    && Above(t, o.maxFreeCPU) && t.now - lastUpdate > o.cooldown
  }

  /** Which ticks are counted, and which reset the counters. */
  lemma KindSays(o: Options, lastUpdate: int, t: Tick)
    ensures KindOf(o, lastUpdate, t) == Up <==> TooLittle(o, t) && t.replicas.value.desired < o.maxScale
    ensures KindOf(o, lastUpdate, t) == Down <==> TooMuch(o, lastUpdate, t) && t.replicas.value.desired > o.minScale
    ensures KindOf(o, lastUpdate, t) == Reset <==>
              t.workerCount > 0 && t.replicas.Some? && !TooLittle(o, t) && !TooMuch(o, lastUpdate, t)
    ensures KindOf(o, lastUpdate, t) == Skipped <==> t.workerCount <= 0 || t.replicas.None?
  {
  }

  // ---- Whole runs ----

  function Run(o: Options, start: int, ticks: seq<Tick>): State {
    if ticks == [] then Start(start) else Next(o, Run(o, start, ticks[..|ticks| - 1]), ticks[|ticks| - 1]).0
  }

  /** The update that tick n sends. */
  function UpdateAt(o: Options, start: int, ticks: seq<Tick>, n: nat): Option<int>
    requires n < |ticks|
  {
    Next(o, Run(o, start, ticks[..n]), ticks[n]).1
  }

  function KindAt(o: Options, start: int, ticks: seq<Tick>, n: nat): Kind
    requires n < |ticks|
  {
    KindOf(o, Run(o, start, ticks[..n]).lastUpdate, ticks[n])
  }

  /** Ticks of a kind among the first n, counted from the last reset. */
  function Counted(o: Options, start: int, ticks: seq<Tick>, kind: Kind, n: nat): nat
    requires n <= |ticks|
  {
    if n == 0 then 0
    else
      var k := KindAt(o, start, ticks, n - 1);
      if k == Reset then 0
      else Counted(o, start, ticks, kind, n - 1) + if k == kind then 1 else 0
  }

  /** When the last of the first n ticks that updated did so; the start of the loop if none did. */
  function LastUpdate(o: Options, start: int, ticks: seq<Tick>, n: nat): int
    requires n <= |ticks|
  {
    if n == 0 then start
    else if UpdateAt(o, start, ticks, n - 1).Some? then ticks[n - 1].updated
    else LastUpdate(o, start, ticks, n - 1)
  }

  function Capped(count: nat, limit: int): int {
    if limit < 0 then 0 else if count < limit then count else limit
  }

  /** The counters never forget a counted tick before a reset, and an update does not reset them. */
  lemma {:induction false} StateExact(o: Options, start: int, ticks: seq<Tick>, n: nat)
    requires n <= |ticks|
    ensures var s := Run(o, start, ticks[..n]);
            && s.upscale == Capped(Counted(o, start, ticks, Up, n), o.upscaleConsecutive)
            && s.downscale == Capped(Counted(o, start, ticks, Down, n), o.downscaleConsecutive)
            && s.lastUpdate == LastUpdate(o, start, ticks, n)
  {
    if n > 0 {
      StateExact(o, start, ticks, n - 1);
      assert ticks[..n][..n - 1] == ticks[..n - 1] && ticks[..n][n - 1] == ticks[n - 1];
      hide KindOf;
    }
  }

  /**
   A tick updates exactly when it calls for it and enough ticks of its kind were counted since the last
   reset; it changes the replicas by one and stays within the scale.
   */
  lemma UpdatesExactly(o: Options, start: int, ticks: seq<Tick>, n: nat)
    requires n < |ticks|
    ensures var u, k := UpdateAt(o, start, ticks, n), KindAt(o, start, ticks, n);
            && (u.Some? <==>
                  || (k == Up && Counted(o, start, ticks, Up, n) >= o.upscaleConsecutive)
                  || (k == Down && Counted(o, start, ticks, Down, n) >= o.downscaleConsecutive))
            && (u.Some? && k == Up ==> u.value == ticks[n].replicas.value.desired + 1 <= o.maxScale)
            && (u.Some? && k == Down ==> u.value == ticks[n].replicas.value.desired - 1 >= o.minScale)
  {
    StateExact(o, start, ticks, n);
  }

  /**
   From the readings of a tick and the time of the last update before it: which update it sends, and what becomes of
   the counters.
   */
  lemma TickSays(o: Options, start: int, ticks: seq<Tick>, n: nat)
    requires n < |ticks|
    ensures var t, u, last := ticks[n], UpdateAt(o, start, ticks, n), LastUpdate(o, start, ticks, n);
            var s, s2 := Run(o, start, ticks[..n]), Run(o, start, ticks[..n + 1]);
            var up, down := TooLittle(o, t), TooMuch(o, last, t);
            && (u.Some? ==>
                  || (up && t.replicas.value.desired < o.maxScale && u.value == t.replicas.value.desired + 1)
                  || (down && t.replicas.value.desired > o.minScale && u.value == t.replicas.value.desired - 1))
            && (s2.upscale > s.upscale ==> up && t.replicas.value.desired < o.maxScale && s2.upscale == s.upscale + 1)
            && (s2.downscale > s.downscale ==>
                  down && t.replicas.value.desired > o.minScale && s2.downscale == s.downscale + 1)
            && (t.workerCount > 0 && t.replicas.Some? && !up && !down ==> s2.upscale == 0 == s2.downscale)
            && (s2.upscale < s.upscale || s2.downscale < s.downscale ==>
                  t.workerCount > 0 && t.replicas.Some? && !up && !down)
            && s2.lastUpdate == (if u.Some? then t.updated else last)
  {
    StateExact(o, start, ticks, n);
    assert ticks[..n + 1][..n] == ticks[..n];
    NeverNegative(o, start, ticks[..n]);
    KindSays(o, LastUpdate(o, start, ticks, n), ticks[n]);
    hide KindOf, TooLittle, TooMuch;
  }

  lemma {:induction false} NeverNegative(o: Options, start: int, ticks: seq<Tick>)
    ensures Run(o, start, ticks).upscale >= 0 && Run(o, start, ticks).downscale >= 0
  {
    hide KindOf;
    if ticks != [] { NeverNegative(o, start, ticks[..|ticks| - 1]); }
  }

  /** Tick i is the last one before tick n that updated. */
  ghost predicate UpdatesLast(o: Options, start: int, ticks: seq<Tick>, i: nat, n: nat)
    requires n <= |ticks|
  {
    && i < n && UpdateAt(o, start, ticks, i).Some?
    && forall j: nat :: i < j < n ==> UpdateAt(o, start, ticks, j).None?
  }

  /** A decrease comes more than the cooldown after the update before it, and after the start of the loop. */
  lemma CooldownKept(o: Options, start: int, ticks: seq<Tick>, n: nat)
    requires n < |ticks| && UpdateAt(o, start, ticks, n).Some?
    requires ticks[n].replicas.Some? && UpdateAt(o, start, ticks, n).value < ticks[n].replicas.value.desired
    ensures forall i: nat :: UpdatesLast(o, start, ticks, i, n) ==> ticks[n].now - ticks[i].updated > o.cooldown
    ensures (forall i: nat :: i < n ==> UpdateAt(o, start, ticks, i).None?) ==> ticks[n].now - start > o.cooldown
  {
    StateExact(o, start, ticks, n);
    forall i: nat | UpdatesLast(o, start, ticks, i, n) ensures ticks[n].now - ticks[i].updated > o.cooldown {
      LatestUpdate(o, start, ticks, i, n);
    }
    if forall i: nat :: i < n ==> UpdateAt(o, start, ticks, i).None? {
      NoUpdate(o, start, ticks, n);
    }
  }

  lemma {:induction false} NoUpdate(o: Options, start: int, ticks: seq<Tick>, n: nat)
    requires n <= |ticks| && forall i: nat :: i < n ==> UpdateAt(o, start, ticks, i).None?
    ensures LastUpdate(o, start, ticks, n) == start
  {
    if n > 0 { NoUpdate(o, start, ticks, n - 1); }
  }

  lemma {:induction false} LatestUpdate(o: Options, start: int, ticks: seq<Tick>, i: nat, n: nat)
    requires n <= |ticks| && UpdatesLast(o, start, ticks, i, n)
    ensures LastUpdate(o, start, ticks, n) == ticks[i].updated
  {
    if i < n - 1 {
      LatestUpdate(o, start, ticks, i, n - 1);
    }
  }

  /** Counted ticks stay counted until a reset. */
  lemma {:induction false} CountedGrows(o: Options, start: int, ticks: seq<Tick>, kind: Kind, i: nat, n: nat)
    requires i <= n <= |ticks| && kind != Reset
    requires forall j: nat :: i <= j < n ==> KindAt(o, start, ticks, j) != Reset
    ensures Counted(o, start, ticks, kind, i) <= Counted(o, start, ticks, kind, n)
  {
    if i < n { CountedGrows(o, start, ticks, kind, i, n - 1); }
  }

  /** Once a tick has updated, every later tick of its kind updates as well, until a reset. */
  lemma NoWaitAfterUpdate(o: Options, start: int, ticks: seq<Tick>, i: nat, n: nat)
    requires i < n < |ticks| && UpdateAt(o, start, ticks, i).Some?
    requires forall j: nat :: i <= j < n ==> KindAt(o, start, ticks, j) != Reset
    requires KindAt(o, start, ticks, n) == KindAt(o, start, ticks, i)
    ensures UpdateAt(o, start, ticks, n).Some?
  {
    UpdatesExactly(o, start, ticks, i);
    UpdatesExactly(o, start, ticks, n);
    CountedGrows(o, start, ticks, KindAt(o, start, ticks, i), i, n);
  }

  // ---- The scale ----

  /** The value is the initial one or was asked for before tick n. */
  ghost predicate WasAsked(o: Options, start: int, ticks: seq<Tick>, initial: int, v: int, n: nat)
    requires n <= |ticks|
  {
    v == initial || exists i: nat :: i < n && UpdateAt(o, start, ticks, i) == Some(v)
  }

  /** Nobody else scales the deployment; updates may fail, or take effect late or out of order. */
  ghost predicate OwnScale(o: Options, start: int, ticks: seq<Tick>, initial: int) {
    forall n: nat :: n < |ticks| && ticks[n].replicas.Some? ==>
      WasAsked(o, start, ticks, initial, ticks[n].replicas.value.desired, n)
  }

  /** An update is one off what its tick saw, towards a bound that was not reached. */
  lemma OneUpdate(o: Options, start: int, ticks: seq<Tick>, n: nat)
    requires n < |ticks| && UpdateAt(o, start, ticks, n).Some?
    ensures ticks[n].replicas.Some?
    ensures var seen, v := ticks[n].replicas.value.desired, UpdateAt(o, start, ticks, n).value;
            (v == seen + 1 && v <= o.maxScale) || (v == seen - 1 && v >= o.minScale)
  {
    UpdatesExactly(o, start, ticks, n);
  }

  /**
   Started within the scale, the deployment is never asked to leave it, and each update is one off what its tick saw.
   */
  lemma {:induction false} StaysInScale(o: Options, start: int, ticks: seq<Tick>, initial: int, n: nat)
    requires n <= |ticks| && OwnScale(o, start, ticks, initial) && o.minScale <= initial <= o.maxScale
    ensures forall v :: WasAsked(o, start, ticks, initial, v, n) ==> o.minScale <= v <= o.maxScale
    ensures forall i: nat :: i < n && UpdateAt(o, start, ticks, i).Some? ==>
              ticks[i].replicas.Some?
              && var d := UpdateAt(o, start, ticks, i).value - ticks[i].replicas.value.desired; d == 1 || d == -1
  {
    hide UpdateAt;
    if n > 0 {
      StaysInScale(o, start, ticks, initial, n - 1);
      if UpdateAt(o, start, ticks, n - 1).Some? {
        OneUpdate(o, start, ticks, n - 1);
        SeenWasAsked(o, start, ticks, initial, n - 1);
      }
      forall v | WasAsked(o, start, ticks, initial, v, n) ensures o.minScale <= v <= o.maxScale {
        if !WasAsked(o, start, ticks, initial, v, n - 1) {
          assert UpdateAt(o, start, ticks, n - 1) == Some(v);
        }
      }
    }
  }

  lemma SeenWasAsked(o: Options, start: int, ticks: seq<Tick>, initial: int, n: nat)
    requires n < |ticks| && ticks[n].replicas.Some? && OwnScale(o, start, ticks, initial)
    ensures WasAsked(o, start, ticks, initial, ticks[n].replicas.value.desired, n)
  {
  }

  // ---- Closed loop ----

  /** Nobody else scales the deployment, and each tick sees what was last asked for. */
  ghost predicate ClosedLoop(o: Options, start: int, ticks: seq<Tick>, initial: int) {
    forall n: nat :: n < |ticks| && ticks[n].replicas.Some? ==>
      ticks[n].replicas.value.desired == Asked(o, start, ticks, initial, n)
  }

  /** Replicas last asked for before tick n. */
  function Asked(o: Options, start: int, ticks: seq<Tick>, initial: int, n: nat): int
    requires n <= |ticks|
  {
    if n == 0 then initial
    else
      match UpdateAt(o, start, ticks, n - 1)
      case Some(v) => v
      case None => Asked(o, start, ticks, initial, n - 1)
  }

  // ---- Surprises ----

  /** A tick with workers, an answer, a negative gauge, and the cooldown behind it. */
  predicate Negative(o: Options, lastUpdate: int, t: Tick) {
    t.freeCPU < 0 && t.workerCount > 0 && t.replicas.Some? && t.now - lastUpdate > o.cooldown
  }

  /** A negative gauge reads as a huge one. */
  lemma NegativeStep(o: Options, s: State, t: Tick)
    requires Negative(o, s.lastUpdate, t)
    requires o.minFreeCPU < 0x8000_0000_0000_0000 && o.maxFreeCPU < 0x8000_0000_0000_0000
    ensures var d := t.replicas.value.desired; var (r, update) := Next(o, s, t);
            && (update == if d > o.minScale && s.downscale >= o.downscaleConsecutive then Some(d - 1) else None)
            && (r.downscale == s.downscale + if d > o.minScale && s.downscale < o.downscaleConsecutive then 1 else 0)
  {
  }

  lemma LastTick(o: Options, start: int, ticks: seq<Tick>, initial: int, n: nat)
    requires 0 < n <= |ticks|
    ensures var step := Next(o, Run(o, start, ticks[..n - 1]), ticks[n - 1]);
            && Run(o, start, ticks[..n]) == step.0
            && Asked(o, start, ticks, initial, n) ==
                 if step.1.Some? then step.1.value else Asked(o, start, ticks, initial, n - 1)
  {
    assert ticks[..n][..n - 1] == ticks[..n - 1] && ticks[..n][n - 1] == ticks[n - 1];
    hide Next;
  }

  function Max(a: int, b: int): int { if a < b then b else a }

  /** Replicas asked for after n ticks with a negative gauge. */
  function Drained(o: Options, initial: int, n: nat): int {
    Max(o.minScale, initial - Max(0, n - Max(0, o.downscaleConsecutive)))
  }

  /**
   While the gauge is negative and each tick comes after the cooldown, the deployment is scaled down by one replica a
   tick, without pause once the first downscaleConsecutive ticks are over, until it reaches MinScale.
   */
  lemma {:induction false} NegativeGauge(o: Options, start: int, ticks: seq<Tick>, initial: int, n: nat)
    requires n <= |ticks| && ClosedLoop(o, start, ticks, initial) && o.minScale <= initial
    requires o.minFreeCPU < 0x8000_0000_0000_0000 && o.maxFreeCPU < 0x8000_0000_0000_0000
    requires forall i: nat :: i < n ==> Negative(o, Run(o, start, ticks[..i]).lastUpdate, ticks[i])
    ensures Asked(o, start, ticks, initial, n) == Drained(o, initial, n)
    ensures initial > o.minScale ==>
              Run(o, start, ticks[..n]).downscale ==
                if n < o.downscaleConsecutive then n else Max(0, o.downscaleConsecutive)
  {
    if n > 0 {
      hide Run, Asked, Next, Negative;
      NegativeGauge(o, start, ticks, initial, n - 1);
      var s, t := Run(o, start, ticks[..n - 1]), ticks[n - 1];
      assert Negative(o, s.lastUpdate, t);
      NegativeAnswers(o, s.lastUpdate, t);
      NegativeStep(o, s, t);
      LastTick(o, start, ticks, initial, n);
      assert t.replicas.value.desired == Asked(o, start, ticks, initial, n - 1);
    }
  }

  lemma NegativeAnswers(o: Options, lastUpdate: int, t: Tick)
    requires Negative(o, lastUpdate, t)
    ensures t.replicas.Some?
  {
  }

  /**
   The counted ticks need not be consecutive: one that is skipped, or that stops at a limit, may stand
   anywhere between them without a trace.
   */
  lemma {:induction false} SkippedLeavesNoTrace(o: Options, start: int, before: seq<Tick>, t: Tick, more: seq<Tick>)
    requires var k := KindOf(o, Run(o, start, before).lastUpdate, t); k == Skipped || k == AtLimit
    ensures Run(o, start, before + [t] + more) == Run(o, start, before + more)
    decreases |more|
  {
    if more == [] {
      assert before + [t] + more == before + [t] && before + more == before && (before + [t])[..|before|] == before;
    } else {
      var n := |more| - 1;
      SkippedLeavesNoTrace(o, start, before, t, more[..n]);
      assert (before + [t] + more)[..|before| + 1 + n] == before + [t] + more[..n];
      assert (before + more)[..|before| + n] == before + more[..n];
    }
  }
}
