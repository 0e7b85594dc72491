/**
 The lifecycle of a container: `state` is changed only by compare-and-swap, in SendSetup,
 StopAcceptingConnections and Stop.  One step is one compare-and-swap.
 */
module ContainerState {
  import opened Wrappers

  datatype Phase = Fresh | Running | Stopping | Stopped

  function Rank(p: Phase): nat {
    match p
    case Fresh => 0
    case Running => 1
    case Stopping => 2
    case Stopped => 3
  }

  /** `stop` tells Stop from a bare StopAcceptingConnections. */
  datatype Thread =
    | Idle
    | Setup                  // about to swap Fresh for Running
    | First(stop: bool)      // about to swap Running for Stopping
    | Second(stop: bool)     // that failed; about to swap Fresh for Stopping
    | Third                  // about to swap Stopping for Stopped
    | Returned               // SendSetup or StopAcceptingConnections returned
    | Won                    // Stop returned true
    | Lost                   // Stop returned false

  datatype State = State(phase: Phase, threads: seq<Thread>)

  datatype Action = Call(p: Thread) | Swap(t: nat)

  const Init := State(Fresh, [])

  predicate Enabled(s: State, a: Action) {
    match a
    case Call(p) => p.Setup? || p.First?
    case Swap(t) =>
      t < |s.threads| && (s.threads[t].Setup? || s.threads[t].First? || s.threads[t].Second? || s.threads[t].Third?)
  }

  /** atomic.CompareAndSwapUint32 */
  function Cas(phase: Phase, expected: Phase, next: Phase): Phase { if phase == expected then next else phase }

  function AfterStopping(stop: bool): Thread { if stop then Third else Returned }

  function DoSwap(s: State, t: nat): State
    requires Enabled(s, Swap(t))
  {
    match s.threads[t]
    case Setup => State(Cas(s.phase, Fresh, Running), s.threads[t := Returned])
    case First(stop) =>
      var next := if s.phase == Running then AfterStopping(stop) else Second(stop);
      State(Cas(s.phase, Running, Stopping), s.threads[t := next])
    case Second(stop) => State(Cas(s.phase, Fresh, Stopping), s.threads[t := AfterStopping(stop)])
    case Third => State(Cas(s.phase, Stopping, Stopped), s.threads[t := if s.phase == Stopping then Won else Lost])
  }

  function Step(s: State, a: Action): State {
    if !Enabled(s, a) then s
    else
      match a
      case Call(p) => s.(threads := s.threads + [p])
      case Swap(t) => DoSwap(s, t)
  }

  function Run(s: State, acts: seq<Action>): State {
    if acts == [] then s else Step(Run(s, acts[..|acts| - 1]), acts[|acts| - 1])
  }

  /** IsAcceptingConnections */
  predicate Accepting(s: State) { s.phase == Running }

  // ---- Monotone state, one winner ----

  lemma {:induction false} PhaseForward(s: State, acts: seq<Action>)
    ensures Rank(s.phase) <= Rank(Run(s, acts).phase) && |s.threads| <= |Run(s, acts).threads|
  {
    if acts != [] { PhaseForward(s, acts[..|acts| - 1]); }
  }

  /** A container that stopped accepting connections never accepts one again. */
  lemma NeverAcceptsAgain(s: State, acts: seq<Action>)
    requires Rank(s.phase) > Rank(Running)
    ensures !Accepting(Run(s, acts))
  {
    PhaseForward(s, acts);
  }

  predicate HasWon(s: State, t: nat) { t < |s.threads| && s.threads[t].Won? }

  ghost predicate OneWinner(s: State) {
    && (s.phase == Stopped <==> exists t: nat :: HasWon(s, t))
    && (forall t: nat, u: nat :: HasWon(s, t) && HasWon(s, u) ==> t == u)
  }

  lemma OneWinnerStep(s: State, a: Action)
    requires OneWinner(s)
    ensures OneWinner(Step(s, a))
  {
    var s2 := Step(s, a);
    if a.Swap? && Enabled(s, a) && s.threads[a.t].Third? && s.phase == Stopping {
      assert HasWon(s2, a.t);
    }
    forall t: nat | HasWon(s, t) ensures HasWon(s2, t) {
    }
    forall t: nat | HasWon(s2, t) && !HasWon(s, t) ensures a == Swap(t) && s.phase == Stopping {
    }
  }

  lemma NobodyWonYet()
    ensures OneWinner(Init)
  {
  }

  /** Whatever the interleaving, at most one Stop succeeds, and one has once the container is stopped. */
  lemma {:induction false} StopSucceedsOnce(acts: seq<Action>)
    ensures OneWinner(Run(Init, acts))
  {
    hide Step, OneWinner;
    if acts == [] {
      NobodyWonYet();
    } else {
      StopSucceedsOnce(acts[..|acts| - 1]);
      OneWinnerStep(Run(Init, acts[..|acts| - 1]), acts[|acts| - 1]);
    }
  }

  // ---- Calls that meet no other ----

  predicate Returns(p: Thread) { p.Returned? || p.Won? || p.Lost? }

  /** Three swaps of thread t, as many as a call makes at most. */
  function Alone(s: State, t: nat): State {
    Step(Step(Step(s, Swap(t)), Swap(t)), Swap(t))
  }

  /**
   Undisturbed, SendSetup makes a fresh container accept connections and no other; a stop leaves no container accepting,
   whatever its state, and Stop succeeds and stops the container exactly when nobody stopped it before.
   */
  lemma AloneExactly(s: State, t: nat)
    requires t < |s.threads| && (s.threads[t].Setup? || s.threads[t].First?)
    ensures var r := Alone(s, t);
            && t < |r.threads| && Returns(r.threads[t]) && r.threads == s.threads[t := r.threads[t]]
            && (s.threads[t].Setup? ==>
                  r.threads[t].Returned? && r.phase == if s.phase == Fresh then Running else s.phase)
            && (s.threads[t] == First(false) ==>
                  r.threads[t].Returned? && r.phase == if s.phase == Stopped then Stopped else Stopping)
            && (s.threads[t] == First(true) ==> r.phase == Stopped && (r.threads[t].Won? <==> s.phase != Stopped))
  {
    var s1 := Step(s, Swap(t));
    var s2 := Step(s1, Swap(t));
    assert Enabled(s, Swap(t)) && s1 == DoSwap(s, t);
    assert s2.threads == s.threads[t := s2.threads[t]];
  }

  // ---- StopAcceptingConnections ----

  lemma {:induction false} ThreadWaits(s: State, acts: seq<Action>, t: nat)
    requires t < |s.threads| && Swap(t) !in acts
    ensures t < |Run(s, acts).threads| && Run(s, acts).threads[t] == s.threads[t]
  {
    if acts != [] {
      ThreadWaits(s, acts[..|acts| - 1], t);
      assert acts[|acts| - 1] in acts;
    }
  }

  /** The two swaps of thread t with `between` in the middle. */
  function StopWith(s: State, t: nat, between: seq<Action>): State {
    Step(Run(Step(s, Swap(t)), between), Swap(t))
  }

  /** The swap that action i makes, if it makes one. */
  function Stage(s: State, acts: seq<Action>, i: nat): Option<Thread>
    requires i < |acts|
  {
    var r := Run(s, acts[..i]);
    if acts[i].Swap? && Enabled(r, acts[i]) then Some(r.threads[acts[i].t]) else None
  }

  predicate Changes(stage: Option<Thread>) { stage.Some? && (stage.value.Setup? || stage.value.Second?) }

  predicate Stops(stage: Option<Thread>) { stage.Some? && stage.value.First? }

  /** Action i is the first to find the container fresh and change it, it is a SendSetup, and no First swap follows. */
  ghost predicate Overtakes(s: State, acts: seq<Action>, i: nat) {
    && i < |acts| && Stage(s, acts, i) == Some(Setup)
    && (forall j: nat :: j < i ==> !Changes(Stage(s, acts, j)))
    && (forall j: nat :: i < j < |acts| ==> !Stops(Stage(s, acts, j)))
  }

  lemma StageFront(s: State, acts: seq<Action>, i: nat)
    requires i + 1 < |acts|
    ensures Stage(s, acts, i) == Stage(s, acts[..|acts| - 1], i)
  {
    assert acts[..|acts| - 1][..i] == acts[..i];
  }

  /** A fresh container stays fresh as long as no SendSetup and no second swap of a stop comes. */
  lemma {:induction false} FreshExactly(s: State, acts: seq<Action>)
    requires s.phase == Fresh
    ensures Run(s, acts).phase == Fresh <==> forall i: nat :: i < |acts| ==> !Changes(Stage(s, acts, i))
  {
    if acts != [] {
      var last := |acts| - 1;
      var front := acts[..last];
      FreshExactly(s, front);
      PhaseForward(s, front);
      forall i: nat | i < last ensures Stage(s, acts, i) == Stage(s, front, i) {
        StageFront(s, acts, i);
      }
      if Run(s, front).phase != Fresh {
        var i: nat :| i < last && Changes(Stage(s, front, i));
        assert Changes(Stage(s, acts, i));
      } else {
        assert Run(s, acts).phase == Fresh <==> !Changes(Stage(s, acts, last));
      }
    }
  }

  lemma LastOvertakes(s: State, acts: seq<Action>)
    requires s.phase == Fresh && acts != []
    ensures var front := acts[..|acts| - 1];
            Overtakes(s, acts, |acts| - 1) <==>
              Run(s, front).phase == Fresh && Stage(s, acts, |acts| - 1) == Some(Setup)
  {
    var last := |acts| - 1;
    var front := acts[..last];
    FreshExactly(s, front);
    forall i: nat | i < last ensures Stage(s, acts, i) == Stage(s, front, i) {
      StageFront(s, acts, i);
    }
    hide Stage, Run;
    if Run(s, front).phase != Fresh {
      var i: nat :| i < last && Changes(Stage(s, front, i));
      assert Changes(Stage(s, acts, i));
    }
  }

  lemma FrontOvertakes(s: State, acts: seq<Action>, i: nat)
    requires i + 1 < |acts|
    ensures var front := acts[..|acts| - 1];
            Overtakes(s, acts, i) <==> Overtakes(s, front, i) && !Stops(Stage(s, acts, |acts| - 1))
  {
    var last := |acts| - 1;
    var front := acts[..last];
    forall i: nat | i < last ensures Stage(s, acts, i) == Stage(s, front, i) {
      StageFront(s, acts, i);
    }
    hide Stage;
    if Overtakes(s, acts, i) {
      forall j: nat | j < i ensures !Changes(Stage(s, front, j)) {
        assert !Changes(Stage(s, acts, j));
      }
      forall j: nat | i < j < |front| ensures !Stops(Stage(s, front, j)) {
        assert !Stops(Stage(s, acts, j));
      }
    }
  }

  lemma LastStep(s: State, acts: seq<Action>)
    requires acts != []
    ensures var p := Run(s, acts[..|acts| - 1]).phase; var stage := Stage(s, acts, |acts| - 1);
            Accepting(Run(s, acts)) <==> (p == Fresh && stage == Some(Setup)) || (p == Running && !Stops(stage))
  {
  }

  /** A fresh container ends up accepting connections exactly when one SendSetup comes first and no stop after it. */
  lemma {:induction false} AcceptsExactly(s: State, acts: seq<Action>)
    requires s.phase == Fresh
    ensures Accepting(Run(s, acts)) <==> exists i: nat :: Overtakes(s, acts, i)
  {
    if acts == [] { return; }
    var last := |acts| - 1;
    var front := acts[..last];
    AcceptsExactly(s, front);
    LastStep(s, acts);
    LastOvertakes(s, acts);
    hide Run, Stage, Stops;
    if Accepting(Run(s, acts)) && !Overtakes(s, acts, last) {
      var i: nat :| Overtakes(s, front, i);
      FrontOvertakes(s, acts, i);
    }
    if i: nat :| Overtakes(s, acts, i) {
      if i < last { FrontOvertakes(s, acts, i); }
    }
  }

  /**
   StopAcceptingConnections leaves the container accepting exactly when its first swap found the container fresh and
   then, before its second, a SendSetup was the first to change that and no First swap of another stop followed.
   */
  lemma StopFailsExactly(s: State, t: nat, between: seq<Action>)
    requires t < |s.threads| && s.threads[t] == First(false) && Swap(t) !in between
    ensures Accepting(StopWith(s, t, between)) <==>
              s.phase == Fresh && exists i: nat :: Overtakes(Step(s, Swap(t)), between, i)
  {
    var s1 := Step(s, Swap(t));
    ThreadWaits(s1, between, t);
    PhaseForward(s1, between);
    if s.phase == Fresh { AcceptsExactly(s1, between); }
    hide Overtakes;
  }

  /** It can happen: a setup and a stop that overlap. */
  lemma StopCanBeOvertaken(s: State, t: nat, u: nat)
    requires s.phase == Fresh && t < |s.threads| && u < |s.threads|
    requires s.threads[t] == First(false) && s.threads[u] == Setup
    ensures Accepting(StopWith(s, t, [Swap(u)]))
    ensures var s2 := StopWith(s, t, [Swap(u)]); t < |s2.threads| && s2.threads[t].Returned?
  {
    var s1 := Step(s, Swap(t));
    assert [Swap(u)][..0] == [] && Run(s1, []) == s1;
    assert Run(s1, [Swap(u)]) == Step(s1, Swap(u));
  }
}
