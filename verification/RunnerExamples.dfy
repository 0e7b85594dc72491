/**
 Short runs of one worker that reach the situations in which weight is lost, given back twice, or a pooled
 container is stopped.
 */
module RunnerExamples {
  import opened Wrappers
  import opened RunnerPool
  import opened RunnerSemaphore

  /** One container at a time, which gets the whole CPU. */
  const Small: Config := Options(1, 1000, 0)

  /** A script that needs all of it. */
  function Script(async: nat): Definition { Definition(0, async, 1000, "script") }

  lemma ScriptWeight(async: nat)
    ensures Weight(Small, Script(async).mcpu) == 1
  {
    assert CPULimit(Small) == 1000000000;
  }

  lemma RunSnoc(s: State, acts: seq<Action>, a: Action)
    ensures Run(s, acts + [a]) == Step(Run(s, acts), a)
  {
    assert (acts + [a])[..|acts|] == acts;
  }

  function Taken(d: Definition): seq<Action> { [] + [Create(0)] + [Begin(d)] + [Take(0, 0)] }

  function Attaching(d: Definition): seq<Action> { Taken(d) + [ReserveNew(0)] }

  function Finishing(d: Definition): seq<Action> {
    Attaching(d) + [List(0)] + [EndRun(0)] + [Release(0)] + [Recreate(0)]
  }

  function Again(d: Definition): seq<Action> { Finishing(d) + [Begin(d)] }

  lemma TakenState(d: Definition)
    requires d.runtime == 0
    ensures var s := Run(Init(Small), Taken(d));
            && s.config == Small && s.held == 0 && Created(s, 0) == 1
            && s.jobs == [Job(d, Took(0), None)]
            && s.conts == [Container(d, {}, 0, {}, Some(0), false, false, false)]
  {
    hide Run, Weight;
    var acts: seq<Action> := [];
    assert Run(Init(Small), acts) == Init(Small) by { EmptyRun(Init(Small)); }
    RunSnoc(Init(Small), [], Create(0));
    RunSnoc(Init(Small), [] + [Create(0)], Begin(d));
    RunSnoc(Init(Small), [] + [Create(0)] + [Begin(d)], Take(0, 0));
    var s1 := Step(Init(Small), Create(0));
    assert s1.conts == [Fresh(0)] && Pool(s1, 0) == multiset{0} && Created(s1, 0) == 1;
    var s2 := Step(s1, Begin(d));
    assert s2 == s1.(jobs := [Job(d, Start, None)]);
    assert Pool(s2, 0) == multiset{0};
  }

  lemma EmptyRun(s: State)
    ensures Run(s, []) == s
  {
  }

  lemma AttachedState(d: Definition)
    requires d.runtime == 0 && Weight(Small, d.mcpu) == 1
    ensures var s := Run(Init(Small), Attaching(d));
            && s.config == Small && s.held == 1 && Created(s, 0) == 1
            && s.jobs == [Job(d, Attached(0, true), None)]
            && s.conts == [Container(d, {0}, 1, {}, Some(0), false, false, false)]
  {
    TakenState(d);
    RunSnoc(Init(Small), Taken(d), ReserveNew(0));
    hide Run, Weight, Taken;
  }

  lemma FinishedState(d: Definition)
    requires d.runtime == 0 && Weight(Small, d.mcpu) == 1
    ensures var s := Run(Init(Small), Finishing(d));
            && s.config == Small && s.held == 0 && Created(s, 0) == 1
            && s.jobs == [Job(d, Finished, Some(0))]
            && s.conts == [Container(d, {}, 0, {}, Some(0), true, false, false), Fresh(0)]
  {
    AttachedState(d);
    var acts := Attaching(d);
    RunSnoc(Init(Small), acts, List(0));
    RunSnoc(Init(Small), acts + [List(0)], EndRun(0));
    RunSnoc(Init(Small), acts + [List(0)] + [EndRun(0)], Release(0));
    RunSnoc(Init(Small), acts + [List(0)] + [EndRun(0)] + [Release(0)], Recreate(0));
    hide Run, Weight, Attaching;
    var s := Run(Init(Small), acts);
    ListEnds(s, d);
    ReleaseRecreates(Step(Step(s, List(0)), EndRun(0)), d);
    hide Step;
  }

  lemma ListEnds(s: State, d: Definition)
    requires s.jobs == [Job(d, Attached(0, true), None)]
    requires s.conts == [Container(d, {0}, 1, {}, Some(0), false, false, false)]
    ensures Step(Step(s, List(0)), EndRun(0)) ==
            s.(jobs := [Job(d, Ended(0, true), None)], conts := [Container(d, {0}, 1, {}, Some(0), true, false, false)])
  {
    assert Step(s, List(0)) == s.(conts := [Container(d, {0}, 1, {}, Some(0), true, false, false)]);
  }

  lemma ReleaseRecreates(s: State, d: Definition)
    requires s.config == Small && Weight(Small, d.mcpu) == 1 && d.runtime == 0 && Created(s, 0) == 1
    requires s.held == 1 && s.jobs == [Job(d, Ended(0, true), None)]
    requires s.conts == [Container(d, {0}, 1, {}, Some(0), true, false, false)]
    ensures var s2 := Step(Step(s, Release(0)), Recreate(0));
            && s2.config == Small && s2.held == 0 && Created(s2, 0) == 1
            && s2.jobs == [Job(d, Finished, Some(0))]
            && s2.conts == [Container(d, {}, 0, {}, Some(0), true, false, false), Fresh(0)]
  {
    hide Weight;
    assert Step(s, Release(0)) == s.(jobs := [Job(d, Owing(0), None)], held := 0,
                                     conts := [Container(d, {}, 0, {}, Some(0), true, false, false)]);
  }

  lemma AgainState(d: Definition)
    requires d.runtime == 0 && Weight(Small, d.mcpu) == 1
    ensures var s := Run(Init(Small), Again(d));
            && s.config == Small && s.held == 0 && |s.conts| == 2 && |s.jobs| == 2
            && s.jobs[1] == Job(d, Start, None)
            && s.conts[0] == Container(d, {}, 0, {}, Some(0), true, false, false)
  {
    FinishedState(d);
    RunSnoc(Init(Small), Finishing(d), Begin(d));
    hide Run, Weight, Finishing;
  }

  /** A missing resource after the weight was acquired. */
  lemma MissingResourceHappens()
    ensures var s := Run(Init(Small), Attaching(Script(0)) + [LinkMissing(0)]);
            LosesWeight(s, ReturnMissing(0)) && Clean(ReturnMissing(0))
  {
    ScriptWeight(0);
    AttachedState(Script(0));
    RunSnoc(Init(Small), Attaching(Script(0)), LinkMissing(0));
    hide Run, Weight, Attaching;
    var s := Run(Init(Small), Attaching(Script(0)));
    LinkMissingTo(s);
    hide Step;
    CanReturn(Step(s, LinkMissing(0)));
  }

  lemma LinkMissingTo(s: State)
    requires |s.jobs| == 1 && s.jobs[0].stage == Attached(0, true) && |s.conts| == 1 && !s.conts[0].listed
    ensures Step(s, LinkMissing(0)) == Move(s, 0, Missing(0))
  {
  }

  lemma CanReturn(s: State)
    requires |s.jobs| == 1 && s.jobs[0].stage == Missing(0) && |s.conts| == 1 && s.conts[0].acquired > 0
    ensures LosesWeight(s, ReturnMissing(0))
  {
  }

  /** An update that fails on a cached container while that is being evicted. */
  lemma UpdateFailureHappens()
    ensures var s := Run(Init(Small), Again(Script(2)) + [Evict(0)]);
            LosesWeight(s, UpdateFails(1, 0, true)) && Clean(UpdateFails(1, 0, true))
  {
    ScriptWeight(2);
    AgainState(Script(2));
    RunSnoc(Init(Small), Again(Script(2)), Evict(0));
    hide Run, Weight, Again;
    var s := Run(Init(Small), Again(Script(2)));
    EvictTo(s);
    hide Step;
    CanFailUpdate(Step(s, Evict(0)));
  }

  lemma EvictTo(s: State)
    requires |s.conts| == 2 && s.conts[0].listed && s.conts[0].conns == {}
    ensures Step(s, Evict(0)) == s.(conts := s.conts[0 := s.conts[0].(halted := true, stopped := true)])
  {
  }

  lemma CanFailUpdate(s: State)
    requires |s.conts| == 2 && s.conts[0].listed && s.conts[0].conns == {} && s.conts[0].halted
    requires |s.jobs| == 2 && s.jobs[1].stage.Start? && s.jobs[1].def == s.conts[0].def == Script(2)
    requires s.held == 0 && s.config == Small && WeightOf(s, Script(2)) == 1
    ensures LosesWeight(s, UpdateFails(1, 0, true))
  {
    hide Weight, WeightOf;
  }

  lemma RunReachable(config: Config, acts: seq<Action>)
    ensures Reachable(Run(Init(config), acts))
    ensures (forall a :: a in acts ==> Clean(a)) ==> CleanlyReachable(Run(Init(config), acts))
  {
    RunShape(config, acts);
    hide Step, Shape;
    assert Run(Init(config), acts) == Run(Init(Run(Init(config), acts).config), acts);
  }

  /** Acquire fails on an idle cached container. */
  lemma AcquireFailureHappens()
    ensures var s := Run(Init(Small), Again(Script(0)));
            Enabled(s, AcquireFails(1, 0, false)) && CleanlyReachable(s) && WeightOf(s, s.jobs[1].def) == 1
  {
    hide Run, Step, CleanlyReachable, Again, Weight;
    ScriptWeight(0);
    AgainState(Script(0));
    AllClean(Script(0));
    RunReachable(Small, Again(Script(0)));
  }

  lemma AllClean(d: Definition)
    ensures forall a :: a in Again(d) ==> Clean(a)
  {
  }

  /** Acquire fails on a fresh container. */
  lemma FreshFailureHappens()
    ensures var s := Run(Init(Small), Taken(Script(0))); Enabled(s, AcquireNewFails(0)) && Reachable(s)
  {
    hide Run, Step, Reachable, Taken;
    TakenState(Script(0));
    RunReachable(Small, Taken(Script(0)));
  }
}
