/**
 Conservation of the container pools: what is in a pool and what jobs owe it is what CreatePool put in.
 */
module RunnerConservation {
  import opened Sums
  import opened RunnerPool
  import opened Wrappers

  ghost function OwesOf(s: State, r: nat): nat -> int {
    (t: nat) => if t < |s.jobs| && Owes(s.jobs[t].stage) && s.jobs[t].def.runtime == r then 1 else 0
  }

  /** Jobs that took a container of runtime r and have not put one back. */
  ghost function Owed(s: State, r: nat): int { SumTo(|s.jobs|, OwesOf(s, r)) }

  ghost predicate Balanced(s: State, r: nat) {
    |Pool(s, r)| + Owed(s, r) == Created(s, r) && Created(s, r) <= s.config.concurrency
  }

  lemma LocalOwed(s: State, s2: State, t: nat, r: nat)
    requires t < |s.jobs| && t < |s2.jobs| && s2.jobs == s.jobs[t := s2.jobs[t]]
    ensures Owed(s2, r) == Owed(s, r) - OwesOf(s, r)(t) + OwesOf(s2, r)(t)
  {
    hide Owes;
    SumChange(|s.jobs|, OwesOf(s, r), OwesOf(s2, r), t);
  }

  lemma LocalPool(s: State, s2: State, c: nat, r: nat)
    requires c < |s.conts| && c < |s2.conts| && PoolsFollow(s, s2, c) && PoolAt(s, r, c)
    ensures var k, k2 := s.conts[c], s2.conts[c];
            |Pool(s2, r)| == |Pool(s, r)|
              + (if k.owner.Some? && k2.owner.None? && k2.def.runtime == r then 1 else 0)
              - (if k.owner.None? && k2.owner.Some? && k.def.runtime == r then 1 else 0)
  {
  }

  lemma LocalBalance(s: State, s2: State, t: nat, c: nat, r: nat)
    requires Shape(s) && GoodStep(s, s2, t, c) && Balanced(s, r)
    ensures Balanced(s2, r)
  {
    assert PoolAt(s, r, c);
    LocalOwed(s, s2, t, r);
    LocalPool(s, s2, c, r);
    hide Shape, JobOk, SideOk, PoolsFollow, Touches, Owed, Pool, Owes;
  }

  lemma SettleBalance(s: State, t: nat, c: nat, r: nat)
    requires Shape(s) && t < |s.jobs| && s.jobs[t].stage.Owing?
    ensures Owed(Finish(s, t, c), r) == Owed(s, r) - if s.jobs[t].def.runtime == r then 1 else 0
  {
    SumChange(|s.jobs|, OwesOf(s, r), OwesOf(Finish(s, t, c), r), t);
  }

  lemma FlagsBalance(s: State, s2: State, r: nat)
    requires Balanced(s, r) && SameButFlags(s, s2)
    ensures Balanced(s2, r)
  {
    SumSame(|s.jobs|, OwesOf(s, r), OwesOf(s2, r));
  }

  lemma PutFreshCounts(s: State, q: nat, r: nat)
    requires Shape(s)
    ensures var s2 := PutFresh(s, q);
            && Owed(s2, r) == Owed(s, r) && Created(s2, r) == Created(s, r) && s2.config == s.config
            && |Pool(s2, r)| == |Pool(s, r)| + if q == r then 1 else 0
  {
    PutFreshShape(s, q);
    hide Shape, Owes;
    SumSame(|s.jobs|, OwesOf(s, r), OwesOf(PutFresh(s, q), r));
  }

  lemma CreateBalance(s: State, q: nat, r: nat)
    requires Shape(s) && Balanced(s, r) && Created(s, q) < s.config.concurrency
    ensures Balanced(PutFresh(s, q).(created := s.created[q := Created(s, q) + 1]), r)
  {
    hide Shape, Owes, PutFresh;
    PutFreshCounts(s, q, r);
    var s1 := PutFresh(s, q);
    var s2 := s1.(created := s.created[q := Created(s, q) + 1]);
    SumSame(|s1.jobs|, OwesOf(s1, r), OwesOf(s2, r));
    assert Pool(s2, r) == Pool(s1, r);
  }

  lemma BeginBalance(s: State, def: Definition, r: nat)
    requires Balanced(s, r)
    ensures Balanced(s.(jobs := s.jobs + [Job(def, Start, None)]), r)
  {
    var s2 := s.(jobs := s.jobs + [Job(def, Start, None)]);
    SumSame(|s.jobs|, OwesOf(s, r), OwesOf(s2, r));
    assert Pool(s2, r) == Pool(s, r);
  }

  lemma RecreateBalance(s: State, t: nat, r: nat)
    requires Shape(s) && Balanced(s, r) && At(s, t) && s.jobs[t].stage.Owing?
    ensures var c := s.jobs[t].stage.c; Balanced(Finish(PutFresh(s, s.conts[c].def.runtime), t, c), r)
  {
    var c := s.jobs[t].stage.c;
    var q := s.conts[c].def.runtime;
    assert s.jobs[t].def.runtime == q by { assert JobOk(s, s.jobs[t], t); }
    var s1 := PutFresh(s, q);
    hide JobOk, ContOk;
    PutFreshCounts(s, q, r);
    PutFreshShape(s, q);
    assert s1.jobs == s.jobs;
    SettleBalance(s1, t, c, r);
    FinishKeeps(s1, t, c, r);
    hide Shape, Owed, PutFresh, Pool, Created, Finish, Enabled;
  }

  lemma FinishKeeps(s: State, t: nat, c: nat, r: nat)
    requires t < |s.jobs|
    ensures var s2 := Finish(s, t, c);
            Pool(s2, r) == Pool(s, r) && Created(s2, r) == Created(s, r) && s2.config == s.config
  {
  }

  lemma BalanceStep(s: State, a: Action, r: nat)
    requires Shape(s) && Balanced(s, r)
    ensures Balanced(Step(s, a), r)
  {
    hide Balanced, Shape, PutFresh;
    if Enabled(s, a) {
      if a.Create? {
        CreateBalance(s, a.r, r);
      } else if a.Begin? {
        BeginBalance(s, a.def, r);
      } else if a.Recreate? {
        RecreateBalance(s, a.t, r);
      } else if Aside(a) {
        AsideFlags(s, a);
        FlagsBalance(s, Step(s, a), r);
      } else {
        LocalStep(s, a);
        hide GoodStep;
        LocalBalance(s, Step(s, a), a.t, Subject(s, a), r);
      }
    }
  }

  // ---- Whole runs ----

  lemma InitBalanced(config: Config, r: nat)
    ensures Balanced(Init(config), r)
  {
  }

  lemma {:induction false} RunBalance(config: Config, acts: seq<Action>, r: nat)
    ensures Balanced(Run(Init(config), acts), r)
  {
    hide Step, Shape, Balanced;
    if acts == [] {
      InitBalanced(config, r);
    } else {
      var s := Run(Init(config), acts[..|acts| - 1]);
      RunBalance(config, acts[..|acts| - 1], r);
      RunShape(config, acts[..|acts| - 1]);
      BalanceStep(s, acts[|acts| - 1], r);
    }
  }

  /**
   On every path, errors included, a pool and the jobs that still owe it a container make up what CreatePool
   put in; and no container is in a pool twice, or while a job has it.
   */
  lemma PoolConservation(s: State, r: nat)
    requires Reachable(s)
    ensures |Pool(s, r)| + Owed(s, r) == Created(s, r) <= s.config.concurrency
    ensures forall c :: Pool(s, r)[c] <= 1
    ensures forall t: nat :: t < |s.jobs| && Owes(s.jobs[t].stage) ==> s.jobs[t].stage.c !in Pool(s, r)
  {
    var acts :| s == Run(Init(s.config), acts);
    RunBalance(s.config, acts, r);
    RunShape(s.config, acts);
    hide Run, Step;
    forall c: nat ensures Pool(s, r)[c] <= 1 { assert PoolAt(s, r, c); }
    forall t: nat | t < |s.jobs| && Owes(s.jobs[t].stage) ensures s.jobs[t].stage.c !in Pool(s, r) {
      assert JobOk(s, s.jobs[t], t) && PoolAt(s, r, s.jobs[t].stage.c);
    }
  }

  /** The send that gives a container back always finds room in the channel. */
  lemma PutNeverBlocks(s: State, t: nat)
    requires Reachable(s) && At(s, t)
    requires Enabled(s, PutBack(t)) || Enabled(s, ReturnMissing(t)) || Enabled(s, Recreate(t))
    ensures |Pool(s, s.conts[s.jobs[t].stage.c].def.runtime)| < s.config.concurrency
  {
    assert Owes(s.jobs[t].stage);
    hide Enabled, Step;
    var acts :| s == Run(Init(s.config), acts);
    RunShape(s.config, acts);
    assert JobOk(s, s.jobs[t], t);
    var r := s.jobs[t].def.runtime;
    RunBalance(s.config, acts, r);
    hide Run, Shape, JobOk;
    SumAtLeast(|s.jobs|, OwesOf(s, r), t);
  }
}
