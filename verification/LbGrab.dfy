/**
 Container selection of the load balancer: grabWorkerContainer and findWorkerWithMaxFreeCPU, run
 against arbitrary interference.  Between any two atomic actions of the selecting thread the
 environment may run any actions of other threads; `env(k)` is what it runs at the k-th pause.
 `wraps` counts the refunds among them that take free CPU past 2^31 - 1.
 */
module LbGrab {
  import opened LbReservation
  import opened LbInterference
  import opened Wrappers

  /** Thread t is in the selection loop. */
  ghost predicate Held(s: State, t: nat) {
    Inv(s) && s.mu == Some(t) && t < |s.threads|
  }

  /** The environment runs while t holds mu. */
  method Pause(s: State, t: nat, acts: seq<Action>) returns (r: State, ghost wraps: nat)
    requires Held(s, t)
    ensures r == Run(s, Others(t, acts)) && wraps == WrapCount(s, Others(t, acts))
    ensures Held(r, t) && Meanwhile(s, r, t, wraps)
  {
    MeanwhileRun(s, acts, t);
    HeldMu(s, Run(s, Others(t, acts)), t, WrapCount(s, Others(t, acts)));
    r, wraps := Run(s, Others(t, acts)), WrapCount(s, Others(t, acts));
  }

  /** The state after n pauses, the first of them the at-th. */
  function Paused(s: State, t: nat, env: nat -> seq<Action>, at: nat, n: nat): State {
    if n == 0 then s else Run(Paused(s, t, env, at, n - 1), Others(t, env(at + n - 1)))
  }

  lemma HeldConts(s: State, t: nat)
    requires Held(s, t)
    ensures forall c: nat :: c < |s.conts| ==> HasCont(s, c)
  {
  }

  predicate HasCont(s: State, c: nat) { c < |s.conts| && s.conts[c].worker < |s.workers| }

  /** What the loop reads of one entry: FreeCPU() in one state, workers.Get or Conns() in a later one. */
  datatype Look = Look(first: State, second: State)

  predicate Sees(l: Look, c: nat) { HasCont(l.first, c) && HasCont(l.second, c) }

  /** The loop would accept container c on its own. */
  predicate Offered(l: Look, c: nat, async: nat)
    requires Sees(l, c)
  {
    || (async <= 1 && l.second.workers[l.second.conts[c].worker].registered && FreeAt(l.first, c) > 0)
    || (async > 1 && l.second.conts[c].conns < async)
  }

  function FreeAt(s: State, c: nat): int
    requires HasCont(s, c)
  {
    s.workers[s.conts[c].worker].freeCPU
  }

  ghost predicate SeenSince(s0: State, seen: seq<Look>, cached: seq<nat>, t: nat) {
    && |seen| <= |cached|
    && forall i: nat :: i < |seen| ==>
         Sees(seen[i], cached[i]) && KeepsHold(s0, seen[i].first, t) && KeepsHold(s0, seen[i].second, t)
  }

  /** Entry i is not blacklisted and was an offer when it was read. */
  ghost predicate Candidate(seen: seq<Look>, cached: seq<nat>, async: nat, blacklist: set<nat>, i: nat) {
    && i < |seen| <= |cached| && cached[i] !in blacklist
    && Sees(seen[i], cached[i]) && Offered(seen[i], cached[i], async)
  }

  /** Without async, entry i is the first candidate with most free CPU; with async, the last candidate. */
  ghost predicate Best(seen: seq<Look>, cached: seq<nat>, async: nat, blacklist: set<nat>, i: nat) {
    && Candidate(seen, cached, async, blacklist, i)
    && forall j: nat :: Candidate(seen, cached, async, blacklist, j) && j != i ==>
         if async <= 1 then
           var a, b := FreeAt(seen[j].first, cached[j]), FreeAt(seen[i].first, cached[i]); a < b || (a == b && i < j)
         else j < i
  }

  /** What a scan over n cached containers reads. */
  function Reads(s: State, t: nat, env: nat -> seq<Action>, n: nat): seq<Look> {
    seq(n, i requires 0 <= i < n => Look(Paused(s, t, env, 0, 2 * i + 1), Paused(s, t, env, 0, 2 * i + 2)))
  }

  lemma ReadsMore(s: State, t: nat, env: nat -> seq<Action>, n: nat)
    ensures var r := Paused(s, t, env, 0, 2 * n + 1);
            && r == Run(Paused(s, t, env, 0, 2 * n), Others(t, env(2 * n)))
            && Paused(s, t, env, 0, 2 * n + 2) == Run(r, Others(t, env(2 * n + 1)))
            && Reads(s, t, env, n + 1) == Reads(s, t, env, n) + [Look(r, Paused(s, t, env, 0, 2 * n + 2))]
  {
    hide Run, Others;
  }

  lemma NoReads(s: State, t: nat, env: nat -> seq<Action>, at: nat)
    ensures Reads(s, t, env, 0) == [] && Scans(s, t, env, at, 0) == [] && Paused(s, t, env, at, 0) == s
  {
  }

  /** One more entry was read: how the choice follows. */
  lemma ReadOne(seen: seq<Look>, l: Look, cached: seq<nat>, async: nat, blacklist: set<nat>, best: Option<nat>,
                cpu: int)
    requires |seen| < |cached| && Sees(l, cached[|seen|])
    requires best.None? ==> cpu == 0 && forall j: nat :: !Candidate(seen, cached, async, blacklist, j)
    requires best.Some? ==>
               Best(seen, cached, async, blacklist, best.value)
                 && FreeAt(seen[best.value].first, cached[best.value]) == cpu
    ensures var n := |seen|;
            var registered := l.second.workers[l.second.conts[cached[n]].worker].registered;
            var taken := cached[n] !in blacklist
                         && ((registered && async <= 1 && FreeAt(l.first, cached[n]) > cpu)
                             || (async > 1 && l.second.conts[cached[n]].conns < async));
            && (taken ==> Best(seen + [l], cached, async, blacklist, n))
            && (!taken && best.Some? ==> Best(seen + [l], cached, async, blacklist, best.value))
            && (!taken && best.None? ==> forall j: nat :: !Candidate(seen + [l], cached, async, blacklist, j))
  {
    var n, more := |seen|, seen + [l];
    forall j: nat | j < n
      ensures Candidate(more, cached, async, blacklist, j) <==> Candidate(seen, cached, async, blacklist, j)
    {
      assert more[j] == seen[j];
    }
    assert more[n] == l;
    if best.Some? { assert more[best.value] == seen[best.value]; }
    hide HasCont;
  }

  /**
   The scan over the containers cached for the definition; other threads run before every read.  A non-shared
   container is the best of all offers read; a shared one still has a free connection when the scan ends.
   */
  method SelectCached(s0: State, t: nat, cached: seq<nat>, async: nat, blacklist: set<nat>, env: nat -> seq<Action>)
    returns (s: State, best: Option<nat>, ghost seen: seq<Look>, ghost at: nat, ghost wraps: nat)
    requires Held(s0, t)
    requires forall i: nat :: i < |cached| ==> cached[i] < |s0.conts| && s0.conts[cached[i]].async == async
    ensures Held(s, t) && Meanwhile(s0, s, t, wraps) && s == Paused(s0, t, env, 0, 2 * |cached|)
    ensures seen == Reads(s0, t, env, |cached|) && SeenSince(s0, seen, cached, t)
    ensures best.None? ==> forall i: nat :: !Candidate(seen, cached, async, blacklist, i)
    ensures best.Some? ==>
              && Best(seen, cached, async, blacklist, at) && best.value == cached[at] && best.value < |s.conts|
              && (async > 1 ==> s.conts[best.value].conns < async)
  {
    NothingRead(s0, cached, async, blacklist, t);
    hide Inv, Run, Step, Best, Candidate, Meanwhile, KeepsHold, SeenSince, Reads, Paused, Others;
    s, best, seen, at, wraps := s0, None, [], 0, 0;
    HeldSelf(s0, t);
    NoReads(s0, t, env, 0);
    var freeCPU := 0;
    var i: nat := 0;
    while i < |cached|
      invariant i <= |cached| && |seen| == i
      invariant seen == Reads(s0, t, env, i) && s == Paused(s0, t, env, 0, 2 * i)
      invariant Held(s, t) && Meanwhile(s0, s, t, wraps) && SeenSince(s0, seen, cached, t)
      invariant best.None? ==> freeCPU == 0 && forall j: nat :: !Candidate(seen, cached, async, blacklist, j)
      invariant best.Some? ==>
                  && at < i && cached[at] == best.value && Best(seen, cached, async, blacklist, at)
                  && HasCont(seen[at].first, cached[at]) && freeCPU == FreeAt(seen[at].first, cached[at])
                  && best.value < |s.conts| && (async > 1 ==> s.conts[best.value].conns < async)
    {
      var c := cached[i];
      ghost var n;
      var r1, r2;
      r1, n := Pause(s, t, env(2 * i));
      var cpu := ReadFree(s0, s, r1, t, c, wraps, n);
      if best.Some? { RoomStays(s, r1, t, best.value, n); }
      wraps := wraps + n;
      r2, n := Pause(r1, t, env(2 * i + 1));
      var registered, conns := ReadRest(s0, r1, r2, t, c, wraps, n);
      if best.Some? { RoomStays(r1, r2, t, best.value, n); }
      wraps := wraps + n;
      ghost var l := Look(r1, r2);
      ReadsMore(s0, t, env, i);
      ReadOne(seen, l, cached, async, blacklist, if best.Some? then Some(at) else None, freeCPU);
      SeeOne(s0, seen, cached, l, t);
      if c !in blacklist {
        if (registered && async <= 1 && cpu > freeCPU) || (async > 1 && conns < async) {
          best, freeCPU, at := Some(c), cpu, i;
        }
      }
      seen := seen + [l];
      s := r2;
      i := i + 1;
    }
  }

  lemma HeldSelf(s: State, t: nat)
    requires Held(s, t)
    ensures Meanwhile(s, s, t, 0)
  {
    HoldSelf(s, t);
  }

  lemma NothingRead(s0: State, cached: seq<nat>, async: nat, blacklist: set<nat>, t: nat)
    ensures SeenSince(s0, [], cached, t)
    ensures forall j: nat :: !Candidate([], cached, async, blacklist, j)
  {
  }

  lemma SeeOne(s0: State, seen: seq<Look>, cached: seq<nat>, l: Look, t: nat)
    requires SeenSince(s0, seen, cached, t) && |seen| < |cached| && Sees(l, cached[|seen|])
    requires KeepsHold(s0, l.first, t) && KeepsHold(s0, l.second, t)
    ensures SeenSince(s0, seen + [l], cached, t)
  {
    hide KeepsHold, Sees;
  }

  lemma RoomStays(s: State, r: State, t: nat, c: nat, wraps: nat)
    requires Meanwhile(s, r, t, wraps) && c < |s.conts|
    ensures c < |r.conts| && r.conts[c].conns <= s.conts[c].conns
  {
    hide Onward, FreeRises;
  }

  /** FreeCPU() */
  method ReadFree(ghost s0: State, ghost s: State, r: State, ghost t: nat, c: nat, ghost m: nat, ghost n: nat)
    returns (cpu: int)
    requires Held(r, t) && Meanwhile(s0, s, t, m) && Meanwhile(s, r, t, n) && c < |s0.conts|
    ensures Meanwhile(s0, r, t, m + n) && KeepsHold(s0, r, t) && HasCont(r, c) && cpu == FreeAt(r, c)
  {
    MeanwhileTrans(s0, s, r, t, m, n);
    HeldMu(s0, r, t, m + n);
    HeldConts(r, t);
    hide Inv, Meanwhile;
    assert HasCont(r, c);
    cpu := r.workers[r.conts[c].worker].freeCPU;
  }

  /** workers.Get(id) != nil, and Conns() */
  method ReadRest(ghost s0: State, ghost s: State, r: State, ghost t: nat, c: nat, ghost m: nat, ghost n: nat)
    returns (registered: bool, conns: int)
    requires Held(r, t) && Meanwhile(s0, s, t, m) && Meanwhile(s, r, t, n) && c < |s0.conts|
    ensures Meanwhile(s0, r, t, m + n) && KeepsHold(s0, r, t) && HasCont(r, c)
    ensures registered == r.workers[r.conts[c].worker].registered && conns == r.conts[c].conns
  {
    MeanwhileTrans(s0, s, r, t, m, n);
    HeldMu(s0, r, t, m + n);
    HeldConts(r, t);
    hide Inv, Meanwhile;
    assert HasCont(r, c);
    registered, conns := r.workers[r.conts[c].worker].registered, r.conts[c].conns;
  }

  /** Worker w was in the cache when it was read. */
  predicate Present(seen: seq<State>, w: nat) {
    w < |seen| && w < |seen[w].workers| && seen[w].workers[w].registered
  }

  /** Worker v had less to offer than worker w when they were read. */
  predicate NoBetter(seen: seq<State>, v: nat, w: nat)
    requires Present(seen, v) && Present(seen, w)
  {
    var a, b := seen[v].workers[v], seen[w].workers[w];
    a.freeCPU < b.freeCPU || (a.freeCPU == b.freeCPU && a.freeMemory <= b.freeMemory)
  }

  /** What a scan over n workers reads. */
  function Scans(s: State, t: nat, env: nat -> seq<Action>, at: nat, n: nat): seq<State> {
    seq(n, i requires 0 <= i < n => Paused(s, t, env, at, i + 1))
  }

  lemma ScansMore(s: State, t: nat, env: nat -> seq<Action>, at: nat, n: nat)
    ensures var r := Paused(s, t, env, at, n + 1);
            && r == Run(Paused(s, t, env, at, n), Others(t, env(at + n)))
            && Scans(s, t, env, at, n + 1) == Scans(s, t, env, at, n) + [r]
  {
    hide Run, Others;
  }

  /** None of the workers read is better. */
  ghost predicate Unbeaten(seen: seq<State>, w: nat) {
    Present(seen, w) && forall v: nat :: Present(seen, v) ==> NoBetter(seen, v, w)
  }

  /**
   The scan over all workers; other threads run before each is read.  The worker chosen was registered, and had
   most free CPU, ties broken by free memory; none is chosen only if none is registered any more.
   */
  method FindWorkerWithMaxFreeCPU(s0: State, t: nat, env: nat -> seq<Action>, at: nat)
    returns (s: State, chosen: Option<nat>, ghost seen: seq<State>, ghost wraps: nat)
    requires Held(s0, t)
    ensures Held(s, t) && Meanwhile(s0, s, t, wraps) && s == Paused(s0, t, env, at, |s0.workers|)
    ensures seen == Scans(s0, t, env, at, |s0.workers|)
    ensures chosen.None? ==> forall w: nat :: w < |s0.workers| ==> w < |s.workers| && !s.workers[w].registered
    ensures chosen.None? ==> forall w: nat :: !Present(seen, w)
    ensures chosen.Some? ==>
              Unbeaten(seen, chosen.value) && chosen.value < |s.workers| && s.workers[chosen.value].alive
  {
    hide Inv, Run, Step, Meanwhile, Scans, Paused, Others;
    s, chosen, seen, wraps := s0, None, [], 0;
    HoldSelf(s0, t);
    NoReads(s0, t, env, at);
    var mCPU, memory := 0, 0;
    var i: nat := 0;
    while i < |s0.workers|
      invariant i <= |s0.workers| && |seen| == i
      invariant seen == Scans(s0, t, env, at, i) && s == Paused(s0, t, env, at, i)
      invariant Held(s, t) && Meanwhile(s0, s, t, wraps)
      invariant |s0.workers| <= |s.workers|
      invariant chosen.None? ==> forall w: nat :: w < i ==> w < |s.workers| && !s.workers[w].registered
      invariant chosen.None? ==> forall w: nat :: !Present(seen, w)
      invariant chosen.Some? ==>
                  && Present(seen, chosen.value)
                  && var w := seen[chosen.value].workers[chosen.value];
                     w.freeCPU == mCPU && w.freeMemory == memory
      invariant chosen.Some? ==> chosen.value < |s.workers| && s.workers[chosen.value].alive
      invariant chosen.Some? ==> forall w: nat :: Present(seen, w) ==> NoBetter(seen, w, chosen.value)
    {
      ghost var n;
      var r;
      r, n := Pause(s, t, env(at + i));
      HeldMu(s, r, t, n);
      MeanwhileTrans(s0, s, r, t, wraps, n);
      wraps := wraps + n;
      HeldMu(s0, r, t, wraps);
      var w := r.workers[i];
      ScanOne(seen, r, chosen);
      ScansMore(s0, t, env, at, i);
      if w.registered {
        PresentAlive(r, t, i);
        if chosen.None? || w.freeCPU > mCPU || (mCPU == w.freeCPU && w.freeMemory > memory) {
          chosen, mCPU, memory := Some(i), w.freeCPU, w.freeMemory;
        }
      }
      seen := seen + [r];
      s := r;
      i := i + 1;
    }
  }

  /** One more worker was read: what was seen before stays, and the better one of two is better than all. */
  lemma ScanOne(seen: seq<State>, r: State, chosen: Option<nat>)
    requires |seen| < |r.workers|
    requires chosen.Some? ==>
               Present(seen, chosen.value) && forall w: nat :: Present(seen, w) ==> NoBetter(seen, w, chosen.value)
    requires chosen.None? ==> forall w: nat :: !Present(seen, w)
    ensures var n, more := |seen|, seen + [r]; var w := r.workers[n];
            && (Present(more, n) <==> w.registered)
            && (forall v: nat :: Present(more, v) <==> Present(seen, v) || (v == n && w.registered))
            && (forall v: nat :: Present(seen, v) ==> more[v] == seen[v])
            && (chosen.Some? && (!w.registered || NoBetter(more, n, chosen.value)) ==>
                  forall v: nat :: Present(more, v) ==> NoBetter(more, v, chosen.value))
            && (w.registered && (chosen.None? || NoBetter(more, chosen.value, n)) ==>
                  forall v: nat :: Present(more, v) ==> NoBetter(more, v, n))
  {
    var more := seen + [r];
    assert forall v: nat :: v < |seen| ==> more[v] == seen[v];
  }

  lemma PresentAlive(s: State, t: nat, w: nat)
    requires Held(s, t) && w < |s.workers| && s.workers[w].registered
    ensures s.workers[w].alive
  {
  }

  /** Containers and workers known before are still there, and life and death did not change. */
  ghost predicate SameLives(s: State, r: State) {
    && |s.workers| <= |r.workers| && |s.conts| <= |r.conts|
    && (forall w: nat :: w < |s.workers| ==>
          r.workers[w].alive == s.workers[w].alive && r.workers[w].defaultMCPU == s.workers[w].defaultMCPU)
    && (forall c: nat :: c < |s.conts| ==> r.conts[c].(conns := 0) == s.conts[c].(conns := 0))
  }

  /** The same, with the same containers, and n refunds that wrapped on the way. */
  ghost predicate Since(s: State, r: State, n: nat) {
    SameLives(s, r) && |r.conts| == |s.conts| && Onward(s, r, n)
  }

  lemma SinceTrans(s: State, q: State, r: State, m: nat, n: nat)
    requires Since(s, q, m) && Since(q, r, n)
    ensures Since(s, r, m + n)
  {
    OnwardTrans(s, q, r, m, n);
    hide Onward;
  }

  lemma SinceLives(s: State, r: State, n: nat)
    requires Since(s, r, n)
    ensures SameLives(s, r) && Onward(s, r, n) && |r.conts| == |s.conts|
  {
  }

  lemma SinceSolvent(s: State, r: State, n: nat)
    requires Since(s, r, n) && Solvent(s)
    ensures n == 0
  {
  }

  lemma MeanwhileSince(s: State, r: State, t: nat, n: nat)
    requires Meanwhile(s, r, t, n)
    ensures Since(s, r, n) && r.threads[t] == s.threads[t]
    ensures forall c: nat :: c < |s.conts| ==> r.conts[c].conns <= s.conts[c].conns
  {
  }

  // ---- The selecting thread's own steps ----

  lemma CountShape(s: State, t: nat)
    requires Shape(s) && s.mu == Some(t) && t < |s.threads| && s.threads[t].Picked?
    ensures var r := Step(s, Count(t));
            var c := s.threads[t].c;
            && Enabled(s, Count(t)) && r.mu == Some(t) && |r.threads| == |s.threads|
            && HasCont(s, c) && r.threads[t] == Counted(c, s.conts[c].conns + 1)
            && HasCont(r, c) && r.conts[c].conns == s.conts[c].conns + 1
            && |r.conts| == |s.conts| && SameLives(s, r)
  {
  }

  lemma CountStep(s: State, t: nat)
    requires Held(s, t) && s.threads[t].Picked?
    ensures var r := Step(s, Count(t));
            var c := s.threads[t].c;
            && Held(r, t) && Since(s, r, 0) && HasCont(s, c) && r.threads[t] == Counted(c, s.conts[c].conns + 1)
            && HasCont(r, c) && r.conts[c].conns == s.conts[c].conns + 1
  {
    hide Step, SameLives;
    InvShape(s);
    CountShape(s, t);
    StepInv(s, Count(t));
    OwnOnward(s, Count(t), t);
    hide Onward, Inv, Enabled;
  }

  lemma MeasureStep(s: State, t: nat)
    requires Held(s, t) && s.threads[t].Counted?
    ensures var r := Step(s, Measure(t));
            var c := s.threads[t].c;
            && Held(r, t) && Since(s, r, 0) && HasCont(s, c) && 1 <= s.threads[t].n
            && r.threads[t] == Measured(c, s.threads[t].n, FreeAt(s, c) > s.conts[c].mCPU)
            && r.workers == s.workers && r.conts == s.conts
  {
    StepInv(s, Measure(t));
    OwnOnward(s, Measure(t), t);
    hide Onward;
    assert Justified(s, s.threads[t]);
  }

  /** Worker.reserve refuses. */
  predicate Refuses(s: State, c: nat, n: int, required: bool)
    requires HasCont(s, c)
  {
    var w := s.workers[s.conts[c].worker];
    !w.alive || (n == 1 && required && w.freeCPU < s.conts[c].mCPU)
  }

  lemma EnterShape(s: State, t: nat)
    requires Shape(s) && s.mu == Some(t) && t < |s.threads| && s.threads[t].Measured? && 1 <= s.threads[t].n
    ensures var r := Step(s, Enter(t));
            var p := s.threads[t];
            && HasCont(s, p.c) && Enabled(s, Enter(t)) && r.mu == Some(t)
            && |r.threads| == |s.threads| && |r.workers| == |s.workers| && r.conts == s.conts
            && r.threads[t] == (if Refuses(s, p.c, p.n, p.required) then Refused(p.c)
                                else if p.n > 1 then Bypass(p.c) else Debited(p.c))
            && (Refuses(s, p.c, p.n, p.required) ==> !Pays(s, t))
            && SameLives(s, r)
  {
  }

  lemma EnterStep(s: State, t: nat)
    requires Held(s, t) && s.threads[t].Measured? && 1 <= s.threads[t].n
    ensures var r := Step(s, Enter(t));
            var p := s.threads[t];
            && HasCont(s, p.c) && Held(r, t) && r.conts == s.conts && SameLives(s, r)
            && r.threads[t] == (if Refuses(s, p.c, p.n, p.required) then Refused(p.c)
                                else if p.n > 1 then Bypass(p.c) else Debited(p.c))
            && (Refuses(s, p.c, p.n, p.required) ==> Since(s, r, 0))
  {
    hide Step, SameLives;
    StepInv(s, Enter(t));
    InvShape(s);
    EnterShape(s, t);
    if !Pays(s, t) { OwnOnward(s, Enter(t), t); }
    hide Inv, Onward, Enabled;
  }

  lemma PostShape(s: State, t: nat)
    requires Shape(s) && s.mu == Some(t) && t < |s.threads| && (s.threads[t].Bypass? || s.threads[t].Debited?)
    ensures var r := Step(s, Post(t));
            && r.mu == Some(t) && t < |r.threads| && r.threads[t] == Granted(s.threads[t].c) && r.conts == s.conts
            && |r.workers| == |s.workers| && SameLives(s, r)
  {
  }

  lemma PostStep(s: State, t: nat)
    requires Held(s, t) && (s.threads[t].Bypass? || s.threads[t].Debited?)
    ensures var r := Step(s, Post(t));
            Held(r, t) && r.threads[t] == Granted(s.threads[t].c) && r.conts == s.conts && SameLives(s, r)
  {
    hide Step;
    StepInv(s, Post(t));
    PostShape(s, t);
  }

  lemma UndoShape(s: State, t: nat)
    requires Shape(s) && s.mu == Some(t) && t < |s.threads| && s.threads[t].Refused?
    ensures var r := Step(s, Undo(t)); var c := s.threads[t].c;
            && Enabled(s, Undo(t)) && r.mu == Some(t) && |r.threads| == |s.threads| && r.threads[t] == Choosing
            && SameLives(s, r) && |r.conts| == |s.conts| && HasCont(s, c)
            && r.conts[c].conns == s.conts[c].conns - 1
  {
  }

  lemma UndoStep(s: State, t: nat)
    requires Held(s, t) && s.threads[t].Refused?
    ensures var r := Step(s, Undo(t)); var c := s.threads[t].c;
            && Held(r, t) && Since(s, r, 0) && r.threads[t] == Choosing && HasCont(s, c)
            && r.conts[c].conns == s.conts[c].conns - 1
  {
    hide Step, SameLives;
    InvShape(s);
    UndoShape(s, t);
    StepInv(s, Undo(t));
    OwnOnward(s, Undo(t), t);
    hide Onward, Inv, Enabled;
  }

  lemma LivesTrans(s: State, q: State, r: State)
    requires SameLives(s, q) && SameLives(q, r)
    ensures SameLives(s, r)
  {
  }

  lemma SameCont(s: State, r: State, c: nat)
    requires SameLives(s, r) && HasCont(s, c)
    ensures HasCont(r, c) && r.conts[c].(conns := 0) == s.conts[c].(conns := 0)
    ensures var v, w := s.workers[s.conts[c].worker], r.workers[r.conts[c].worker];
            w.alive == v.alive && w.defaultMCPU == v.defaultMCPU
  {
  }

  lemma FreeMeanwhile(s: State, r: State, t: nat, c: nat, n: nat)
    requires Meanwhile(s, r, t, n) && HasCont(s, c) && HasCont(r, c) && r.conts[c].worker == s.conts[c].worker
    ensures n == 0 && s.workers[s.conts[c].worker].alive ==> FreeAt(s, c) <= FreeAt(r, c)
  {
    hide Onward, KeepsHold;
  }

  /** The conclusion of WorkerContainer.Reserve on container c that counted n connections. */
  predicate GivesUp(s0: State, c: nat, n: int, tested: State, entered: State)
    requires HasCont(s0, c) && HasCont(tested, c) && HasCont(entered, c)
  {
    || !s0.workers[s0.conts[c].worker].alive
    || (n == 1 && FreeAt(entered, c) < s0.conts[c].mCPU < FreeAt(tested, c))
  }

  // The states of one Reserve call: at the increment, at the test of FreeCPU(), in Worker.reserve, after it, and at
  // the end.

  function CountedAt(s: State, t: nat, env: nat -> seq<Action>, at: nat): State { Run(s, Others(t, env(at))) }

  function TestedAt(s: State, t: nat, env: nat -> seq<Action>, at: nat): State {
    Run(Step(CountedAt(s, t, env, at), Count(t)), Others(t, env(at + 1)))
  }

  function EnteredAt(s: State, t: nat, env: nat -> seq<Action>, at: nat): State {
    Run(Step(TestedAt(s, t, env, at), Measure(t)), Others(t, env(at + 2)))
  }

  function LeftAt(s: State, t: nat, env: nat -> seq<Action>, at: nat): State {
    Run(Step(EnteredAt(s, t, env, at), Enter(t)), Others(t, env(at + 3)))
  }

  function ReserveEnd(s: State, t: nat, env: nat -> seq<Action>, at: nat): State {
    var r := LeftAt(s, t, env, at);
    Step(r, if t < |r.threads| && r.threads[t].Refused? then Undo(t) else Post(t))
  }

  /** The connections that the call counted, its own included. */
  function CountOf(s: State, t: nat, c: nat, env: nat -> seq<Action>, at: nat): int {
    var r := CountedAt(s, t, env, at);
    if c < |r.conts| then r.conts[c].conns + 1 else 0
  }

  /** The increment of conns and the test of FreeCPU(). */
  method Test(s0: State, t: nat, env: nat -> seq<Action>, at: nat)
    returns (s: State, n: int, ghost wraps: nat, ghost tested: State)
    requires Held(s0, t) && s0.threads[t].Picked?
    ensures Held(s, t) && Since(s0, s, wraps)
    ensures tested == TestedAt(s0, t, env, at) && s == Step(tested, Measure(t))
    ensures n == CountOf(s0, t, s0.threads[t].c, env, at)
    ensures var c := s0.threads[t].c;
            && HasCont(s0, c) && HasCont(tested, c) && HasCont(s, c) && FreeAt(tested, c) == FreeAt(s, c)
            && 1 <= n <= s0.conts[c].conns + 1 && s.conts[c].conns <= n
            && s.conts[c].(conns := 0) == s0.conts[c].(conns := 0)
            && s.threads[t] == Measured(c, n, FreeAt(tested, c) > s0.conts[c].mCPU)
  {
    hide Step, Run, Inv, Since, Meanwhile, SameLives, Solvent, Onward;
    var c := s0.threads[t].c;
    HeldPicked(s0, t);
    var s1, s3;
    ghost var m1, m3;
    s1, m1 := Pause(s0, t, env(at));
    MeanwhileSince(s0, s1, t, m1);
    CountStep(s1, t);
    var s2 := Step(s1, Count(t));
    n := s2.threads[t].n;
    SinceTrans(s0, s1, s2, m1, 0);
    s3, m3 := Pause(s2, t, env(at + 1));
    MeanwhileSince(s2, s3, t, m3);
    SinceTrans(s0, s2, s3, m1, m3);
    MeasureStep(s3, t);
    s := Step(s3, Measure(t));
    SinceTrans(s0, s3, s, m1 + m3, 0);
    wraps, tested := m1 + m3, s3;
    SinceLives(s0, s, wraps);
    SameCont(s0, s, c);
  }

  /** WorkerContainer.Reserve up to the end of Worker.reserve's charging section. */
  method TryReserve(s0: State, t: nat, env: nat -> seq<Action>, at: nat)
    returns (s: State, n: int, ghost wraps: nat, ghost tested: State, ghost entered: State)
    requires Held(s0, t) && s0.threads[t].Picked?
    ensures var c := s0.threads[t].c;
            && HasCont(s0, c) && HasCont(tested, c) && HasCont(entered, c)
            && Held(s, t) && SameLives(s0, s) && |s.conts| == |s0.conts| && HasCont(s, c)
            && 1 <= n <= s0.conts[c].conns + 1 && s.conts[c].conns <= n
            && s.threads[t] == (if GivesUp(s0, c, n, tested, entered) then Refused(c)
                                else if n > 1 then Bypass(c) else Debited(c))
            && (s.threads[t].Refused? ==> Onward(s0, s, wraps))
            && (wraps == 0 && s0.workers[s0.conts[c].worker].alive ==> FreeAt(tested, c) <= FreeAt(entered, c))
    ensures tested == TestedAt(s0, t, env, at) && entered == EnteredAt(s0, t, env, at)
    ensures n == CountOf(s0, t, s0.threads[t].c, env, at) && s == Step(entered, Enter(t))
    ensures Solvent(s0) ==> wraps == 0
  {
    hide Step, Run, Inv, Since, Meanwhile, SameLives, Solvent, Onward, Others, TestedAt, CountOf;
    var c := s0.threads[t].c;
    var s4, s5;
    ghost var m4, m5;
    s4, n, m4, tested := Test(s0, t, env, at);
    s5, m5 := Pause(s4, t, env(at + 2));
    MeanwhileSince(s4, s5, t, m5);
    wraps := m4 + m5;
    SinceTrans(s0, s4, s5, m4, m5);
    EnterStep(s5, t);
    s, entered := Step(s5, Enter(t)), s5;
    SinceLives(s0, s4, m4);
    SameCont(s0, s4, c);
    SinceLives(s0, s5, wraps);
    SameCont(s0, s5, c);
    FreeMeanwhile(s4, s5, t, c, m5);
    LivesTrans(s0, s5, s);
    if s.threads[t].Refused? {
      SinceLives(s5, s, 0);
      OnwardTrans(s0, s5, s, wraps, 0);
    }
    if Solvent(s0) { SinceSolvent(s0, s5, wraps); }
  }

  /**
   WorkerContainer.Reserve under mu, with the environment running before every atomic action.  It gives up exactly
   when the worker is dead, or when the first connection finds that free CPU exceeded the container's mCPU when it was
   tested and fell short of it in Worker.reserve; on a worker that is alive that takes a refund that wraps.
   */
  method Reserve(s0: State, t: nat, env: nat -> seq<Action>, at: nat)
    returns (s: State, conns: int, ghost n: int, ghost wraps: nat, ghost tested: State, ghost entered: State)
    requires Held(s0, t) && s0.threads[t].Picked?
    ensures var c := s0.threads[t].c;
            && HasCont(s0, c) && HasCont(tested, c) && HasCont(entered, c)
            && tested == TestedAt(s0, t, env, at) && entered == EnteredAt(s0, t, env, at)
            && 1 <= n == CountOf(s0, t, c, env, at) <= s0.conts[c].conns + 1
            && conns == (if GivesUp(s0, c, n, tested, entered) then -1 else n)
    ensures var c := s0.threads[t].c;
            && Held(s, t) && SameLives(s0, s) && |s.conts| == |s0.conts| && HasCont(s, c)
            && (conns == -1 || 1 <= conns) && (1 <= conns ==> s0.workers[s0.conts[c].worker].alive)
            && (1 <= conns ==> s.threads[t] == Granted(c) && s.conts[c].conns <= conns <= s0.conts[c].conns + 1)
            && (conns == -1 ==> s.threads[t] == Choosing && s.conts[c].conns <= s0.conts[c].conns)
            && (Solvent(s0) && s0.workers[s0.conts[c].worker].alive ==> 1 <= conns)
    ensures s == ReserveEnd(s0, t, env, at)
    ensures conns == -1 ==> Onward(s0, s, wraps)
    ensures s0.workers[s0.conts[s0.threads[t].c].worker].alive && wraps == 0 ==> 1 <= conns
    ensures Solvent(s0) ==> wraps == 0
  {
    hide Step, Run, Inv, Since, Meanwhile, SameLives, Solvent, Onward, Others, TestedAt, EnteredAt, CountOf;
    var c := s0.threads[t].c;
    var s6, s7;
    s6, conns, wraps, tested, entered := TryReserve(s0, t, env, at);
    n := conns;
    ghost var m;
    s7, m := Pause(s6, t, env(at + 3));
    MeanwhileSince(s6, s7, t, m);
    SinceLives(s6, s7, m);
    LivesTrans(s0, s6, s7);
    SameCont(s0, s7, c);
    if s7.threads[t].Refused? {
      UndoStep(s7, t);
      s, conns := Step(s7, Undo(t)), -1;
      SinceLives(s7, s, 0);
      OnwardTrans(s0, s6, s7, wraps, m);
      if Solvent(s0) { OnwardSolvent(s0, s7, wraps + m); }
      wraps := wraps + m;
      OnwardTrans(s0, s7, s, wraps, 0);
    } else {
      PostStep(s7, t);
      s := Step(s7, Post(t));
    }
    LivesTrans(s0, s7, s);
    SameCont(s0, s, c);
  }

  lemma OnwardSolvent(s: State, r: State, n: nat)
    requires Onward(s, r, n) && Solvent(s)
    ensures n == 0 && Solvent(r)
  {
  }

  lemma HeldPicked(s: State, t: nat)
    requires Held(s, t) && s.threads[t].Picked?
    ensures HasCont(s, s.threads[t].c)
  {
  }

  lemma LockStep(s: State, t: nat)
    requires Inv(s) && t < |s.threads| && s.threads[t].Idle? && s.mu.None?
    ensures var r := Step(s, Lock(t));
            Held(r, t) && Since(s, r, 0) && r.threads[t] == Choosing && r.workers == s.workers && r.conts == s.conts
  {
    StepInv(s, Lock(t));
    OwnOnward(s, Lock(t), t);
    hide Onward;
  }

  lemma PickCachedStep(s: State, t: nat, c: nat)
    requires Held(s, t) && s.threads[t].Choosing? && c < |s.conts|
    requires s.conts[c].async > 1 ==> s.conts[c].conns < s.conts[c].async
    ensures var r := Step(s, PickCached(t, c));
            && Held(r, t) && Since(s, r, 0) && r.threads[t] == Picked(c) && r.workers == s.workers
            && r.conts == s.conts && HasCont(s, c)
  {
    StepInv(s, PickCached(t, c));
    OwnOnward(s, PickCached(t, c), t);
    hide Onward;
  }

  lemma PickFreshShape(s: State, t: nat, w: nat, async: nat, mCPU: Millis)
    requires Shape(s) && s.mu == Some(t) && t < |s.threads| && s.threads[t].Choosing?
    requires w < |s.workers| && s.workers[w].alive
    ensures var a := PickFresh(t, w, async, mCPU); var r := Step(s, a);
            && Enabled(s, a) && r.mu == Some(t) && |r.threads| == |s.threads| && r.threads[t] == Picked(|s.conts|)
            && r.workers == s.workers && r.conts == s.conts + [Cont(w, mCPU, async, 0)] && SameLives(s, r)
  {
  }

  lemma PickFreshStep(s: State, t: nat, w: nat, async: nat, mCPU: Millis)
    requires Held(s, t) && s.threads[t].Choosing? && w < |s.workers| && s.workers[w].alive
    ensures var r := Step(s, PickFresh(t, w, async, mCPU));
            && Held(r, t) && Onward(s, r, 0) && SameLives(s, r) && r.threads[t] == Picked(|s.conts|)
            && r.workers == s.workers && r.conts == s.conts + [Cont(w, mCPU, async, 0)]
  {
    hide Step, SameLives;
    InvShape(s);
    PickFreshShape(s, t, w, async, mCPU);
    StepInv(s, PickFresh(t, w, async, mCPU));
    OwnOnward(s, PickFresh(t, w, async, mCPU), t);
    hide Onward, Inv, Enabled;
  }

  lemma UnlockShape(s: State, t: nat)
    requires Shape(s) && s.mu == Some(t) && t < |s.threads| && (s.threads[t].Granted? || s.threads[t].Choosing?)
    ensures var r := Step(s, Unlock(t));
            && r.mu.None? && t < |r.threads| && r.workers == s.workers && r.conts == s.conts
            && r.threads[t] == (if s.threads[t].Granted? then Holding(s.threads[t].c) else Idle)
  {
  }

  lemma UnlockStep(s: State, t: nat)
    requires Inv(s) && s.mu == Some(t) && t < |s.threads| && (s.threads[t].Granted? || s.threads[t].Choosing?)
    ensures var r := Step(s, Unlock(t));
            && Inv(r) && r.mu.None? && t < |r.threads| && r.workers == s.workers && r.conts == s.conts
            && r.threads[t] == (if s.threads[t].Granted? then Holding(s.threads[t].c) else Idle)
  {
    hide Step;
    InvShape(s);
    UnlockShape(s, t);
    StepInv(s, Unlock(t));
  }

  function Shift(env: nat -> seq<Action>, offset: nat): nat -> seq<Action> {
    (k: nat) => env(k + offset)
  }

  /** Container c was made in this call: for the definition, on an alive worker, and nobody is connected to it. */
  predicate FreshFor(s: State, c: nat, first: nat, async: nat, mCPU: Millis) {
    && first <= c && HasCont(s, c)
    && var k := s.conts[c]; var w := s.workers[k.worker];
       w.alive && k.async == async && k.conns <= 0 && k.mCPU == (if mCPU == 0 then w.defaultMCPU else mCPU)
  }

  lemma FreshStays(s: State, r: State, c: nat, first: nat, async: nat, mCPU: Millis)
    requires FreshFor(s, c, first, async, mCPU) && SameLives(s, r)
    requires c < |r.conts| && r.conts[c].conns <= s.conts[c].conns
    ensures FreshFor(r, c, first, async, mCPU)
  {
  }

  /** Containers of the definition. */
  ghost predicate AllFor(s: State, cached: seq<nat>, async: nat) {
    forall i: nat :: i < |cached| ==> cached[i] < |s.conts| && s.conts[cached[i]].async == async
  }

  /** The size that NewContainer gives a container on worker w. */
  function SizeOn(s: State, w: nat, mCPU: Millis): Millis
    requires w < |s.workers|
  {
    if mCPU == 0 then s.workers[w].defaultMCPU else mCPU
  }

  /** A fresh container on the best worker, if there is a worker. */
  method PickNew(s0: State, t: nat, first: nat, async: nat, mCPU: Millis, env: nat -> seq<Action>, at: nat)
    returns (s: State, container: Option<nat>, ghost wraps: nat)
    requires Held(s0, t) && s0.threads[t].Choosing? && first <= |s0.conts|
    ensures Held(s, t) && SameLives(s0, s) && Onward(s0, s, wraps)
    ensures var scanned, r := Scans(s0, t, env, at, |s0.workers|), Paused(s0, t, env, at, |s0.workers|);
            && (container.None? ==> s == r && forall w: nat :: !Present(scanned, w))
            && (container.Some? ==>
                  && container.value == |r.conts| && HasCont(s, container.value)
                  && var w := s.conts[container.value].worker;
                     && Unbeaten(scanned, w) && w < |r.workers|
                     && s == Step(r, PickFresh(t, w, async, SizeOn(r, w, mCPU))))
    ensures container.None? ==>
              && s.threads[t].Choosing? && |s.conts| == |s0.conts|
              && forall w: nat :: w < |s0.workers| ==> !s.workers[w].registered
    ensures container.Some? ==>
              && container.value == |s0.conts| && |s.conts| == |s0.conts| + 1 && s.threads[t] == Picked(container.value)
              && FreshFor(s, container.value, first, async, mCPU)
  {
    hide Step, Run, Inv, Meanwhile, SameLives, Onward, Scans, Paused, Others, Unbeaten;
    var workerMax;
    ghost var scanned;
    s, workerMax, scanned, wraps := FindWorkerWithMaxFreeCPU(s0, t, env, at);
    MeanwhileSince(s0, s, t, wraps);
    SinceLives(s0, s, wraps);
    container := None;
    if workerMax.Some? {
      var w := workerMax.value;
      var m := SizeOn(s, w, mCPU);
      container := Some(|s.conts|);
      PickFreshStep(s, t, w, async, m);
      var r := Step(s, PickFresh(t, w, async, m));
      LivesTrans(s0, s, r);
      OnwardTrans(s0, s, r, wraps, 0);
      s := r;
    }
  }

  /** One pass of the loop: the state, blacklist and kept container it begins with, and what it ends with. */
  datatype Pass = Pass(begun: State, blacklist: set<nat>, kept: Option<nat>,
                       ended: State, container: Option<nat>, conns: int, fromCache: bool)

  /** The pass chose container c in state `picked` and called Reserve. */
  predicate Tries(p: Pass, c: nat, picked: State, t: nat, env: nat -> seq<Action>) {
    && p.container == Some(c) && p.ended == ReserveEnd(picked, t, env, 0)
    && p.conns == (if t < |p.ended.threads| && p.ended.threads[t].Granted? then CountOf(picked, t, c, env, 0) else -1)
  }

  ghost predicate SomeCandidate(seen: seq<Look>, order: seq<nat>, async: nat, blacklist: set<nat>) {
    exists i: nat :: Candidate(seen, order, async, blacklist, i)
  }

  ghost predicate TriesBest(p: Pass, seen: seq<Look>, q: State, t: nat, order: seq<nat>, async: nat,
                            env: nat -> seq<Action>) {
    exists i: nat :: Best(seen, order, async, p.blacklist, i) && i < |order|
                     && Tries(p, order[i], Step(q, PickCached(t, order[i])), t, env)
  }

  /** A fresh container on the best of the workers, or nothing if there is no worker. */
  ghost predicate TriesNew(p: Pass, q: State, t: nat, at: nat, async: nat, mCPU: Millis, env: nat -> seq<Action>) {
    var n := |q.workers|;
    var scanned, r := Scans(q, t, env, at, n), Paused(q, t, env, at, n);
    if forall w: nat :: !Present(scanned, w) then p.container.None? && p.ended == r && p.conns == -1
    else exists w: nat :: Unbeaten(scanned, w) && w < |r.workers|
           && Tries(p, |r.conts|, Step(r, PickFresh(t, w, async, SizeOn(r, w, mCPU))), t, Shift(env, at + n))
  }

  /**
   The answer of a pass.  A cached container is tried if and only if one was a candidate as it was read, and then the
   best; otherwise the kept container, and only without one a fresh container.
   */
  ghost predicate Answers(p: Pass, t: nat, order: seq<nat>, async: nat, mCPU: Millis, env: nat -> seq<Action>) {
    var n := 2 * |order|;
    var seen, q := Reads(p.begun, t, env, |order|), Paused(p.begun, t, env, 0, n);
    if SomeCandidate(seen, order, async, p.blacklist) then
      p.fromCache && TriesBest(p, seen, q, t, order, async, Shift(env, n))
    else
      && !p.fromCache
      && if p.kept.Some? then Tries(p, p.kept.value, Step(q, PickCached(t, p.kept.value)), t, Shift(env, n))
         else TriesNew(p, q, t, n, async, mCPU, env)
  }

  /** No worker that was read in the scan of this pass has more to offer than w. */
  ghost predicate Unrivalled(p: Pass, t: nat, n: nat, env: nat -> seq<Action>, w: nat) {
    var q := Paused(p.begun, t, env, 0, 2 * n);
    Unbeaten(Scans(q, t, env, 2 * n, |q.workers|), w)
  }

  lemma NoCandidate(seen: seq<Look>, order: seq<nat>, async: nat, blacklist: set<nat>)
    requires forall i: nat :: !Candidate(seen, order, async, blacklist, i)
    ensures !SomeCandidate(seen, order, async, blacklist)
  {
  }

  lemma BestTried(p: Pass, seen: seq<Look>, q: State, t: nat, order: seq<nat>, async: nat, env: nat -> seq<Action>,
                  i: nat)
    requires Best(seen, order, async, p.blacklist, i) && i < |order|
    requires Tries(p, order[i], Step(q, PickCached(t, order[i])), t, env)
    ensures SomeCandidate(seen, order, async, p.blacklist) && TriesBest(p, seen, q, t, order, async, env)
  {
    hide Tries, Candidate;
    assert Candidate(seen, order, async, p.blacklist, i);
  }

  lemma NewTried(p: Pass, q: State, t: nat, at: nat, async: nat, mCPU: Millis, env: nat -> seq<Action>, w: nat)
    requires var n := |q.workers|; var r := Paused(q, t, env, at, n);
             && Unbeaten(Scans(q, t, env, at, n), w) && w < |r.workers|
             && Tries(p, |r.conts|, Step(r, PickFresh(t, w, async, SizeOn(r, w, mCPU))), t, Shift(env, at + n))
    ensures TriesNew(p, q, t, at, async, mCPU, env)
  {
    hide Tries, Scans, Paused, Step;
    assert Present(Scans(q, t, env, at, |q.workers|), w);
  }

  lemma TriedWith(p: Pass, c: nat, picked: State, t: nat, env: nat -> seq<Action>)
    requires p.container == Some(c) && p.ended == ReserveEnd(picked, t, env, 0) && t < |p.ended.threads|
    requires if p.conns == -1 then p.ended.threads[t].Choosing?
             else p.conns == CountOf(picked, t, c, env, 0) && p.ended.threads[t].Granted?
    ensures Tries(p, c, picked, t, env)
  {
  }

  /**
   One pass of the loop: choose a container, cached, kept from a pass that failed, or fresh, and try to reserve it.
   It fails only on a container of a dead worker, or after a refund that wrapped.
   */
  method Attempt(s0: State, t: nat, cached: seq<nat>, first: nat, async: nat, mCPU: Millis, blacklist: set<nat>,
                 kept: Option<nat>, env: nat -> seq<Action>)
    returns (s: State, container: Option<nat>, conns: int, fromCache: bool, ghost wraps: nat)
    requires Held(s0, t) && s0.threads[t].Choosing? && AllFor(s0, cached, async) && first <= |s0.conts|
    requires kept.Some? ==> FreshFor(s0, kept.value, first, async, mCPU)
    ensures Answers(Pass(s0, blacklist, kept, s, container, conns, fromCache), t, cached, async, mCPU, env)
    ensures Held(s, t) && SameLives(s0, s) && |s0.conts| <= |s.conts|
    ensures Solvent(s0) ==> wraps == 0
    ensures container.None? ==>
              && s.threads[t].Choosing? && kept.None?
              && forall w: nat :: w < |s0.workers| ==> !s.workers[w].registered
    ensures container.Some? ==>
              && HasCont(s, container.value)
              && (1 <= conns ==>
                    && s.threads[t] == Granted(container.value) && s.conts[container.value].conns <= conns
                    && s.workers[s.conts[container.value].worker].alive)
              && (conns < 1 ==>
                    && s.threads[t].Choosing? && Onward(s0, s, wraps)
                    && (s.workers[s.conts[container.value].worker].alive ==> wraps > 0))
    ensures container.Some? && fromCache ==> container.value in cached && container.value !in blacklist
    ensures container.Some? && !fromCache ==>
              && first <= container.value && conns <= 1
              && s.workers[s.conts[container.value].worker].alive
              && (conns < 1 ==> FreshFor(s, container.value, first, async, mCPU))
              && (kept.Some? ==> container == kept)
              && (kept.None? ==>
                    Unrivalled(Pass(s0, blacklist, kept, s, container, conns, fromCache), t, |cached|, env,
                               s.conts[container.value].worker))
              && var k := s.conts[container.value];
                 k.async == async && k.mCPU == if mCPU == 0 then s.workers[k.worker].defaultMCPU else mCPU
  {
    hide Step, Run, Inv, Best, SeenSince, Candidate, Meanwhile, Since, Onward, SameLives, Solvent, Reads, Scans, Paused;
    hide Others, Unbeaten, ReserveEnd, CountOf, TestedAt, EnteredAt, TriesBest, TriesNew, SomeCandidate, Tries, Shift;
    ghost var seen, at;
    s, container, seen, at, wraps := SelectCached(s0, t, cached, async, blacklist, env);
    var pauses := 2 * |cached|;
    MeanwhileSince(s0, s, t, wraps);
    SinceLives(s0, s, wraps);
    fromCache, conns := container.Some?, -1;
    if container.Some? {
      BestIsCached(seen, cached, async, blacklist, at);
      CachedIn(s0, s, cached, async);
    } else {
      NoCandidate(seen, cached, async, blacklist);
      container := kept;
      if kept.Some? { FreshStays(s0, s, kept.value, first, async, mCPU); }
    }
    ghost var n;
    ghost var q := s;
    var r;
    if container.None? {
      r, container, n := PickNew(s, t, first, async, mCPU, env, pauses);
      pauses := pauses + |s.workers|;
    } else {
      PickCachedStep(s, t, container.value);
      r, n := Step(s, PickCached(t, container.value)), 0;
      SinceLives(s, r, 0);
      if !fromCache { FreshStays(s, r, container.value, first, async, mCPU); }
    }
    LivesTrans(s0, s, r);
    OnwardTrans(s0, s, r, wraps, n);
    wraps := wraps + n;
    if Solvent(s0) { OnwardSolvent(s0, r, wraps); }
    s := r;
    if container.Some? {
      var c := container.value;
      ghost var counted, tested, entered;
      s, conns, counted, n, tested, entered := Reserve(r, t, Shift(env, pauses), 0);
      LivesTrans(s0, r, s);
      SameCont(r, s, c);
      if conns == -1 {
        OnwardTrans(s0, r, s, wraps, n);
        if !fromCache { FreshStays(r, s, c, first, async, mCPU); }
      }
      wraps := wraps + n;
      ghost var p := Pass(s0, blacklist, kept, s, container, conns, fromCache);
      TriedWith(p, c, r, t, Shift(env, pauses));
      if fromCache {
        BestTried(p, seen, q, t, cached, async, Shift(env, pauses), at);
      } else if kept.None? {
        NewTried(p, q, t, 2 * |cached|, async, mCPU, env, r.conts[c].worker);
      }
    } else {
      NothingTried(Pass(s0, blacklist, kept, s, container, conns, fromCache), q, t, 2 * |cached|, async, mCPU, env);
    }
  }

  lemma NothingTried(p: Pass, q: State, t: nat, at: nat, async: nat, mCPU: Millis, env: nat -> seq<Action>)
    requires p.container.None? && p.conns == -1 && p.ended == Paused(q, t, env, at, |q.workers|)
    requires forall w: nat :: !Present(Scans(q, t, env, at, |q.workers|), w)
    ensures TriesNew(p, q, t, at, async, mCPU, env)
  {
    hide Paused, Scans;
  }

  lemma CachedIn(s: State, r: State, cached: seq<nat>, async: nat)
    requires AllFor(s, cached, async) && SameLives(s, r)
    ensures AllFor(r, cached, async)
  {
  }

  lemma BestIsCached(seen: seq<Look>, cached: seq<nat>, async: nat, blacklist: set<nat>, i: nat)
    requires Best(seen, cached, async, blacklist, i)
    ensures i < |cached| && cached[i] in cached && cached[i] !in blacklist
  {
  }

  /** One iteration over the map of cached containers. */
  ghost predicate IterationOf(order: seq<nat>, cached: set<nat>) {
    |order| == |cached| && forall c :: c in order <==> c in cached
  }

  lemma OrderFor(s: State, order: seq<nat>, cached: set<nat>, async: nat)
    requires IterationOf(order, cached) && forall c :: c in cached ==> c < |s.conts| && s.conts[c].async == async
    ensures AllFor(s, order, async)
  {
    forall i: nat | i < |order| ensures order[i] < |s.conts| && s.conts[order[i]].async == async {
      assert order[i] in order;
    }
  }

  /** The containers given up on: cached, and their workers are dead unless a refund wrapped. */
  ghost predicate GivenUp(s: State, blacklist: set<nat>, cached: set<nat>, wraps: nat) {
    forall c :: c in blacklist ==>
      c in cached && HasCont(s, c) && (s.workers[s.conts[c].worker].alive ==> wraps > 0)
  }

  lemma GivenUpMore(s: State, r: State, blacklist: set<nat>, cached: set<nat>, wraps: nat, n: nat)
    requires GivenUp(s, blacklist, cached, wraps) && SameLives(s, r)
    ensures GivenUp(r, blacklist, cached, wraps + n)
  {
  }

  lemma GivenUpSame(s: State, r: State, blacklist: set<nat>, cached: set<nat>, wraps: nat)
    requires GivenUp(s, blacklist, cached, wraps) && r.workers == s.workers && r.conts == s.conts
    ensures GivenUp(r, blacklist, cached, wraps)
  {
  }

  lemma GivenUpOne(s: State, blacklist: set<nat>, cached: set<nat>, c: nat, wraps: nat)
    requires GivenUp(s, blacklist, cached, wraps) && HasCont(s, c)
    requires s.workers[s.conts[c].worker].alive ==> wraps > 0
    ensures c in cached ==> GivenUp(s, blacklist + {c}, cached, wraps)
  {
  }

  lemma NoneGivenUp(s: State, cached: set<nat>)
    ensures GivenUp(s, {}, cached, 0)
  {
  }

  lemma InOrder(order: seq<nat>, cached: set<nat>, c: nat)
    requires IterationOf(order, cached) && c in order
    ensures c in cached
  {
  }

  lemma OnwardBound(s: State, r: State, n: nat)
    requires Onward(s, r, n)
    ensures n + Returning(r) <= Returning(s) && (Solvent(s) ==> n == 0)
  {
    hide Solvent, Returning;
  }

  lemma LivesCounts(s: State, r: State)
    requires SameLives(s, r)
    ensures |s.workers| <= |r.workers| && |s.conts| <= |r.conts|
  {
  }

  lemma BlacklistGrows(blacklist: set<nat>, cached: set<nat>, c: nat)
    requires blacklist <= cached && c in cached && c !in blacklist
    ensures blacklist + {c} <= cached && |blacklist + {c}| == |blacklist| + 1 <= |cached|
  {
    Fewer(blacklist + {c}, cached);
  }

  lemma {:induction false} Fewer(a: set<nat>, b: set<nat>)
    requires a <= b
    ensures |a| <= |b|
  {
    if a != {} {
      var x :| x in a;
      Fewer(a - {x}, b - {x});
    }
  }

  /** The arguments of one grabWorkerContainer; its n-th pass reads in order orders(n) and meets interference env(n). */
  datatype Call = Call(start: State, t: nat, cached: set<nat>, orders: nat -> seq<nat>, async: nat, mCPU: Millis,
                       env: nat -> (nat -> seq<Action>))

  /** The n-th pass of the call. */
  ghost predicate Answered(k: Call, p: Pass, n: nat) { Answers(p, k.t, k.orders(n), k.async, k.mCPU, k.env(n)) }

  /** The next pass begins where this one failed, and remembers what it gave up. */
  predicate Follows(p: Pass, q: Pass) {
    && p.container.Some? && p.conns < 1 && q.begun == p.ended
    && q.blacklist == (if p.fromCache then p.blacklist + {p.container.value} else p.blacklist)
    && q.kept == (if p.fromCache then None else p.container)
  }

  predicate Starts(k: Call, p: Pass) { p.begun == Step(k.start, Lock(k.t)) && p.blacklist == {} && p.kept == None }

  /** Pass p can come next. */
  predicate ComesNext(k: Call, passes: seq<Pass>, p: Pass) {
    if passes == [] then Starts(k, p) else Follows(passes[|passes| - 1], p)
  }

  /** The passes of one call, from the lock on. */
  ghost predicate Chain(k: Call, passes: seq<Pass>) {
    && (forall n: nat :: n < |passes| ==> Answered(k, passes[n], n))
    && (forall n: nat {:trigger passes[n]} :: n < |passes| ==> ComesNext(k, passes[..n], passes[n]))
  }

  lemma ChainMore(k: Call, passes: seq<Pass>, p: Pass)
    requires Chain(k, passes) && ComesNext(k, passes, p) && Answered(k, p, |passes|)
    ensures Chain(k, passes + [p])
  {
    hide Answered, ComesNext;
    var more := passes + [p];
    forall n: nat | n < |more| ensures ComesNext(k, more[..n], more[n]) {
      assert more[..n] == if n < |passes| then passes[..n] else passes;
    }
  }

  /** In the n-th pass no worker that was read had more to offer than w. */
  ghost predicate BestIn(k: Call, p: Pass, n: nat, w: nat) { Unrivalled(p, k.t, |k.orders(n)|, k.env(n), w) }

  ghost predicate BestWorker(k: Call, passes: seq<Pass>, w: nat) {
    exists n: nat :: n < |passes| && BestIn(k, passes[n], n, w)
  }

  lemma BestWorkerMore(k: Call, passes: seq<Pass>, p: Pass, w: nat)
    requires BestWorker(k, passes, w) || BestIn(k, p, |passes|, w)
    ensures BestWorker(k, passes + [p], w)
  {
    hide BestIn;
    if BestWorker(k, passes, w) {
      var n: nat :| n < |passes| && BestIn(k, passes[n], n, w);
      assert (passes + [p])[n] == passes[n];
    } else {
      assert (passes + [p])[|passes|] == p;
    }
  }

  /** The call was made by a thread without a reservation, for containers of the definition. */
  ghost predicate Made(k: Call) {
    && Inv(k.start) && k.t < |k.start.threads| && k.start.threads[k.t].Idle? && k.start.mu.None?
    && (forall c :: c in k.cached ==> c < |k.start.conts| && k.start.conts[c].async == k.async)
    && (forall n: nat :: IterationOf(k.orders(n), k.cached))
  }

  /** What the loop knows in state s, before its next pass. */
  ghost predicate Going(k: Call, passes: seq<Pass>, s: State, blacklist: set<nat>, kept: Option<nat>, wraps: nat) {
    && Held(s, k.t) && s.threads[k.t].Choosing? && SameLives(k.start, s) && Onward(k.start, s, wraps)
    && blacklist <= k.cached && |blacklist| <= |k.cached| && |passes| <= |blacklist| + wraps
    && GivenUp(s, blacklist, k.cached, wraps)
    && Chain(k, passes) && ComesNext(k, passes, Pass(s, blacklist, kept, s, None, 0, false))
    && (kept.Some? ==>
          && FreshFor(s, kept.value, |k.start.conts|, k.async, k.mCPU)
          && BestWorker(k, passes, s.conts[kept.value].worker))
  }

  /** The pass p ended the loop. */
  ghost predicate Settled(k: Call, passes: seq<Pass>, p: Pass, wraps: nat) {
    var s := p.ended;
    && Held(s, k.t) && |k.start.workers| <= |s.workers| && Chain(k, passes + [p])
    && |passes| <= |k.cached| + wraps && wraps <= Returning(k.start) && (Solvent(k.start) ==> wraps == 0)
    && GivenUp(s, p.blacklist, k.cached, wraps)
    && (p.container.None? ==>
          s.threads[k.t].Choosing? && forall w: nat :: w < |k.start.workers| ==> !s.workers[w].registered)
    && (p.container.Some? ==>
          && s.threads[k.t] == Granted(p.container.value) && HasCont(s, p.container.value)
          && s.workers[s.conts[p.container.value].worker].alive
          && 1 <= p.conns && s.conts[p.container.value].conns <= p.conns)
    && (p.container.Some? && p.fromCache ==> p.container.value in k.cached && p.container.value !in p.blacklist)
    && (p.container.Some? && !p.fromCache ==>
          var c := s.conts[p.container.value];
          && |k.start.conts| <= p.container.value && p.conns == 1 && c.async == k.async
          && c.mCPU == SizeOn(s, c.worker, k.mCPU) && BestWorker(k, passes + [p], c.worker))
  }

  /** What Attempt says of a pass from a state in which the loop goes on. */
  ghost predicate Attempted(k: Call, p: Pass, n: nat, wraps: nat) {
    var s, order := p.ended, k.orders(n);
    && Answered(k, p, n) && Held(s, k.t) && SameLives(p.begun, s)
    && (p.container.None? ==>
          && s.threads[k.t].Choosing? && p.kept.None?
          && forall w: nat :: w < |p.begun.workers| ==> !s.workers[w].registered)
    && (p.container.Some? ==>
          && HasCont(s, p.container.value)
          && (1 <= p.conns ==>
                && s.threads[k.t] == Granted(p.container.value) && s.conts[p.container.value].conns <= p.conns
                && s.workers[s.conts[p.container.value].worker].alive)
          && (p.conns < 1 ==>
                && s.threads[k.t].Choosing? && Onward(p.begun, s, wraps)
                && (s.workers[s.conts[p.container.value].worker].alive ==> wraps > 0)))
    && (p.container.Some? && p.fromCache ==> p.container.value in order && p.container.value !in p.blacklist)
    && (p.container.Some? && !p.fromCache ==>
          var c := s.conts[p.container.value];
          && |k.start.conts| <= p.container.value && p.conns <= 1 && s.workers[c.worker].alive
          && (p.conns < 1 ==> FreshFor(s, p.container.value, |k.start.conts|, k.async, k.mCPU))
          && (p.kept.Some? ==> p.container == p.kept) && (p.kept.None? ==> BestIn(k, p, n, c.worker))
          && c.async == k.async && c.mCPU == SizeOn(s, c.worker, k.mCPU))
  }

  lemma NextChain(k: Call, passes: seq<Pass>, p: Pass, wraps: nat, m: nat)
    requires Going(k, passes, p.begun, p.blacklist, p.kept, wraps) && Attempted(k, p, |passes|, m)
    ensures Chain(k, passes + [p]) && SameLives(k.start, p.ended) && GivenUp(p.ended, p.blacklist, k.cached, wraps)
    ensures GivenUp(p.ended, p.blacklist, k.cached, wraps + m)
    ensures p.container.Some? && !p.fromCache ==>
              BestWorker(k, passes + [p], p.ended.conts[p.container.value].worker)
  {
    hide Chain, BestWorker, BestIn, Answered, SameLives, GivenUp, FreshFor, Held, Inv, Onward;
    var q := Pass(p.begun, p.blacklist, p.kept, p.begun, None, 0, false);
    assert ComesNext(k, passes, q) ==> ComesNext(k, passes, p);
    ChainMore(k, passes, p);
    LivesTrans(k.start, p.begun, p.ended);
    GivenUpMore(p.begun, p.ended, p.blacklist, k.cached, wraps, 0);
    GivenUpMore(p.begun, p.ended, p.blacklist, k.cached, wraps, m);
    if p.container.Some? && !p.fromCache {
      if p.kept.Some? {
        FreshHasCont(p.begun, p.kept.value, |k.start.conts|, k.async, k.mCPU);
        SameCont(p.begun, p.ended, p.kept.value);
      }
      BestWorkerMore(k, passes, p, p.ended.conts[p.container.value].worker);
    }
  }

  lemma FreshHasCont(s: State, c: nat, first: nat, async: nat, mCPU: Millis)
    requires FreshFor(s, c, first, async, mCPU)
    ensures HasCont(s, c)
  {
  }

  lemma PassSettles(k: Call, passes: seq<Pass>, p: Pass, wraps: nat, m: nat)
    requires Made(k) && Going(k, passes, p.begun, p.blacklist, p.kept, wraps) && Attempted(k, p, |passes|, m)
    requires p.container.None? || p.conns >= 1
    ensures Settled(k, passes, p, wraps)
  {
    hide Chain, BestWorker, BestIn, Answered, SameLives, GivenUp, FreshFor, Onward, Returning, Solvent, IterationOf;
    hide ComesNext, Held, Inv;
    NextChain(k, passes, p, wraps, m);
    OnwardBound(k.start, p.begun, wraps);
    LivesCounts(k.start, p.ended);
    LivesCounts(k.start, p.begun);
    if p.container.Some? && p.fromCache { InOrder(k.orders(|passes|), k.cached, p.container.value); }
  }

  lemma PassFails(k: Call, passes: seq<Pass>, p: Pass, wraps: nat, m: nat)
    requires Made(k) && Going(k, passes, p.begun, p.blacklist, p.kept, wraps) && Attempted(k, p, |passes|, m)
    requires p.container.Some? && p.conns < 1
    ensures var blacklist := if p.fromCache then p.blacklist + {p.container.value} else p.blacklist;
            && Going(k, passes + [p], p.ended, blacklist, if p.fromCache then None else p.container, wraps + m)
            && |k.cached| - |blacklist| + Returning(p.ended) < |k.cached| - |p.blacklist| + Returning(p.begun)
  {
    hide Chain, BestWorker, BestIn, Answered, SameLives, GivenUp, FreshFor, Onward, Returning, Solvent, IterationOf;
    hide Held, Inv;
    NextChain(k, passes, p, wraps, m);
    OnwardTrans(k.start, p.begun, p.ended, wraps, m);
    OnwardBound(p.begun, p.ended, m);
    var c := p.container.value;
    if p.fromCache {
      InOrder(k.orders(|passes|), k.cached, c);
      BlacklistGrows(p.blacklist, k.cached, c);
      GivenUpOne(p.ended, p.blacklist, k.cached, c, wraps + m);
    }
    assert (passes + [p])[|passes|] == p;
  }

  lemma GoingStarts(k: Call)
    requires Made(k)
    ensures Going(k, [], Step(k.start, Lock(k.t)), {}, None, 0)
  {
    hide Step, Inv, SameLives, Onward, GivenUp, IterationOf, Since;
    LockStep(k.start, k.t);
    SinceLives(k.start, Step(k.start, Lock(k.t)), 0);
    NoneGivenUp(Step(k.start, Lock(k.t)), k.cached);
  }

  lemma GoingFacts(k: Call, passes: seq<Pass>, s: State, blacklist: set<nat>, kept: Option<nat>, wraps: nat)
    requires Made(k) && Going(k, passes, s, blacklist, kept, wraps)
    ensures Held(s, k.t) && s.threads[k.t].Choosing? && AllFor(s, k.orders(|passes|), k.async)
    ensures |k.start.conts| <= |s.conts| && |blacklist| <= |k.cached|
    ensures kept.Some? ==> FreshFor(s, kept.value, |k.start.conts|, k.async, k.mCPU)
  {
    hide Chain, BestWorker, SameLives, GivenUp, FreshFor, Onward, IterationOf, Inv, AllFor, ComesNext;
    OrderFor(k.start, k.orders(|passes|), k.cached, k.async);
    CachedIn(k.start, s, k.orders(|passes|), k.async);
    LivesCounts(k.start, s);
  }

  /** The loop of grabWorkerContainer. */
  method GrabLoop(k: Call) returns (ghost passes: seq<Pass>, p: Pass, tries: nat, ghost wraps: nat)
    requires Made(k)
    ensures Settled(k, passes, p, wraps) && tries == |passes| + if p.container.Some? then 1 else 0
  {
    hide Going, Settled, Attempted, Held, FreshFor, AllFor, Answers, Step, Returning, Made;
    GoingStarts(k);
    var s := Step(k.start, Lock(k.t));
    var blacklist: set<nat> := {};
    var kept: Option<nat> := None;
    tries, wraps, passes := 0, 0, [];
    while true
      invariant |passes| == tries && Going(k, passes, s, blacklist, kept, wraps)
      decreases |k.cached| - |blacklist| + Returning(s)
    {
      GoingFacts(k, passes, s, blacklist, kept, wraps);
      ghost var n;
      p, n := OnePass(k, s, blacklist, kept, tries);
      if p.container.None? || p.conns > 0 {
        PassSettles(k, passes, p, wraps, n);
        if p.container.Some? {
          tries := tries + 1;
        }
        break;
      }
      PassFails(k, passes, p, wraps, n);
      passes, tries, wraps, s := passes + [p], tries + 1, wraps + n, p.ended;
      if p.fromCache {
        blacklist, kept := blacklist + {p.container.value}, None;
      } else {
        kept := p.container;
      }
      GoingFacts(k, passes, s, blacklist, kept, wraps);
    }
  }

  method OnePass(k: Call, s: State, blacklist: set<nat>, kept: Option<nat>, n: nat) returns (p: Pass, ghost wraps: nat)
    requires Held(s, k.t) && s.threads[k.t].Choosing? && AllFor(s, k.orders(n), k.async)
    requires |k.start.conts| <= |s.conts|
    requires kept.Some? ==> FreshFor(s, kept.value, |k.start.conts|, k.async, k.mCPU)
    ensures p.begun == s && p.blacklist == blacklist && p.kept == kept && Attempted(k, p, n, wraps)
  {
    hide Answers, Inv, SameLives, Onward, FreshFor, AllFor, Unrivalled, Solvent;
    var r, container, conns, fromCache;
    r, container, conns, fromCache, wraps :=
      Attempt(s, k.t, k.orders(n), |k.start.conts|, k.async, k.mCPU, blacklist, kept, k.env(n));
    p := Pass(s, blacklist, kept, r, container, conns, fromCache);
  }

  /**
   grabWorkerContainer.  `cached` are the containers cached for the definition, which do not change while mu is held;
   each pass iterates over them in an order of its own.  The answer is that of the last of a chain of passes, each of
   which begins where the one before failed.  So a cached container is returned if and only if one was a candidate in
   the last pass, and then the best; a fresh one is on a worker that no other one read in the same scan beats.
   Whatever the environment does, a returned container is reserved by this thread on a worker that is alive when mu is
   released, and at most one more reservation is tried than there are cached containers and refunds that wrap; those
   are no more than the reservations that were out at the start, and none if no worker is overcommitted by more than
   2^31 milli-CPUs.  A container is given up only because its worker is dead or a refund wrapped.
   */
  method GrabWorkerContainer(k: Call)
    returns (s: State, container: Option<nat>, conns: int, fromCache: bool, tries: nat, ghost lost: set<nat>,
             ghost wraps: nat, ghost passes: seq<Pass>)
    requires Made(k)
    ensures Inv(s) && s.mu.None? && k.t < |s.threads| && |k.start.workers| <= |s.workers|
    ensures tries <= |k.cached| + 1 + wraps && wraps <= Returning(k.start) && (Solvent(k.start) ==> wraps == 0)
    // The answer is that of the last pass.
    ensures Chain(k, passes) && passes != []
    ensures var last := passes[|passes| - 1];
            && container == last.container && conns == last.conns && fromCache == last.fromCache
            && s == Step(last.ended, Unlock(k.t)) && lost == last.blacklist
            && |passes| == tries + if container.None? then 1 else 0
    ensures var n := |passes| - 1;
            fromCache <==> SomeCandidate(Reads(passes[n].begun, k.t, k.env(n), |k.cached|), k.orders(n), k.async, lost)
    ensures container.Some? ==>
              && s.threads[k.t] == Holding(container.value) && HasCont(s, container.value)
              && s.workers[s.conts[container.value].worker].alive
              && 1 <= conns && s.conts[container.value].conns <= conns
    ensures container.Some? && fromCache ==> container.value in k.cached && container.value !in lost
    ensures container.Some? && !fromCache ==>
              var c := s.conts[container.value];
              && |k.start.conts| <= container.value && conns == 1 && c.async == k.async
              && c.mCPU == (if k.mCPU == 0 then s.workers[c.worker].defaultMCPU else k.mCPU)
              && BestWorker(k, passes, c.worker)
    ensures container.None? ==>
              s.threads[k.t].Idle? && forall w: nat :: w < |k.start.workers| ==> !s.workers[w].registered
    ensures GivenUp(s, lost, k.cached, wraps)
  {
    var p;
    passes, p, tries, wraps := GrabLoop(k);
    s, container, conns, fromCache, lost := p.ended, p.container, p.conns, p.fromCache, p.blacklist;
    passes := passes + [p];
    LastAnswer(k, passes);
    hide Step, Inv, Solvent, Chain, BestWorker, Returning, Reads, SomeCandidate, GivenUp, Made;
    UnlockStep(s, k.t);
    GivenUpSame(s, Step(s, Unlock(k.t)), lost, k.cached, wraps);
    s := Step(s, Unlock(k.t));
  }

  lemma LastAnswer(k: Call, passes: seq<Pass>)
    requires Made(k) && Chain(k, passes) && passes != []
    ensures var n := |passes| - 1; var p := passes[n];
            p.fromCache <==> SomeCandidate(Reads(p.begun, k.t, k.env(n), |k.cached|), k.orders(n), k.async, p.blacklist)
  {
    var n := |passes| - 1;
    assert Answered(k, passes[n], n) && IterationOf(k.orders(n), k.cached);
    CandidateIff(passes[n], k.t, k.orders(n), k.cached, k.async, k.mCPU, k.env(n));
    hide SomeCandidate, Reads;
  }

  lemma CandidateIff(p: Pass, t: nat, order: seq<nat>, cached: set<nat>, async: nat, mCPU: Millis,
                     env: nat -> seq<Action>)
    requires Answers(p, t, order, async, mCPU, env) && IterationOf(order, cached)
    ensures p.fromCache <==> SomeCandidate(Reads(p.begun, t, env, |cached|), order, async, p.blacklist)
  {
    hide SomeCandidate, TriesBest, TriesNew, Tries, Reads, Paused;
  }

  /** When nobody else does anything, everything is read in the state in which the pass began. */
  lemma {:induction false} Undisturbed(s: State, t: nat, env: nat -> seq<Action>, at: nat, n: nat)
    requires forall k: nat :: env(k) == []
    ensures Paused(s, t, env, at, n) == s
  {
    if n > 0 {
      Undisturbed(s, t, env, at, n - 1);
      assert env(at + n - 1) == [];
    }
  }

  /** Container c is cached, was not given up, and can take the run, as things are in state s. */
  predicate Usable(s: State, order: seq<nat>, blacklist: set<nat>, c: nat) {
    && c in order && c !in blacklist && c < |s.conts| && s.conts[c].worker < |s.workers|
    && if s.conts[c].async <= 1 then
         s.workers[s.conts[c].worker].registered && 0 < s.workers[s.conts[c].worker].freeCPU
       else s.conts[c].conns < s.conts[c].async
  }

  lemma QuietReads(s: State, t: nat, env: nat -> seq<Action>, at: nat, n: nat)
    requires forall k: nat :: env(k) == []
    ensures |Reads(s, t, env, n)| == n && |Scans(s, t, env, at, n)| == n
    ensures forall i: nat :: i < n ==> Reads(s, t, env, n)[i] == Look(s, s) && Scans(s, t, env, at, n)[i] == s
  {
    forall i: nat ensures Paused(s, t, env, 0, i) == s && Paused(s, t, env, at, i) == s {
      Undisturbed(s, t, env, 0, i);
      Undisturbed(s, t, env, at, i);
    }
    hide Paused;
  }

  lemma QuietCandidate(s: State, seen: seq<Look>, order: seq<nat>, async: nat, blacklist: set<nat>, i: nat)
    requires |seen| == |order| && AllFor(s, order, async) && i < |order| && HasCont(s, order[i])
    requires forall j: nat :: j < |seen| ==> seen[j] == Look(s, s)
    ensures Candidate(seen, order, async, blacklist, i) <==> Usable(s, order, blacklist, order[i])
  {
    assert order[i] in order;
  }

  /**
   A pass that nobody disturbs, in terms of the state it begins in: a cached container is used if and only if one is
   usable, and without async it is one whose worker has most free CPU of the usable ones.
   */
  lemma QuietPass(p: Pass, t: nat, order: seq<nat>, async: nat, mCPU: Millis, env: nat -> seq<Action>)
    requires Answers(p, t, order, async, mCPU, env) && (forall k: nat :: env(k) == [])
    requires AllFor(p.begun, order, async) && forall c: nat :: c < |p.begun.conts| ==> HasCont(p.begun, c)
    ensures p.fromCache <==> exists c: nat :: Usable(p.begun, order, p.blacklist, c)
    ensures p.fromCache ==>
              && p.container.Some? && Usable(p.begun, order, p.blacklist, p.container.value)
              && (async <= 1 ==> forall c: nat :: Usable(p.begun, order, p.blacklist, c) ==>
                    FreeAt(p.begun, c) <= FreeAt(p.begun, p.container.value))
  {
    var s, seen := p.begun, Reads(p.begun, t, env, |order|);
    QuietReads(s, t, env, 0, |order|);
    hide Reads, Paused, Tries, TriesNew, Shift, Step, Usable, Candidate;
    forall i: nat | i < |order| ensures Candidate(seen, order, async, p.blacklist, i) <==>
                                        Usable(s, order, p.blacklist, order[i])
    {
      QuietCandidate(s, seen, order, async, p.blacklist, i);
    }
    forall c: nat | Usable(s, order, p.blacklist, c)
      ensures exists i: nat :: i < |order| && order[i] == c && Candidate(seen, order, async, p.blacklist, i)
    {
      UsableIn(s, order, p.blacklist, c);
      var i: nat :| i < |order| && order[i] == c;
      assert Usable(s, order, p.blacklist, order[i]);
    }
    if i: nat :| Candidate(seen, order, async, p.blacklist, i) {
      CandidateIn(seen, order, async, p.blacklist, i);
      assert Usable(s, order, p.blacklist, order[i]);
    }
    if p.fromCache { QuietBest(p, seen, Paused(s, t, env, 0, 2 * |order|), t, order, async, Shift(env, 2 * |order|)); }
  }

  lemma UsableIn(s: State, order: seq<nat>, blacklist: set<nat>, c: nat)
    requires Usable(s, order, blacklist, c)
    ensures c in order && HasCont(s, c)
  {
  }

  lemma CandidateIn(seen: seq<Look>, order: seq<nat>, async: nat, blacklist: set<nat>, i: nat)
    requires Candidate(seen, order, async, blacklist, i)
    ensures i < |order|
  {
  }

  lemma QuietBest(p: Pass, seen: seq<Look>, q: State, t: nat, order: seq<nat>, async: nat, env: nat -> seq<Action>)
    requires TriesBest(p, seen, q, t, order, async, env) && |seen| == |order|
    requires forall j: nat :: j < |seen| ==> seen[j] == Look(p.begun, p.begun)
    requires forall i: nat :: i < |order| ==> HasCont(p.begun, order[i])
    ensures p.container.Some?
    ensures exists i: nat ::
              i < |order| && order[i] == p.container.value && Candidate(seen, order, async, p.blacklist, i)
    ensures async <= 1 ==> forall j: nat :: Candidate(seen, order, async, p.blacklist, j) ==>
              j < |order| && HasCont(p.begun, p.container.value)
              && FreeAt(p.begun, order[j]) <= FreeAt(p.begun, p.container.value)
  {
    var i: nat :| Best(seen, order, async, p.blacklist, i) && i < |order| && p.container == Some(order[i]);
    assert Candidate(seen, order, async, p.blacklist, i);
  }

  /** Without a usable container and a kept one, a fresh one is made on a registered worker that no other one beats. */
  lemma QuietFresh(p: Pass, t: nat, order: seq<nat>, env: nat -> seq<Action>, w: nat)
    requires Unrivalled(p, t, |order|, env, w) && forall k: nat :: env(k) == []
    ensures w < |p.begun.workers| && p.begun.workers[w].registered
    ensures forall v: nat :: v < |p.begun.workers| && p.begun.workers[v].registered ==>
              var a, b := p.begun.workers[v], p.begun.workers[w];
              a.freeCPU < b.freeCPU || (a.freeCPU == b.freeCPU && a.freeMemory <= b.freeMemory)
  {
    var s, n := p.begun, 2 * |order|;
    Undisturbed(s, t, env, 0, n);
    QuietReads(s, t, env, n, |s.workers|);
    hide Paused, Scans;
    var scanned := Scans(s, t, env, n, |s.workers|);
    forall v: nat | v < |s.workers| && s.workers[v].registered ensures NoBetterIn(s, v, w) {
      assert Present(scanned, v);
    }
  }

  predicate NoBetterIn(s: State, v: nat, w: nat) {
    && v < |s.workers| && w < |s.workers|
    && var a, b := s.workers[v], s.workers[w];
       a.freeCPU < b.freeCPU || (a.freeCPU == b.freeCPU && a.freeMemory <= b.freeMemory)
  }
}
