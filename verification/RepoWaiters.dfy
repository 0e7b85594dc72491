/**
 Callers of StoreLock that find a key locked: who is turned away, and who gets a grant.
 */
module RepoWaiters {
  import opened RepoLocks

  /** Where a step takes a thread that waits, or was woken. */
  function After(s: State, a: Action, p: Thread, t: nat): Thread
    requires (p.Waiting? || p.Woken?) && p.g < |s.grants|
  {
    if p.Waiting? then
      if a == TimeOut(t) then Stale(p.key, p.g)
      else if a == Wake(t) && s.grants[p.g].closes > 0 then Woken(p.key, p.g)
      else p
    else if a != Check(t) then p
    else if p.key in s.cache then Idle
    else Stale(p.key, p.g)
  }

  lemma WaiterAsks(s: State, a: Action, t: nat)
    requires t < |s.threads| && (s.threads[t].Waiting? || s.threads[t].Woken?) && s.threads[t].g < |s.grants|
    requires Enabled(s, a) && Asks(a)
    ensures t < |AskOf(s, a).threads| && |s.grants| <= |AskOf(s, a).grants|
    ensures AskOf(s, a).threads[t] == After(s, a, s.threads[t], t)
  {
    hide RemoveStoreLock;
  }

  lemma WaiterOther(s: State, a: Action, t: nat)
    requires t < |s.threads| && (s.threads[t].Waiting? || s.threads[t].Woken?) && s.threads[t].g < |s.grants|
    requires Enabled(s, a) ==> !Asks(a)
    ensures t < |Step(s, a).threads| && |s.grants| <= |Step(s, a).grants|
    ensures Step(s, a).threads[t] == s.threads[t] && After(s, a, s.threads[t], t) == s.threads[t]
  {
    hide AskOf, RemoveStoreLock;
  }

  lemma WaiterStep(s: State, a: Action, t: nat)
    requires t < |s.threads| && (s.threads[t].Waiting? || s.threads[t].Woken?) && s.threads[t].g < |s.grants|
    ensures t < |Step(s, a).threads| && |s.grants| <= |Step(s, a).grants|
    ensures Step(s, a).threads[t] == After(s, a, s.threads[t], t)
  {
    hide After, AskOf, UploadOf, RepoOf, Enabled;
    if Enabled(s, a) && Asks(a) {
      WaiterAsks(s, a, t);
    } else {
      WaiterOther(s, a, t);
    }
  }

  /** Thread t was let go on to a grant: it timed out, or it was woken and did not find the key. */
  ghost predicate LetOn(s: State, a: Action, t: nat, key: string, g: nat) {
    && t < |s.threads|
    && ((a == TimeOut(t) && s.threads[t] == Waiting(key, g))
        || (a == Check(t) && s.threads[t] == Woken(key, g) && key !in s.cache))
  }

  ghost predicate StillIn(p: Thread, key: string, g: nat) { p == Waiting(key, g) || p == Woken(key, g) }

  /**
   A thread that waits for a key is in StoreLock until it times out or is woken.  If the call goes on to a grant, it
   timed out, or the key was not in the cache when it looked after being woken; otherwise it returns nil.
   */
  lemma {:induction false} WaiterFate(s: State, acts: seq<Action>, t: nat, key: string, g: nat)
    requires t < |s.threads| && g < |s.grants| && StillIn(s.threads[t], key, g)
    requires forall n: nat :: n < |acts| ==> !LetOn(Run(s, acts[..n]), acts[n], t, key, g)
    requires forall n: nat :: n < |acts| ==> t < |Run(s, acts[..n]).threads| && !Run(s, acts[..n]).threads[t].Idle?
    ensures var r := Run(s, acts);
            t < |r.threads| && g < |r.grants| && (StillIn(r.threads[t], key, g) || r.threads[t].Idle?)
  {
    hide Step;
    if acts != [] {
      var n := |acts| - 1;
      var front := acts[..n];
      forall m: nat | m < n
        ensures !LetOn(Run(s, front[..m]), front[m], t, key, g)
        ensures t < |Run(s, front[..m]).threads| && !Run(s, front[..m]).threads[t].Idle?
      {
        assert front[..m] == acts[..m];
      }
      WaiterFate(s, front, t, key, g);
      assert !LetOn(Run(s, front), acts[n], t, key, g);
      WaiterStep(Run(s, front), acts[n], t);
    }
  }

  /** In particular, no grant without a timeout while the key stays published. */
  lemma WaiterGranted(s: State, acts: seq<Action>, t: nat, key: string, g: nat)
    requires t < |s.threads| && g < |s.grants| && s.threads[t] == Waiting(key, g)
    requires forall n: nat :: n < |acts| ==> t < |Run(s, acts[..n]).threads| && !Run(s, acts[..n]).threads[t].Idle?
    requires var r := Run(s, acts); t < |r.threads| && Owns(r.threads[t])
    ensures exists n: nat :: n < |acts| && LetOn(Run(s, acts[..n]), acts[n], t, key, g)
  {
    hide Run;
    if forall n: nat :: n < |acts| ==> !LetOn(Run(s, acts[..n]), acts[n], t, key, g) {
      WaiterFate(s, acts, t, key, g);
    }
  }

  lemma {:induction false} WokenWaits(s: State, acts: seq<Action>, t: nat, key: string, g: nat)
    requires t < |s.threads| && g < |s.grants| && s.threads[t] == Woken(key, g) && Check(t) !in acts
    ensures var r := Run(s, acts); t < |r.threads| && g < |r.grants| && r.threads[t] == Woken(key, g)
  {
    hide Step;
    if acts != [] {
      var front, last := acts[..|acts| - 1], acts[|acts| - 1];
      assert last in acts;
      WokenWaits(s, front, t, key, g);
      WaiterStep(Run(s, front), last, t);
    }
  }

  /**
   Whatever the others do before it looks: a thread that was woken returns nil if and only if the key is published when
   it looks, and the look itself changes nothing else.
   */
  lemma {:induction false} WokenExactly(s: State, acts: seq<Action>, t: nat, key: string, g: nat)
    requires t < |s.threads| && g < |s.grants| && s.threads[t] == Woken(key, g) && Check(t) !in acts
    ensures var r := Run(s, acts); var r2 := Step(r, Check(t));
            && t < |r.threads| && r2 == r.(threads := r2.threads) && |r2.threads| == |r.threads|
            && (r2.threads[t] == Idle <==> key in r.cache)
            && (r2.threads[t] == Stale(key, g) <==> key !in r.cache)
  {
    WokenWaits(s, acts, t, key, g);
    hide Run;
    CheckTo(Run(s, acts), t, key, g);
  }

  lemma CheckTo(s: State, t: nat, key: string, g: nat)
    requires t < |s.threads| && g < |s.grants| && s.threads[t] == Woken(key, g)
    ensures Step(s, Check(t)) == Move(s, t, if key in s.cache then Idle else Stale(key, g))
  {
    hide UploadOf, RepoOf, DoLook;
  }

  lemma WakeTo(s: State, t: nat, key: string, g: nat)
    requires t < |s.threads| && g < |s.grants| && s.threads[t] == Waiting(key, g) && s.grants[g].closes > 0
    ensures Step(s, Wake(t)) == Move(s, t, Woken(key, g))
  {
    hide UploadOf, RepoOf, DoLook;
  }

  /** StoreLock on a published key whose lock is closed returns nil and leaves everything as it was. */
  lemma PublishedRejects(s: State, t: nat, key: string)
    requires t < |s.threads| && s.threads[t] == Idle && key in s.cache
    requires key in s.locks && s.locks[key] < |s.grants| && s.grants[s.locks[key]].closes > 0
    ensures Step(Step(Step(Step(s, Ask(t, key)), Look(t)), Wake(t)), Check(t)) == s
  {
    hide Step;
    var g := s.locks[key];
    AskTo(s, t, key);
    var s1 := Move(s, t, Asking(key));
    LookTo(s1, t);
    assert DoLook(s1, t) == Move(s, t, Waiting(key, g));
    WakeTo(Move(s, t, Waiting(key, g)), t, key, g);
    assert Move(Move(s, t, Waiting(key, g)), t, Woken(key, g)) == Move(s, t, Woken(key, g));
    CheckTo(Move(s, t, Woken(key, g)), t, key, g);
    assert Move(Move(s, t, Woken(key, g)), t, Idle) == s;
  }

  // ---- Who gives up a lock ----

  /** The step deletes the lock of the key that belongs to grant g. */
  predicate Deletes(s: State, a: Action, key: string, g: nat) {
    && Enabled(s, a)
    && match a
       case Unlist(t) => s.threads[t] == Unlisting(g)
       case Forget(t) => s.threads[t] == Stale(key, g)
       case EvictUnlock(e) => s.grants[e].key == key
       case _ => false
  }

  /**
   A lock goes only when its own upload is discarded, when a caller that waited for it gives up on it or found it
   closed, or when a directory of the key is evicted; no other step touches it.
   */
  lemma LockGoesExactly(s: State, a: Action, key: string)
    requires Inv(s) && key in s.locks
    ensures var s2 := Step(s, a); var g := s.locks[key];
            if Deletes(s, a, key, g) then key !in s2.locks else key in s2.locks && s2.locks[key] == g
  {
    hide Inv, AskOf, UploadOf, RepoOf, Deletes;
    InvLock(s, key);
    if !Enabled(s, a) {
      NotDeleted(s, a, key);
    } else if Asks(a) {
      AskDeletes(s, a, key);
    } else {
      OtherDeletes(s, a, key);
    }
  }

  lemma NotDeleted(s: State, a: Action, key: string)
    requires !Enabled(s, a) && key in s.locks
    ensures !Deletes(s, a, key, s.locks[key])
  {
  }

  lemma AskDeletes(s: State, a: Action, key: string)
    requires Enabled(s, a) && Asks(a) && key in s.locks
    ensures var s2 := AskOf(s, a); var g := s.locks[key];
            if Deletes(s, a, key, g) then key !in s2.locks else key in s2.locks && s2.locks[key] == g
  {
  }

  lemma OtherDeletes(s: State, a: Action, key: string)
    requires Enabled(s, a) && !Asks(a) && key in s.locks
    requires s.locks[key] < |s.grants| && s.grants[s.locks[key]].key == key
    ensures var s2 := if Uploads(a) then UploadOf(s, a) else RepoOf(s, a); var g := s.locks[key];
            if Deletes(s, a, key, g) then key !in s2.locks else key in s2.locks && s2.locks[key] == g
  {
  }

  lemma InvLock(s: State, key: string)
    requires Inv(s) && key in s.locks
    ensures s.locks[key] < |s.grants| && s.grants[s.locks[key]].key == key
  {
  }
}
