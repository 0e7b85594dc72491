/**
 The retry loop of the load balancer: Server.processRun, WorkerContainer.Run and ChunkReader, against
 every schedule of failures.  A schedule says, attempt by attempt, what grabWorkerContainer returned and
 which call failed.  Sleeping, logging and the worker's error counter are not part of this model.
 */
module LbRetry {
  import opened Wrappers

  type RunChunk = seq<int>

  /** What the caller streams in: chunks, then io.EOF or, if `broken`, another error. */
  datatype Input = Input(chunks: seq<RunChunk>, broken: bool)

  /** The resources of a run; an empty key stands for none. */
  datatype RunMeta = RunMeta(sourceHash: string, environment: string)

  /** What a worker's file repository answers for one key, and how an upload of it goes. */
  datatype Resource = Resource(
    asked: bool,               // Exists answered
    present: bool,
    uploaded: bool,            // Upload returned no error
    presentAfter: bool)        // after an error, Exists was asked again and said yes

  datatype Grab = Grab(cont: nat, conns: int, fromCache: bool)

  datatype Attempt = Attempt(
    grab: Option<Grab>,
    lockOk: bool,              // limiter.Lock
    resource: string -> Resource,
    opens: bool,               // scriptCli.Run
    metaSent: bool,
    sendFails: Option<nat>,    // the chunk whose Send fails
    closes: bool,              // CloseSend
    cancellation: bool)        // util.IsCancellation of the error, if there is one

  /** What one worker was sent. */
  datatype Delivery = Delivery(cont: nat, chunks: seq<RunChunk>, complete: bool)

  datatype Outcome =
    | SourceNotAvailable
    | NoWorkersAvailable
    | ResourceExhausted
    | Failed
    | Relayed        // the responses of the last delivery are relayed
    | Blocked        // relayReponse ranges over a nil channel

  datatype Got = Chunk(chunk: RunChunk) | EOF | ReadError

  class ChunkReader {
    const input: Input
    var next: nat
    var isDirty: bool

    ghost predicate Valid()
      reads this
    {
      next <= |input.chunks| && (!isDirty ==> next == 0)
    }

    constructor (input: Input)
      ensures Valid() && this.input == input && next == 0 && !isDirty
    {
      this.input := input;
      next, isDirty := 0, false;
    }

    method Get() returns (r: Got)
      requires Valid()
      modifies this
      ensures Valid() && isDirty
      ensures if old(next) < |input.chunks| then r == Chunk(input.chunks[old(next)]) && next == old(next) + 1
              else next == old(next) && r == if input.broken then ReadError else EOF
    {
      isDirty := true;
      if next < |input.chunks| {
        r := Chunk(input.chunks[next]);
        next := next + 1;
      } else {
        r := if input.broken then ReadError else EOF;
      }
    }
  }

  predicate SendsAll(a: Attempt, input: Input) {
    a.sendFails.None? || a.sendFails.value >= |input.chunks|
  }

  /** The chunks that go through before the first Send that fails. */
  function BeforeFailure(a: Attempt, input: Input): seq<RunChunk> {
    if SendsAll(a, input) then input.chunks else input.chunks[..a.sendFails.value]
  }

  /** WorkerContainer.Run */
  method RunOn(reader: ChunkReader, cont: nat, a: Attempt) returns (ok: bool, d: Delivery)
    requires reader.Valid() && !reader.isDirty
    modifies reader
    ensures reader.Valid() && d.cont == cont && d.chunks <= reader.input.chunks && d.complete == ok
    ensures reader.isDirty == (a.opens && a.metaSent) && (!reader.isDirty ==> !ok)
    ensures ok <==> a.opens && a.metaSent && SendsAll(a, reader.input) && !reader.input.broken && a.closes
    ensures d.chunks == if reader.isDirty then BeforeFailure(a, reader.input) else []
  {
    ok, d := false, Delivery(cont, [], false);
    if !a.opens { return; }
    if !a.metaSent { return; }
    var sent: seq<RunChunk> := [];
    var failed, done := false, false;
    while !done && !failed
      invariant reader.Valid() && |sent| <= reader.next && sent == reader.input.chunks[..|sent|]
      invariant !failed ==> |sent| == reader.next
      invariant done ==> |sent| == |reader.input.chunks| && !reader.input.broken
      invariant done || failed ==> reader.isDirty
      invariant a.sendFails.Some? ==> |sent| <= a.sendFails.value
      invariant failed ==> || (a.sendFails == Some(|sent|) && |sent| < |reader.input.chunks|)
                           || (reader.input.broken && |sent| == |reader.input.chunks|)
      decreases |reader.input.chunks| - |sent|, !done && !failed
    {
      var got := reader.Get();
      match got
      case EOF => done := true;
      case ReadError => failed := true;
      case Chunk(chunk) =>
        if a.sendFails == Some(|sent|) {
          failed := true;
        } else {
          sent := sent + [chunk];
        }
    }
    d := d.(chunks := sent);
    if failed { return; }
    if !a.closes { return; }
    ok, d := true, d.(complete := true);
  }

  /** The worker has the resource after uploadResource returned. */
  predicate Supplied(r: Resource) { r.asked && (r.present || r.uploaded || r.presentAfter) }

  predicate AllSupplied(a: Attempt, meta: RunMeta) {
    && (meta.sourceHash != "" ==> Supplied(a.resource(meta.sourceHash)))
    && (meta.environment != "" ==> Supplied(a.resource(meta.environment)))
  }

  /** Server.uploadResource with WorkerContainer.Upload */
  method UploadResource(r: Resource) returns (ok: bool)
    ensures ok <==> Supplied(r)
  {
    if !r.asked { return false; }
    if !r.present {
      if !r.uploaded { return r.presentAfter; }
    }
    return true;
  }

  /** Server.processWorkerRun */
  method ProcessWorkerRun(reader: ChunkReader, g: Grab, a: Attempt, meta: RunMeta) returns (ok: bool, d: Delivery)
    requires reader.Valid() && !reader.isDirty
    modifies reader
    ensures reader.Valid() && d.cont == g.cont && d.chunks <= reader.input.chunks && d.complete == ok
    ensures reader.isDirty == !FailsClean(g, a, meta)
    ensures !reader.isDirty ==> !ok
    ensures ok <==> Succeeds(g, a, meta, reader.input)
    ensures d.chunks == if reader.isDirty then BeforeFailure(a, reader.input) else []
  {
    if !g.fromCache {
      var keys := [meta.sourceHash, meta.environment];
      for i := 0 to 2
        invariant reader.Valid() && !reader.isDirty && reader.next == 0
        invariant forall k: nat :: k < i && keys[k] != "" ==> Supplied(a.resource(keys[k]))
      {
        if keys[i] != "" {
          ok := UploadResource(a.resource(keys[i]));
          if !ok {
            assert keys[i] == meta.sourceHash || keys[i] == meta.environment;
            return false, Delivery(g.cont, [], false);
          }
        }
      }
      assert keys[0] == meta.sourceHash && keys[1] == meta.environment;
    }
    ok, d := RunOn(reader, g.cont, a);
  }

  /** The attempt fails before it reads the input. */
  predicate FailsClean(g: Grab, a: Attempt, meta: RunMeta) {
    (!g.fromCache && !AllSupplied(a, meta)) || !a.opens || !a.metaSent
  }

  predicate Succeeds(g: Grab, a: Attempt, meta: RunMeta, input: Input) {
    !FailsClean(g, a, meta) && SendsAll(a, input) && !input.broken && a.closes
  }

  /** What an attempt that grabs a container passes on of the input. */
  function Passed(g: Grab, a: Attempt, meta: RunMeta, input: Input): seq<RunChunk> {
    if FailsClean(g, a, meta) then [] else BeforeFailure(a, input)
  }

  predicate PassedOn(a: Attempt, meta: RunMeta, input: Input, delivery: Option<Delivery>) {
    delivery.Some? ==> a.grab.Some? && delivery.value.chunks == Passed(a.grab.value, a, meta, input)
  }

  lemma PassedSays(a: Attempt, meta: RunMeta, limited: bool, input: Input, delivery: Option<Delivery>)
    requires PassedOn(a, meta, input, delivery) && delivery.Some?
    ensures Retried(a, meta, limited) ==> delivery.value.chunks == []
    ensures Verdict(a, meta, limited, input) == Relayed ==> delivery.value.chunks == input.chunks
  {
  }

  predicate NeedsLock(g: Grab, limited: bool) { limited && g.conns == 1 }

  /** The loop goes on after this attempt. */
  predicate Retried(a: Attempt, meta: RunMeta, limited: bool) {
    && a.grab.Some? && (NeedsLock(a.grab.value, limited) ==> a.lockOk)
    && FailsClean(a.grab.value, a, meta) && !a.cancellation
  }

  /** Attempts made before the loop stops, and whether it stops before the retries are used up. */
  ghost predicate StopsAt(schedule: nat -> Attempt, meta: RunMeta, limited: bool, n: nat) {
    (forall r: nat :: r < n ==> Retried(schedule(r), meta, limited)) && !Retried(schedule(n), meta, limited)
  }

  function Reversed(s: seq<nat>): seq<nat> {
    if s == [] then [] else Reversed(s[1..]) + [s[0]]
  }

  lemma {:induction false} ReversedSame(s: seq<nat>)
    ensures multiset(Reversed(s)) == multiset(s)
  {
    if s != [] {
      assert s == [s[0]] + s[1..];
      ReversedSame(s[1..]);
    }
  }

  /** What processRun defers. */
  datatype Deferred = Release(cont: nat) | Unlock

  function Releases(defers: seq<Deferred>): seq<nat> {
    if defers == [] then []
    else (if defers[0].Release? then [defers[0].cont] else []) + Releases(defers[1..])
  }

  function Unlocks(defers: seq<Deferred>): nat {
    if defers == [] then 0 else (if defers[0].Unlock? then 1 else 0) + Unlocks(defers[1..])
  }

  lemma NothingDeferred()
    ensures Releases([]) == [] && Unlocks([]) == 0 && Reversed([]) == []
  {
  }

  lemma DeferredStep(defers: seq<Deferred>)
    requires defers != []
    ensures Releases(defers) == (if defers[0].Release? then [defers[0].cont] else []) + Releases(defers[1..])
    ensures Unlocks(defers) == (if defers[0].Unlock? then 1 else 0) + Unlocks(defers[1..])
  {
  }

  lemma {:induction false} ReleasesMore(defers: seq<Deferred>, d: Deferred)
    ensures Releases(defers + [d]) == Releases(defers) + if d.Release? then [d.cont] else []
  {
    hide Releases, Unlocks;
    NothingDeferred();
    DeferredStep(defers + [d]);
    if defers == [] {
      assert (defers + [d])[1..] == [];
    } else {
      DeferredStep(defers);
      assert (defers + [d])[1..] == defers[1..] + [d];
      ReleasesMore(defers[1..], d);
    }
  }

  lemma {:induction false} UnlocksMore(defers: seq<Deferred>, d: Deferred)
    ensures Unlocks(defers + [d]) == Unlocks(defers) + if d.Unlock? then 1 else 0
  {
    hide Releases, Unlocks;
    NothingDeferred();
    DeferredStep(defers + [d]);
    if defers == [] {
      assert (defers + [d])[1..] == [];
    } else {
      DeferredStep(defers);
      assert (defers + [d])[1..] == defers[1..] + [d];
      UnlocksMore(defers[1..], d);
    }
  }

  lemma DeferMore(defers: seq<Deferred>, d: Deferred)
    ensures Releases(defers + [d]) == Releases(defers) + if d.Release? then [d.cont] else []
    ensures Unlocks(defers + [d]) == Unlocks(defers) + if d.Unlock? then 1 else 0
  {
    hide Releases, Unlocks;
    ReleasesMore(defers, d);
    UnlocksMore(defers, d);
  }

  lemma {:induction false} ReversedMore(s: seq<nat>, x: nat)
    ensures Reversed(s + [x]) == [x] + Reversed(s)
  {
    if s == [] {
      assert s + [x] == [x] && [x][1..] == [];
    } else {
      assert (s + [x])[1..] == s[1..] + [x];
      ReversedMore(s[1..], x);
    }
  }

  /** Deferred calls run last in, first out. */
  method RunDeferred(defers: seq<Deferred>) returns (released: seq<nat>, unlocks: nat)
    ensures released == Reversed(Releases(defers)) && unlocks == Unlocks(defers)
  {
    hide Reversed, Releases, Unlocks;
    released, unlocks := [], 0;
    var i := |defers|;
    assert defers[..i] == defers;
    assert [] + Reversed(Releases(defers)) == Reversed(Releases(defers));
    while i > 0
      invariant 0 <= i <= |defers|
      invariant released + Reversed(Releases(defers[..i])) == Reversed(Releases(defers))
      invariant unlocks + Unlocks(defers[..i]) == Unlocks(defers)
    {
      i := i - 1;
      assert defers[..i + 1] == defers[..i] + [defers[i]];
      DeferMore(defers[..i], defers[i]);
      match defers[i]
      case Release(cont) =>
        ReversedMore(Releases(defers[..i]), cont);
        assert released + ([cont] + Reversed(Releases(defers[..i]))) ==
               (released + [cont]) + Reversed(Releases(defers[..i]));
        released := released + [cont];
      case Unlock =>
        unlocks := unlocks + 1;
        assert Releases(defers[..i]) + [] == Releases(defers[..i]);
    }
    assert defers[..0] == [];
    NothingDeferred();
  }

  /** How the attempt that stops the loop ends the call. */
  function Verdict(a: Attempt, meta: RunMeta, limited: bool, input: Input): Outcome {
    match a.grab
    case None => NoWorkersAvailable
    case Some(g) =>
      if NeedsLock(g, limited) && !a.lockOk then ResourceExhausted
      else if Succeeds(g, a, meta, input) then Relayed
      else Failed
  }

  /** One turn of the loop; None means that it goes on. */
  method TryOnce(reader: ChunkReader, a: Attempt, meta: RunMeta, limited: bool)
    returns (verdict: Option<Outcome>, grabbed: Option<nat>, locked: bool, delivery: Option<Delivery>)
    requires reader.Valid() && !reader.isDirty
    modifies reader
    ensures reader.Valid()
    ensures if Retried(a, meta, limited) then verdict == None && !reader.isDirty
            else verdict == Some(Verdict(a, meta, limited, reader.input))
    ensures grabbed == if a.grab.None? then None else Some(a.grab.value.cont)
    ensures locked <==> limited && a.grab.Some? && a.grab.value.conns == 1 && a.lockOk
    ensures delivery.Some? <==> a.grab.Some? && !(limited && a.grab.value.conns == 1 && !a.lockOk)
    ensures delivery.Some? ==>
              && grabbed.Some? && delivery.value.cont == grabbed.value
              && delivery.value.chunks <= reader.input.chunks && delivery.value.complete == (verdict == Some(Relayed))
    ensures PassedOn(a, meta, reader.input, delivery)
  {
    verdict, grabbed, locked, delivery := None, None, false, None;
    if a.grab.None? {
      verdict := Some(NoWorkersAvailable);
      return;
    }
    var g := a.grab.value;
    grabbed := Some(g.cont);
    if NeedsLock(g, limited) && !a.lockOk {
      verdict := Some(ResourceExhausted);
      return;
    }
    locked := NeedsLock(g, limited);
    var ok, d := ProcessWorkerRun(reader, g, a, meta);
    delivery := Some(d);
    if ok {
      verdict := Some(Relayed);
    } else if reader.isDirty || a.cancellation {
      verdict := Some(Failed);
    }
  }

  /** Locks granted by the limiter in the first n attempts: it is asked for the first connection of a limited run. */
  function LockCount(schedule: nat -> Attempt, limited: bool, n: nat): nat {
    if n == 0 then 0
    else
      var a := schedule(n - 1);
      LockCount(schedule, limited, n - 1)
      + if limited && a.grab.Some? && a.grab.value.conns == 1 && a.lockOk then 1 else 0
  }

  /** The containers grabbed in the first n attempts. */
  function Grabbed(schedule: nat -> Attempt, n: nat): seq<nat> {
    if n == 0 then []
    else
      var a := schedule(n - 1);
      Grabbed(schedule, n - 1) + if a.grab.Some? then [a.grab.value.cont] else []
  }

  /** The containers that the first n attempts went on to run on. */
  function Used(schedule: nat -> Attempt, limited: bool, n: nat): seq<nat> {
    if n == 0 then []
    else
      var a := schedule(n - 1);
      Used(schedule, limited, n - 1)
      + if a.grab.Some? && !(limited && a.grab.value.conns == 1 && !a.lockOk) then [a.grab.value.cont] else []
  }

  /** The attempt grabs a container, and the limiter lets it run there. */
  predicate RunsOn(a: Attempt, limited: bool) {
    a.grab.Some? && !(limited && a.grab.value.conns == 1 && !a.lockOk)
  }

  function Conts(deliveries: seq<Delivery>): seq<nat> {
    seq(|deliveries|, i requires 0 <= i < |deliveries| => deliveries[i].cont)
  }

  /** The attempt, spelled out: when it is retried, and how it ends the call when it is not. */
  lemma AttemptSays(a: Attempt, meta: RunMeta, limited: bool, input: Input)
    ensures var refused := limited && a.grab.Some? && a.grab.value.conns == 1 && !a.lockOk;
            var source, environment := a.resource(meta.sourceHash), a.resource(meta.environment);
            var missing :=
              || (meta.sourceHash != ""
                  && !(source.asked && (source.present || source.uploaded || source.presentAfter)))
              || (meta.environment != ""
                  && !(environment.asked && (environment.present || environment.uploaded || environment.presentAfter)));
            var clean := a.grab.Some? && ((!a.grab.value.fromCache && missing) || !a.opens || !a.metaSent);
            var sent := (a.sendFails.None? || |input.chunks| <= a.sendFails.value) && !input.broken && a.closes;
            && (Retried(a, meta, limited) <==> a.grab.Some? && !refused && clean && !a.cancellation)
            && (Verdict(a, meta, limited, input) == NoWorkersAvailable <==> a.grab.None?)
            && (Verdict(a, meta, limited, input) == ResourceExhausted <==> refused)
            && (Verdict(a, meta, limited, input) == Relayed <==> a.grab.Some? && !refused && !clean && sent)
            && (Verdict(a, meta, limited, input) == Failed <==> a.grab.Some? && !refused && (clean || !sent))
  {
  }

  /** The workers of the failed attempts saw nothing of the input. */
  ghost predicate OnlyLast(deliveries: seq<Delivery>) {
    forall i: nat :: i + 1 < |deliveries| ==> deliveries[i].chunks == [] && !deliveries[i].complete
  }

  ghost predicate Untouched(deliveries: seq<Delivery>) {
    forall i: nat :: i < |deliveries| ==> deliveries[i].chunks == [] && !deliveries[i].complete
  }

  ghost predicate FromInput(deliveries: seq<Delivery>, input: Input, reserved: seq<nat>) {
    forall d :: d in deliveries ==> d.chunks <= input.chunks && d.cont in reserved
  }

  /** The load balancer's own repository, which `repo` describes, has what the run needs. */
  predicate Available(repo: string -> bool, meta: RunMeta) {
    repo(meta.sourceHash) && (meta.environment != "" ==> repo(meta.environment))
  }

  /**
   Server.processRun.  `reserved` are the containers grabbed, `released` the Release calls in their order;
   `locks` and `unlocks` count calls on the limiter.
   */
  method ProcessRun(input: Input, meta: RunMeta, repo: string -> bool, workerRetry: int, schedule: nat -> Attempt,
                    limited: bool)
    returns (outcome: Outcome, deliveries: seq<Delivery>, reserved: seq<nat>, released: seq<nat>, locks: nat,
             unlocks: nat, made: nat)
    // `made` attempts are made: up to the first that is not retried, or all.
    ensures outcome == SourceNotAvailable ==> made == 0
    ensures outcome == Blocked ==> made == if workerRetry < 0 then 0 else workerRetry
    ensures outcome != SourceNotAvailable && outcome != Blocked ==>
              0 < made <= workerRetry && StopsAt(schedule, meta, limited, made - 1)
              && outcome == Verdict(schedule(made - 1), meta, limited, input)
    // Who was reserved, who was run on, and how often the limiter gave a lock.
    ensures reserved == Grabbed(schedule, made) && Conts(deliveries) == Used(schedule, limited, made)
    ensures locks == LockCount(schedule, limited, made)
    // The input reaches at most one worker, and only in the last attempt.
    ensures OnlyLast(deliveries) && FromInput(deliveries, input, reserved)
    // A call that succeeds has sent the whole stream to the worker whose responses it relays.
    ensures outcome == Relayed ==>
              deliveries != [] && reserved != []
              && deliveries[|deliveries| - 1] == Delivery(reserved[|reserved| - 1], input.chunks, true)
    ensures outcome != Relayed ==> forall d :: d in deliveries ==> !d.complete
    // And one that fails, only the chunks before the first Send that failed.
    ensures made > 0 && outcome != Blocked && RunsOn(schedule(made - 1), limited) ==>
              deliveries != [] && PassedOn(schedule(made - 1), meta, input, Some(deliveries[|deliveries| - 1]))
    // On return every reservation is released once and every lock unlocked once; a blocked call keeps them.
    ensures if outcome == Blocked then released == [] && unlocks == 0
            else released == Reversed(reserved) && multiset(released) == multiset(reserved) && unlocks == locks
    // It blocks exactly when every attempt it may make fails without touching the input.
    ensures outcome == Blocked <==>
              Available(repo, meta) && forall r: nat :: r < workerRetry ==> Retried(schedule(r), meta, limited)
    ensures outcome == SourceNotAvailable <==>
              !repo(meta.sourceHash) || (meta.environment != "" && !repo(meta.environment))
    ensures outcome == SourceNotAvailable ==> reserved == [] && deliveries == []
    ensures forall n: nat :: Available(repo, meta) && n < workerRetry && StopsAt(schedule, meta, limited, n) ==>
              outcome == Verdict(schedule(n), meta, limited, input)
  {
    hide Retried, Verdict, Reversed, Releases, Unlocks, Grabbed, Used, LockCount, Conts, StopsAt, FromInput, OnlyLast;
    hide Going, Ended;
    deliveries, reserved, released, locks, unlocks, made := [], [], [], 0, 0, 0;
    var defers: seq<Deferred> := [];
    NothingDeferred();
    NothingTried(schedule, meta, limited, input);
    if !Available(repo, meta) {
      outcome := SourceNotAvailable;
      return;
    }
    var reader := new ChunkReader(input);
    var retry: nat := 0;
    while retry < workerRetry
      invariant reader.Valid() && reader.input == input && !reader.isDirty && made == retry
      invariant retry == 0 || retry <= workerRetry
      invariant Going(schedule, meta, limited, input, retry, Tally(deliveries, reserved, defers, locks))
    {
      ghost var before := Tally(deliveries, reserved, defers, locks);
      var verdict, grabbed, locked, delivery := TryOnce(reader, schedule(retry), meta, limited);
      if grabbed.Some? {
        reserved := reserved + [grabbed.value];
        defers := defers + [Release(grabbed.value)];
      }
      if locked {
        locks := locks + 1;
        defers := defers + [Unlock];
      }
      if delivery.Some? {
        deliveries := deliveries + [delivery.value];
      }
      made := made + 1;
      ghost var after := Tally(deliveries, reserved, defers, locks);
      assert after == Recorded(before, grabbed, locked, delivery);
      if verdict.Some? {
        outcome := verdict.value;
        AttemptEnds(schedule, meta, limited, input, retry, before, verdict, grabbed, locked, delivery);
        released, unlocks := RunDeferred(defers);
        ReversedSame(reserved);
        EndedSays(schedule, meta, limited, input, made, after, outcome);
        return;
      }
      AttemptRetried(schedule, meta, limited, input, retry, before, grabbed, locked, delivery);
      retry := retry + 1;
    }
    outcome := Blocked;
    AllRetried(schedule, meta, limited, input, retry, workerRetry, Tally(deliveries, reserved, defers, locks));
  }

  /** What processRun has collected. */
  datatype Tally = Tally(deliveries: seq<Delivery>, reserved: seq<nat>, defers: seq<Deferred>, locks: nat)

  function Recorded(b: Tally, grabbed: Option<nat>, locked: bool, delivery: Option<Delivery>): Tally {
    var released := if grabbed.Some? then [Release(grabbed.value)] else [];
    Tally(if delivery.Some? then b.deliveries + [delivery.value] else b.deliveries,
          if grabbed.Some? then b.reserved + [grabbed.value] else b.reserved,
          b.defers + released + (if locked then [Unlock] else []),
          if locked then b.locks + 1 else b.locks)
  }

  /** The tally of the first n attempts. */
  ghost predicate Tallied(schedule: nat -> Attempt, limited: bool, input: Input, n: nat, b: Tally) {
    && b.reserved == Grabbed(schedule, n) && b.locks == LockCount(schedule, limited, n)
    && Conts(b.deliveries) == Used(schedule, limited, n)
    && Releases(b.defers) == b.reserved && Unlocks(b.defers) == b.locks
    && FromInput(b.deliveries, input, b.reserved)
  }

  /** The first n attempts were all retried. */
  ghost predicate Going(schedule: nat -> Attempt, meta: RunMeta, limited: bool, input: Input, n: nat, b: Tally) {
    && (forall r: nat :: r < n ==> Retried(schedule(r), meta, limited))
    && Tallied(schedule, limited, input, n, b) && Untouched(b.deliveries)
  }

  /** The n-th attempt, the last one, ended the call. */
  ghost predicate Ended(schedule: nat -> Attempt, meta: RunMeta, limited: bool, input: Input, n: nat, b: Tally,
                        outcome: Outcome) {
    && n > 0 && StopsAt(schedule, meta, limited, n - 1) && outcome == Verdict(schedule(n - 1), meta, limited, input)
    && Tallied(schedule, limited, input, n, b) && OnlyLast(b.deliveries)
    && (outcome != Relayed ==> forall d :: d in b.deliveries ==> !d.complete)
    && (RunsOn(schedule(n - 1), limited) ==> LastDelivery(schedule(n - 1), meta, input, b, outcome))
    && (outcome == Relayed ==> RunsOn(schedule(n - 1), limited))
  }

  predicate LastDelivery(a: Attempt, meta: RunMeta, input: Input, b: Tally, outcome: Outcome) {
    && b.deliveries != [] && b.reserved != []
    && var d := b.deliveries[|b.deliveries| - 1];
       && d.cont == b.reserved[|b.reserved| - 1] && d.complete == (outcome == Relayed)
       && PassedOn(a, meta, input, Some(d))
  }

  lemma RecordedLast(a: Attempt, meta: RunMeta, limited: bool, input: Input, b: Tally, outcome: Outcome,
                     grabbed: Option<nat>, locked: bool, delivery: Option<Delivery>)
    requires TriedOnce(a, limited, input, grabbed, locked, delivery, outcome == Relayed)
    requires PassedOn(a, meta, input, delivery)
    ensures RunsOn(a, limited) ==> LastDelivery(a, meta, input, Recorded(b, grabbed, locked, delivery), outcome)
    ensures Verdict(a, meta, limited, input) == Relayed ==> RunsOn(a, limited)
  {
    hide PassedOn;
  }

  /** What TryOnce says. */
  ghost predicate TriedOnce(a: Attempt, limited: bool, input: Input, grabbed: Option<nat>, locked: bool,
                            delivery: Option<Delivery>, complete: bool) {
    && grabbed == (if a.grab.None? then None else Some(a.grab.value.cont))
    && (locked <==> limited && a.grab.Some? && a.grab.value.conns == 1 && a.lockOk)
    && (delivery.Some? <==> a.grab.Some? && !(limited && a.grab.value.conns == 1 && !a.lockOk))
    && (delivery.Some? ==>
          && delivery.value.cont == a.grab.value.cont && delivery.value.chunks <= input.chunks
          && delivery.value.complete == complete)
  }

  lemma NothingTried(schedule: nat -> Attempt, meta: RunMeta, limited: bool, input: Input)
    ensures Going(schedule, meta, limited, input, 0, Tally([], [], [], 0))
    ensures Grabbed(schedule, 0) == [] && Used(schedule, limited, 0) == [] && LockCount(schedule, limited, 0) == 0
    ensures Conts([]) == [] && OnlyLast([]) && FromInput([], input, [])
  {
  }

  lemma TallyMore(schedule: nat -> Attempt, limited: bool, input: Input, n: nat, b: Tally, grabbed: Option<nat>,
                  locked: bool, delivery: Option<Delivery>, complete: bool)
    requires Tallied(schedule, limited, input, n, b)
    requires TriedOnce(schedule(n), limited, input, grabbed, locked, delivery, complete)
    ensures Tallied(schedule, limited, input, n + 1, Recorded(b, grabbed, locked, delivery))
  {
    TallyDefers(b.defers, grabbed, locked);
    CountsMore(schedule, limited, n);
    MoreDeliveries(b.deliveries, input, b.reserved, grabbed, delivery);
    hide Releases, Unlocks, Grabbed, Used, LockCount, Conts, FromInput;
    assert b.reserved + [] == b.reserved && Conts(b.deliveries) + [] == Conts(b.deliveries);
  }

  lemma CountsMore(schedule: nat -> Attempt, limited: bool, n: nat)
    ensures var a := schedule(n);
            && Grabbed(schedule, n + 1) == Grabbed(schedule, n) + (if a.grab.Some? then [a.grab.value.cont] else [])
            && LockCount(schedule, limited, n + 1) == LockCount(schedule, limited, n)
                 + (if limited && a.grab.Some? && a.grab.value.conns == 1 && a.lockOk then 1 else 0)
            && Used(schedule, limited, n + 1) == Used(schedule, limited, n)
                 + if a.grab.Some? && !(limited && a.grab.value.conns == 1 && !a.lockOk) then [a.grab.value.cont]
                   else []
  {
  }

  lemma MoreDeliveries(deliveries: seq<Delivery>, input: Input, reserved: seq<nat>, grabbed: Option<nat>,
                       delivery: Option<Delivery>)
    requires FromInput(deliveries, input, reserved)
    requires delivery.Some? ==>
               grabbed.Some? && delivery.value.cont == grabbed.value && delivery.value.chunks <= input.chunks
    ensures FromInput(if delivery.Some? then deliveries + [delivery.value] else deliveries, input,
                      if grabbed.Some? then reserved + [grabbed.value] else reserved)
    ensures delivery.Some? ==> Conts(deliveries + [delivery.value]) == Conts(deliveries) + [delivery.value.cont]
  {
  }

  lemma TallyDefers(defers: seq<Deferred>, grabbed: Option<nat>, locked: bool)
    ensures var released := if grabbed.Some? then [Release(grabbed.value)] else [];
            var more := defers + released + if locked then [Unlock] else [];
            && Releases(more) == (if grabbed.Some? then Releases(defers) + [grabbed.value] else Releases(defers))
            && Unlocks(more) == Unlocks(defers) + if locked then 1 else 0
  {
    hide Releases, Unlocks;
    var released := if grabbed.Some? then [Release(grabbed.value)] else [];
    if grabbed.Some? { DeferMore(defers, Release(grabbed.value)); } else { assert defers + released == defers; }
    if locked {
      DeferMore(defers + released, Unlock);
      assert Releases(defers + released) + [] == Releases(defers + released);
    } else {
      assert defers + released + [] == defers + released;
    }
  }

  lemma AttemptRetried(schedule: nat -> Attempt, meta: RunMeta, limited: bool, input: Input, n: nat, b: Tally,
                       grabbed: Option<nat>, locked: bool, delivery: Option<Delivery>)
    requires Going(schedule, meta, limited, input, n, b) && Retried(schedule(n), meta, limited)
    requires TriedOnce(schedule(n), limited, input, grabbed, locked, delivery, false)
    requires PassedOn(schedule(n), meta, input, delivery)
    ensures Going(schedule, meta, limited, input, n + 1, Recorded(b, grabbed, locked, delivery))
  {
    hide Tallied, Retried, TriedOnce, PassedOn;
    if delivery.Some? { PassedSays(schedule(n), meta, limited, input, delivery); }
    TallyMore(schedule, limited, input, n, b, grabbed, locked, delivery, false);
    DeliveryOf(schedule(n), limited, input, grabbed, locked, delivery, false);
  }

  lemma DeliveryOf(a: Attempt, limited: bool, input: Input, grabbed: Option<nat>, locked: bool,
                   delivery: Option<Delivery>, complete: bool)
    requires TriedOnce(a, limited, input, grabbed, locked, delivery, complete)
    ensures delivery.Some? ==>
              grabbed.Some? && delivery.value.cont == grabbed.value && delivery.value.complete == complete
  {
  }

  lemma AttemptEnds(schedule: nat -> Attempt, meta: RunMeta, limited: bool, input: Input, n: nat, b: Tally,
                    verdict: Option<Outcome>, grabbed: Option<nat>, locked: bool, delivery: Option<Delivery>)
    requires Going(schedule, meta, limited, input, n, b) && !Retried(schedule(n), meta, limited)
    requires verdict == Some(Verdict(schedule(n), meta, limited, input))
    requires TriedOnce(schedule(n), limited, input, grabbed, locked, delivery, verdict == Some(Relayed))
    requires PassedOn(schedule(n), meta, input, delivery)
    ensures Ended(schedule, meta, limited, input, n + 1, Recorded(b, grabbed, locked, delivery), verdict.value)
  {
    hide Tallied, Retried, TriedOnce, Verdict, PassedOn;
    TallyMore(schedule, limited, input, n, b, grabbed, locked, delivery, verdict == Some(Relayed));
    DeliveryOf(schedule(n), limited, input, grabbed, locked, delivery, verdict == Some(Relayed));
    RecordedLast(schedule(n), meta, limited, input, b, verdict.value, grabbed, locked, delivery);
    hide RunsOn, LastDelivery;
  }

  lemma EndedSays(schedule: nat -> Attempt, meta: RunMeta, limited: bool, input: Input, n: nat, b: Tally,
                  outcome: Outcome)
    requires Ended(schedule, meta, limited, input, n, b, outcome)
    ensures n > 0 && StopsAt(schedule, meta, limited, n - 1)
    ensures outcome == Verdict(schedule(n - 1), meta, limited, input)
    ensures outcome != Blocked && outcome != SourceNotAvailable
    ensures !Retried(schedule(n - 1), meta, limited)
    ensures forall m: nat :: StopsAt(schedule, meta, limited, m) ==> m == n - 1
    ensures b.reserved == Grabbed(schedule, n) && Conts(b.deliveries) == Used(schedule, limited, n)
    ensures b.locks == LockCount(schedule, limited, n)
    ensures Releases(b.defers) == b.reserved && Unlocks(b.defers) == b.locks
    ensures OnlyLast(b.deliveries) && FromInput(b.deliveries, input, b.reserved)
    ensures outcome == Relayed ==>
              && b.deliveries != [] && b.reserved != []
              && b.deliveries[|b.deliveries| - 1] == Delivery(b.reserved[|b.reserved| - 1], input.chunks, true)
    ensures RunsOn(schedule(n - 1), limited) ==> LastDelivery(schedule(n - 1), meta, input, b, outcome)
    ensures outcome != Relayed ==> forall d :: d in b.deliveries ==> !d.complete
  {
    NotBlocked(schedule(n - 1), meta, limited, input);
    if outcome == Relayed {
      PassedSays(schedule(n - 1), meta, limited, input, Some(b.deliveries[|b.deliveries| - 1]));
    }
    hide Retried, Verdict, Grabbed, Used, LockCount, Conts, Releases, Unlocks, OnlyLast, FromInput;
  }

  lemma AllRetried(schedule: nat -> Attempt, meta: RunMeta, limited: bool, input: Input, n: nat, workerRetry: int,
                   b: Tally)
    requires Going(schedule, meta, limited, input, n, b) && n >= workerRetry
    ensures forall r: nat :: r < workerRetry ==> Retried(schedule(r), meta, limited)
    ensures forall m: nat :: m < workerRetry ==> !StopsAt(schedule, meta, limited, m)
    ensures b.reserved == Grabbed(schedule, n) && Conts(b.deliveries) == Used(schedule, limited, n)
    ensures b.locks == LockCount(schedule, limited, n)
    ensures OnlyLast(b.deliveries) && FromInput(b.deliveries, input, b.reserved)
    ensures forall d :: d in b.deliveries ==> !d.complete
  {
    hide Retried, Grabbed, Used, LockCount, Conts, Releases, Unlocks, FromInput;
  }

  lemma NotBlocked(a: Attempt, meta: RunMeta, limited: bool, input: Input)
    ensures Verdict(a, meta, limited, input) != Blocked && Verdict(a, meta, limited, input) != SourceNotAvailable
  {
  }
}
