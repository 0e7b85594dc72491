/**
 Uploading a directory: the sender loops of uploadDir and uploadChunks, and Server.Upload with
 processChunkUpload, which starts one Store per run of equal names and feeds it through a channel.
 */
module RepoUpload {
  import opened Bytes
  import opened Wrappers

  datatype Request = Meta(key: string) | Chunk(name: string, data: seq<byte>) | Done

  /** What stream.Recv returns; io.EOF is the end of the sequence. */
  datatype Event = Message(request: Request) | RecvError

  datatype Response = Accepted | Empty

  /** How Upload ends: with an error or nil, or never, blocked on a full channel. */
  datatype Outcome = Nil | MissingMeta | StoreFailed | RecvFailed | Blocked

  datatype File = File(name: string, data: seq<byte>)

  // ---- Senders ----

  ghost predicate Names(files: seq<File>, name: string) { exists i: nat :: i < |files| && files[i].name == name }

  ghost predicate Distinct(files: seq<File>) {
    files == [] || (!Names(files[1..], files[0].name) && Distinct(files[1..]))
  }

  function Payload(chunks: seq<Request>): seq<byte> {
    if chunks == [] then [] else (if chunks[0].Chunk? then chunks[0].data else []) + Payload(chunks[1..])
  }

  predicate ChunksOf(chunks: seq<Request>, name: string, chunkSize: nat) {
    forall c :: c in chunks ==> c.Chunk? && c.name == name && 0 < |c.data| <= chunkSize
  }

  /** The chunks are non-empty pieces of one file. */
  ghost predicate Cuts(chunks: seq<Request>, file: File, chunkSize: nat) {
    ChunksOf(chunks, file.name, chunkSize) && Payload(chunks) == file.data
  }

  /** The chunks of a file whose sending broke off. */
  ghost predicate CutsSome(chunks: seq<Request>, file: File, chunkSize: nat) {
    ChunksOf(chunks, file.name, chunkSize) && Payload(chunks) <= file.data
  }

  ghost predicate AllCut(parts: seq<seq<Request>>, files: seq<File>, chunkSize: nat) {
    if parts == [] then files == []
    else files != [] && Cuts(parts[0], files[0], chunkSize) && AllCut(parts[1..], files[1..], chunkSize)
  }

  function Flatten(parts: seq<seq<Request>>): seq<Request> {
    if parts == [] then [] else parts[0] + Flatten(parts[1..])
  }

  lemma {:induction false} PayloadAppend(chunks: seq<Request>, c: Request)
    requires c.Chunk?
    ensures Payload(chunks + [c]) == Payload(chunks) + c.data
  {
    if chunks == [] {
      assert (chunks + [c])[1..] == [] && chunks + [c] == [c];
    } else {
      assert (chunks + [c])[1..] == chunks[1..] + [c];
      PayloadAppend(chunks[1..], c);
    }
  }

  lemma {:induction false} FlattenAppend(parts: seq<seq<Request>>, part: seq<Request>)
    ensures Flatten(parts + [part]) == Flatten(parts) + part
  {
    if parts == [] {
      assert parts + [part] == [part] && [part][1..] == [];
    } else {
      assert (parts + [part])[1..] == parts[1..] + [part];
      FlattenAppend(parts[1..], part);
    }
  }

  lemma {:induction false} AllCutAppend(parts: seq<seq<Request>>, files: seq<File>, part: seq<Request>, file: File,
                                        chunkSize: nat)
    requires AllCut(parts, files, chunkSize) && Cuts(part, file, chunkSize)
    ensures AllCut(parts + [part], files + [file], chunkSize)
  {
    hide Cuts;
    if parts == [] {
      assert (parts + [part])[1..] == [] && (files + [file])[1..] == [];
    } else {
      assert (parts + [part])[1..] == parts[1..] + [part] && (files + [file])[1..] == files[1..] + [file];
      AllCutAppend(parts[1..], files[1..], part, file, chunkSize);
    }
  }

  datatype Answer = Accept | Reject | NoAnswer

  /**
   What the sender meets: how many Sends succeed, what the server answers to Meta, which files cannot be
   opened or downloaded, and whether the confirmation arrives.
   */
  datatype Fortune = Fortune(sends: nat, answer: Answer, unreadable: nat -> bool, confirmed: bool)

  class UploadClient {
    var sent: seq<Request>
    var sends: nat    // Sends that still succeed

    constructor (sends: nat)
      ensures sent == [] && this.sends == sends
    {
      sent := [];
      this.sends := sends;
    }

    method Send(r: Request) returns (ok: bool)
      modifies this
      ensures ok == (old(sends) > 0)
      ensures ok ==> sent == old(sent) + [r] && sends == old(sends) - 1
      ensures !ok ==> sent == old(sent) && sends == old(sends)
    {
      ok := sends > 0;
      if ok {
        sent := sent + [r];
        sends := sends - 1;
      }
    }

    /** The read loop over one file; a reader may return fewer bytes than asked for. */
    method SendFile(file: File, chunkSize: nat) returns (ok: bool, ghost part: seq<Request>)
      requires chunkSize > 0
      modifies this
      ensures sent == old(sent) + part && sends == old(sends) - |part|
      ensures if ok then Cuts(part, file, chunkSize)
              else sends == 0 && CutsSome(part, file, chunkSize) && Payload(part) != file.data
    {
      part := [];
      var rest := file.data;
      while |rest| > 0
        invariant sent == old(sent) + part && sends == old(sends) - |part| && Payload(part) + rest == file.data
        invariant ChunksOf(part, file.name, chunkSize)
      {
        var most := if |rest| < chunkSize then |rest| else chunkSize;
        var n :| 0 < n <= most;
        var c := Chunk(file.name, rest[..n]);
        ok := Send(c);
        if !ok { return; }
        PayloadAppend(part, c);
        assert rest == rest[..n] + rest[n..];
        part := part + [c];
        rest := rest[n..];
      }
      ok := true;
    }

    /**
     uploadDir over the files of a walk, uploadChunks over download results.  Whatever breaks, what was sent is
     Meta, the files before the break in full and a part of the next; Done follows all files or is not sent.
     */
    method Upload(key: string, files: seq<File>, chunkSize: nat, fortune: Fortune)
      returns (ok: bool, ghost parts: seq<seq<Request>>, ghost part: seq<Request>)
      requires chunkSize > 0 && sends == fortune.sends
      modifies this
      ensures |parts| <= |files| && AllCut(parts, files[..|parts|], chunkSize)
      ensures part != [] ==> |parts| < |files| && CutsSome(part, files[|parts|], chunkSize)
      ensures fortune.sends == 0 ==> !ok && sent == old(sent)
      ensures fortune.sends > 0 && !fortune.answer.Accept? ==>
                ok == fortune.answer.Reject? && sent == old(sent) + [Meta(key)]
      ensures fortune.sends > 0 && fortune.answer.Accept? ==>
                || (sent == old(sent) + ([Meta(key)] + Flatten(parts) + [Done]) && |parts| == |files|
                    && ok == fortune.confirmed)
                || (sent == old(sent) + ([Meta(key)] + Flatten(parts) + part) && !ok
                    && (sends == 0 || (|parts| < |files| && fortune.unreadable(|parts|))))
      ensures ok && fortune.answer.Accept? ==> forall i: nat :: i < |files| ==> !fortune.unreadable(i)
    {
      parts, part := [], [];
      ok := Send(Meta(key));
      if !ok || !fortune.answer.Accept? { return ok && fortune.answer.Reject?, parts, part; }
      ghost var head := sent;
      assert files[..0] == [];
      for i := 0 to |files|
        invariant part == [] && |parts| == i && AllCut(parts, files[..i], chunkSize) && sent == head + Flatten(parts)
        invariant forall j: nat :: j < i ==> !fortune.unreadable(j)
      {
        if fortune.unreadable(i) {
          assert head + Flatten(parts) == old(sent) + ([Meta(key)] + Flatten(parts) + []);
          return false, parts, [];
        }
        ok, part := SendFile(files[i], chunkSize);
        if !ok {
          assert head + Flatten(parts) + part == old(sent) + ([Meta(key)] + Flatten(parts) + part);
          return;
        }
        AllCutAppend(parts, files[..i], part, files[i], chunkSize);
        FlattenAppend(parts, part);
        assert files[..i + 1] == files[..i] + [files[i]];
        assert head + Flatten(parts) + part == head + (Flatten(parts) + part);
        parts := parts + [part];
        part := [];
      }
      assert files[..|files|] == files;
      ok := Send(Done);
      if ok {
        assert head + Flatten(parts) + [Done] == old(sent) + ([Meta(key)] + Flatten(parts) + [Done]);
        ok := fortune.confirmed;
      } else {
        assert head + Flatten(parts) == old(sent) + ([Meta(key)] + Flatten(parts) + []);
      }
    }
  }

  // ---- Server.Upload ----

  /** One StoreUnlock call: lock n is the n-th that StoreLock granted, None is nil. */
  datatype Unlock = Unlock(lock: Option<nat>, save: bool)

  /** A file below the directory of the storeKey that came with lock `dir`. */
  datatype Path = Path(dir: Option<nat>, name: string)

  /** A Store that runs: the content given to it and the number of chunks that content came in. */
  datatype Running = Running(key: string, dir: Option<nat>, data: seq<byte>, chunks: nat)

  /** The variables of one Upload call; lockCh and storeKey are one number. */
  datatype Session = Session(
    meta: Option<string>,
    open: Option<Running>,
    chunkName: string,
    lock: Option<nat>,
    locks: nat,                    // granted by StoreLock
    stores: nat,                   // Stores started
    files: map<Path, seq<byte>>,   // written by Stores that Upload waited for
    deletes: seq<string>,          // Repo.Delete calls
    unlocks: seq<Unlock>,
    replies: seq<Response>,
    result: Option<Outcome>)       // set when Upload returns or blocks for good

  const Begin := Session(None, None, "", None, 0, 0, map[], [], [], [], None)

  /**
   Outcomes of the repository: which StoreLocks grant, and which Stores fail, counted from 1.  A Store that fails
   returns after it took the given number of chunks from its channel, or when the channel is closed before that.
   */
  datatype Repo = Repo(grants: nat -> bool, fails: nat -> Option<nat>)

  /** close(chunkCh), then the error of the Store that ends with it. */
  function CloseChunk(repo: Repo, s: Session): Session {
    match s.open
    case None => s
    case Some(run) =>
      if repo.fails(s.stores).Some? then s.(open := None, deletes := s.deletes + [run.key], result := Some(StoreFailed))
      else s.(open := None, files := s.files[Path(run.dir, s.chunkName) := run.data])
  }

  /** chunkCh <- data: the channel holds one chunk that nobody takes once the Store has returned. */
  function SendChunk(repo: Repo, s: Session, run: Running, data: seq<byte>): Session {
    var failed := repo.fails(s.stores);
    if failed.Some? && run.chunks > failed.value then
      s.(deletes := s.deletes + [run.key], result := Some(Blocked))
    else
      s.(open := Some(run.(data := run.data + data, chunks := run.chunks + 1)))
  }

  function ProcessChunk(repo: Repo, s: Session, name: string, data: seq<byte>): Session
    requires s.meta.Some?
  {
    var s1 := if s.open.Some? && name != s.chunkName then CloseChunk(repo, s) else s;
    if s1.result.Some? then s1
    else
      match s1.open
      case None =>
        s1.(chunkName := name, stores := s1.stores + 1, open := Some(Running(s.meta.value, s.lock, data, 1)))
      case Some(run) => SendChunk(repo, s1, run, data)
  }

  function Receive(repo: Repo, s: Session, e: Event): Session {
    match e
    case RecvError => s.(result := Some(RecvFailed))
    case Message(Meta(key)) =>
      if repo.grants(s.locks) then
        s.(meta := Some(key), lock := Some(s.locks), locks := s.locks + 1, replies := s.replies + [Accepted])
      else
        s.(meta := Some(key), lock := None, replies := s.replies + [Empty], result := Some(Nil))
    case Message(Chunk(name, data)) =>
      if s.meta.None? then s.(result := Some(MissingMeta)) else ProcessChunk(repo, s, name, data)
    case Message(Done) =>
      var s1 := CloseChunk(repo, s);
      if s1.result.Some? then s1
      else if s1.meta.None? then s1.(result := Some(MissingMeta))
      else s1.(unlocks := s1.unlocks + [Unlock(s1.lock, true)], lock := None, replies := s1.replies + [Empty],
               result := Some(Nil))
  }

  function ReceiveAll(repo: Repo, s: Session, stream: seq<Event>): Session
    decreases |stream|
  {
    if s.result.Some? then s
    else if stream == [] then s.(result := Some(Nil))
    else ReceiveAll(repo, Receive(repo, s, stream[0]), stream[1..])
  }

  /** The deferred function, which never runs when Upload is blocked. */
  function Cleanup(repo: Repo, s: Session): Session {
    if s.result == Some(Blocked) then s
    else
      var s1 :=
        if s.open.Some? && repo.fails(s.stores).Some? then s.(open := None, deletes := s.deletes + [s.open.value.key])
        else s.(open := None);
      if s1.lock.Some? then s1.(unlocks := s1.unlocks + [Unlock(s1.lock, false)], lock := None) else s1
  }

  function UploadOf(repo: Repo, stream: seq<Event>): Session { Cleanup(repo, ReceiveAll(repo, Begin, stream)) }

  class Server {
    var meta: Option<string>
    var chunkCh: Option<Running>
    var chunkName: string
    var lockCh: Option<nat>
    var locks: nat
    var stores: nat
    var files: map<Path, seq<byte>>
    var deletes: seq<string>
    var unlocks: seq<Unlock>
    var replies: seq<Response>

    ghost function Now(result: Option<Outcome>): Session
      reads this
    {
      Session(meta, chunkCh, chunkName, lockCh, locks, stores, files, deletes, unlocks, replies, result)
    }

    constructor ()
      ensures Now(None) == Begin
    {
      meta, chunkCh, chunkName, lockCh, locks, stores := None, None, "", None, 0, 0;
      files, deletes, unlocks, replies := map[], [], [], [];
    }

    /** Repo.StoreLock with its answer; nil when it does not grant. */
    method StoreLock(repo: Repo)
      modifies this`lockCh, this`locks
      ensures if repo.grants(old(locks)) then lockCh == Some(old(locks)) && locks == old(locks) + 1
              else lockCh == None && locks == old(locks)
    {
      if repo.grants(locks) {
        lockCh := Some(locks);
        locks := locks + 1;
      } else {
        lockCh := None;
      }
    }

    method StoreUnlock(save: bool)
      modifies this`unlocks
      ensures unlocks == old(unlocks) + [Unlock(lockCh, save)]
    {
      unlocks := unlocks + [Unlock(lockCh, save)];
    }

    /** close(chunkCh); chunkCh = nil; err := <-errCh */
    method CloseChannel(repo: Repo) returns (failed: bool)
      requires chunkCh.Some?
      modifies this`chunkCh, this`files, this`deletes
      ensures Now(if failed then Some(StoreFailed) else None) == CloseChunk(repo, old(Now(None)))
    {
      failed := repo.fails(stores).Some?;
      if failed {
        deletes := deletes + [chunkCh.value.key];
      } else {
        files := files[Path(chunkCh.value.dir, chunkName) := chunkCh.value.data];
      }
      chunkCh := None;
    }

    /** processChunkUpload; `result` is None when the loop goes on. */
    method ProcessChunkUpload(repo: Repo, name: string, data: seq<byte>) returns (result: Option<Outcome>)
      requires meta.Some?
      modifies this
      ensures Now(result) == ProcessChunk(repo, old(Now(None)), name, data)
    {
      if chunkCh.Some? && name != chunkName {
        var failed := CloseChannel(repo);
        if failed { return Some(StoreFailed); }
      }
      if chunkCh.None? {
        chunkName := name;
        stores := stores + 1;
        chunkCh := Some(Running(meta.value, lockCh, [], 0));
      }
      var run := chunkCh.value;
      var failed := repo.fails(stores);
      if failed.Some? && run.chunks > failed.value {
        deletes := deletes + [run.key];
        return Some(Blocked);
      }
      assert [] + data == data;
      chunkCh := Some(run.(data := run.data + data, chunks := run.chunks + 1));
      return None;
    }

    /** One turn of the receive loop; None means that the loop goes on. */
    method Handle(repo: Repo, e: Event) returns (result: Option<Outcome>)
      modifies this
      ensures Now(result) == Receive(repo, old(Now(None)), e)
    {
      match e
      case RecvError =>
        return Some(RecvFailed);
      case Message(Meta(key)) =>
        meta := Some(key);
        StoreLock(repo);
        if lockCh.None? {
          replies := replies + [Empty];
          return Some(Nil);
        }
        replies := replies + [Accepted];
        return None;
      case Message(Chunk(name, data)) =>
        if meta.None? { return Some(MissingMeta); }
        result := ProcessChunkUpload(repo, name, data);
      case Message(Done) =>
        if chunkCh.Some? {
          var failed := CloseChannel(repo);
          if failed { return Some(StoreFailed); }
        }
        if meta.None? { return Some(MissingMeta); }
        StoreUnlock(true);
        lockCh := None;
        replies := replies + [Empty];
        return Some(Nil);
    }

    /** Server.Upload; it does not return when the outcome is Blocked. */
    method Upload(repo: Repo, stream: seq<Event>) returns (outcome: Outcome)
      requires Now(None) == Begin
      modifies this
      ensures Now(Some(outcome)) == UploadOf(repo, stream)
    {
      var result: Option<Outcome> := None;
      var i := 0;
      while i < |stream| && result.None?
        invariant i <= |stream|
        invariant ReceiveAll(repo, Now(result), stream[i..]) == ReceiveAll(repo, Begin, stream)
        decreases |stream| - i
      {
        assert stream[i..][1..] == stream[i + 1..];
        result := Handle(repo, stream[i]);
        i := i + 1;
      }
      outcome := if result.None? then Nil else result.value;
      if outcome == Blocked { return; }
      if chunkCh.Some? && repo.fails(stores).Some? {
        deletes := deletes + [chunkCh.value.key];
      }
      chunkCh := None;
      if lockCh.Some? {
        StoreUnlock(false);
        lockCh := None;
      }
    }
  }

  // ---- Locks ----

  /** The messages that Upload receives before it ends. */
  function Read(repo: Repo, s: Session, stream: seq<Event>): (r: seq<Event>)
    ensures r <= stream
    decreases |stream|
  {
    if s.result.Some? || stream == [] then []
    else
      var rest := Read(repo, Receive(repo, s, stream[0]), stream[1..]);
      assert stream == [stream[0]] + stream[1..];
      [stream[0]] + rest
  }

  predicate IsMeta(e: Event) { e.Message? && e.request.Meta? }

  function Metas(events: seq<Event>): nat {
    if events == [] then 0 else (if IsMeta(events[0]) then 1 else 0) + Metas(events[1..])
  }

  /** The receive loop goes on. */
  predicate Receiving(s: Session) {
    && s.result.None? && s.unlocks == [] && s.deletes == []
    && (s.meta.Some? <==> s.locks > 0) && (s.open.Some? ==> s.meta.Some?)
    && s.lock == if s.locks > 0 then Some(s.locks - 1) else None
  }

  /** What one message does to the lock. */
  ghost predicate LocksAfter(s: Session, r: Session, metas: nat, done: bool) {
    match r.result
    case None => Receiving(r) && r.locks == s.locks + metas && !done
    case Some(outcome) =>
      if outcome == Nil && done then
        r.locks == s.locks + metas && r.lock == None && r.locks > 0 && r.unlocks == [Unlock(Some(r.locks - 1), true)]
      else
        && r.unlocks == []
        && ((outcome == Nil && metas > 0 && r.locks + 1 == s.locks + metas && r.lock == None)
            || (outcome != Nil && r.locks == s.locks + metas
                && r.lock == (if r.locks > 0 then Some(r.locks - 1) else None)
                && (outcome == Blocked ==> r.locks > 0)))
  }

  lemma ReceiveLocks(repo: Repo, s: Session, e: Event)
    requires Receiving(s)
    ensures LocksAfter(s, Receive(repo, s, e), Metas([e]), e == Message(Done))
  {
    assert [e][1..] == [];
  }

  lemma {:induction false} LocksFrom(repo: Repo, s: Session, stream: seq<Event>)
    requires Receiving(s)
    ensures var r := ReceiveAll(repo, s, stream); var read := Read(repo, s, stream);
            || LocksAfter(s, r, Metas(read), Message(Done) in read)
            || (r.result == Some(Nil) && Message(Done) !in read
                && LocksAfter(s, r.(result := None), Metas(read), false))
    decreases |stream|
  {
    if stream != [] {
      var e := stream[0];
      var s1 := Receive(repo, s, e);
      ReceiveLocks(repo, s, e);
      assert [e][1..] == [];
      assert Read(repo, s, stream) == [e] + Read(repo, s1, stream[1..]);
      assert ([e] + Read(repo, s1, stream[1..]))[1..] == Read(repo, s1, stream[1..]);
      hide Receive;
      if s1.result.None? {
        LocksFrom(repo, s1, stream[1..]);
      } else {
        assert ReceiveAll(repo, s1, stream[1..]) == s1 && Read(repo, s1, stream[1..]) == [];
      }
    }
  }

  predicate Unlocked(s: Session, lock: nat) { exists i: nat :: i < |s.unlocks| && s.unlocks[i].lock == Some(lock) }

  /**
   Whatever arrives and wherever the stream breaks: Upload unlocks at most once, the last lock it was granted, and
   saves exactly when it succeeds on a stream that contained Done.  No granted lock is left locked if and only if at
   most one Meta was received.  A blocked Upload unlocks nothing.
   */
  lemma UnlockedOnce(repo: Repo, stream: seq<Event>)
    ensures var s := UploadOf(repo, stream); var read := Read(repo, Begin, stream);
            && (s.result == Some(Blocked) ==> s.locks > 0 && s.unlocks == [])
            && (s.result != Some(Blocked) ==>
                  && s.lock == None && |s.unlocks| <= 1
                  && (forall u :: u in s.unlocks ==>
                        s.locks > 0 && u == Unlock(Some(s.locks - 1), s.result == Some(Nil) && Message(Done) in read))
                  && ((forall n: nat :: n < s.locks ==> Unlocked(s, n)) <==> Metas(read) <= 1))
  {
    LocksFrom(repo, Begin, stream);
    Ended(repo, Begin, stream);
    hide ReceiveAll, Read, Metas;
    var read := Read(repo, Begin, stream);
    CleanupLocks(repo, ReceiveAll(repo, Begin, stream), Metas(read), Message(Done) in read);
  }

  lemma {:induction false} Ended(repo: Repo, s: Session, stream: seq<Event>)
    ensures ReceiveAll(repo, s, stream).result.Some?
    decreases |stream|
  {
    if s.result.None? && stream != [] { Ended(repo, Receive(repo, s, stream[0]), stream[1..]); }
  }

  lemma CleanupLocks(repo: Repo, r: Session, metas: nat, done: bool)
    requires r.result.Some?
    requires || LocksAfter(Begin, r, metas, done)
             || (r.result == Some(Nil) && !done && LocksAfter(Begin, r.(result := None), metas, false))
    ensures var s := Cleanup(repo, r); var save := s.result == Some(Nil) && done;
            && (s.result == Some(Blocked) ==> s.locks > 0 && s.unlocks == [])
            && (s.result != Some(Blocked) ==>
                  && s.lock == None && |s.unlocks| <= 1
                  && (forall u :: u in s.unlocks ==> s.locks > 0 && u == Unlock(Some(s.locks - 1), save))
                  && ((forall n: nat :: n < s.locks ==> Unlocked(s, n)) <==> metas <= 1))
  {
    hide Unlocked;
    var s := Cleanup(repo, r);
    if s.result != Some(Blocked) {
      LastLockOnly(s, metas, s.result == Some(Nil) && done);
    }
  }

  lemma LastLockOnly(s: Session, metas: nat, save: bool)
    requires s.unlocks == [] ==> s.locks + 1 == metas || metas == 0 == s.locks
    requires s.unlocks != [] ==> s.locks == metas > 0 && s.unlocks == [Unlock(Some(s.locks - 1), save)]
    ensures forall u :: u in s.unlocks ==> s.locks > 0 && u == Unlock(Some(s.locks - 1), save)
    ensures (forall n: nat :: n < s.locks ==> Unlocked(s, n)) <==> metas <= 1
  {
    if s.unlocks == [] {
      assert s.locks > 0 ==> !Unlocked(s, 0);
    } else {
      assert s.unlocks[0].lock == Some(s.locks - 1);
      assert Unlocked(s, s.locks - 1);
      assert s.locks > 1 ==> !Unlocked(s, 0);
    }
  }

  // ---- Round trip ----

  function Events(requests: seq<Request>): (events: seq<Event>)
    ensures |events| == |requests|
  {
    seq(|requests|, i requires 0 <= i < |requests| => Message(requests[i]))
  }

  /** Empty files send no chunk, so nothing is stored for them. */
  function Stored(dir: Option<nat>, files: seq<File>): map<Path, seq<byte>> {
    if files == [] then map[]
    else
      (if files[0].data == [] then map[] else map[Path(dir, files[0].name) := files[0].data]) + Stored(dir, files[1..])
  }

  predicate Uploading(s: Session) { s.meta.Some? && s.result.None? }

  /** The files so far, the one in the channel included. */
  function Contents(s: Session): map<Path, seq<byte>> {
    if s.open.None? then s.files else s.files[Path(s.open.value.dir, s.chunkName) := s.open.value.data]
  }

  lemma EventsSplit(a: seq<Request>, b: seq<Request>, tail: seq<Event>)
    ensures Events(a + b) + tail == Events(a) + (Events(b) + tail)
  {
  }

  lemma EventsStep(rs: seq<Request>, tail: seq<Event>)
    requires rs != []
    ensures var all := Events(rs) + tail; all[0] == Message(rs[0]) && all[1..] == Events(rs[1..]) + tail
  {
  }

  lemma EventsNone(tail: seq<Event>)
    ensures Events([]) + tail == tail
  {
  }

  lemma ReceiveFirst(repo: Repo, s: Session, rs: seq<Request>, tail: seq<Event>)
    requires rs != [] && s.result.None?
    ensures ReceiveAll(repo, s, Events(rs) + tail) ==
            ReceiveAll(repo, Receive(repo, s, Message(rs[0])), Events(rs[1..]) + tail)
  {
    EventsStep(rs, tail);
    hide Receive, Events;
  }

  /** The Store that runs takes n chunks in all, or leaves the last in the channel. */
  predicate Fits(repo: Repo, store: nat, n: nat) {
    repo.fails(store).Some? ==> n <= repo.fails(store).value + 1
  }

  /** More chunks of the file in the channel. */
  function More(s: Session, data: seq<byte>, n: nat): Session
    requires s.open.Some?
  {
    var run := s.open.value;
    s.(open := Some(run.(data := run.data + data, chunks := run.chunks + n)))
  }

  lemma OneMore(repo: Repo, s: Session, c: Request)
    requires Uploading(s) && s.open.Some? && c.Chunk? && c.name == s.chunkName
    ensures var r := Receive(repo, s, Message(c));
            if Fits(repo, s.stores, s.open.value.chunks + 1) then r == More(s, c.data, 1)
            else r == s.(deletes := s.deletes + [s.open.value.key], result := Some(Blocked))
  {
  }

  lemma {:induction false} MoreChunks(repo: Repo, s: Session, chunks: seq<Request>, chunkSize: nat, tail: seq<Event>)
    requires Uploading(s) && s.open.Some? && ChunksOf(chunks, s.chunkName, chunkSize)
    requires Fits(repo, s.stores, s.open.value.chunks + |chunks|)
    ensures ReceiveAll(repo, s, Events(chunks) + tail) == ReceiveAll(repo, More(s, Payload(chunks), |chunks|), tail)
    decreases |chunks|
  {
    hide ReceiveAll, Receive, Events;
    var run := s.open.value;
    if chunks == [] {
      EventsNone(tail);
      assert run.data + [] == run.data;
    } else {
      assert chunks[0] in chunks;
      ReceiveFirst(repo, s, chunks, tail);
      OneMore(repo, s, chunks[0]);
      var s1 := More(s, chunks[0].data, 1);
      MoreChunks(repo, s1, chunks[1..], chunkSize, tail);
      assert run.data + chunks[0].data + Payload(chunks[1..]) == run.data + (chunks[0].data + Payload(chunks[1..]));
    }
  }

  lemma ReceiveAllDone(repo: Repo, s: Session, stream: seq<Event>)
    requires s.result.Some?
    ensures ReceiveAll(repo, s, stream) == s
  {
  }

  /** The Store of the file in the channel has failed and its channel is full. */
  lemma {:induction false} TooManyChunks(repo: Repo, s: Session, chunks: seq<Request>, chunkSize: nat, tail: seq<Event>)
    returns (run: Running)
    requires Uploading(s) && s.open.Some? && ChunksOf(chunks, s.chunkName, chunkSize)
    requires Fits(repo, s.stores, s.open.value.chunks)
    requires !Fits(repo, s.stores, s.open.value.chunks + |chunks|)
    ensures ReceiveAll(repo, s, Events(chunks) + tail) ==
            s.(open := Some(run), deletes := s.deletes + [s.open.value.key], result := Some(Blocked))
    decreases |chunks|
  {
    hide ReceiveAll, Receive, Events;
    assert chunks[0] in chunks;
    ReceiveFirst(repo, s, chunks, tail);
    OneMore(repo, s, chunks[0]);
    if Fits(repo, s.stores, s.open.value.chunks + 1) {
      run := TooManyChunks(repo, More(s, chunks[0].data, 1), chunks[1..], chunkSize, tail);
    } else {
      run := s.open.value;
      ReceiveAllDone(repo, Receive(repo, s, Message(chunks[0])), Events(chunks[1..]) + tail);
    }
  }

  /** The running Store was closed and one for this file started. */
  function Opened(s: Session, name: string, data: seq<byte>, chunks: nat): Session
    requires s.meta.Some?
  {
    s.(files := Contents(s), open := Some(Running(s.meta.value, s.lock, data, chunks)), chunkName := name,
       stores := s.stores + 1)
  }

  /** No Store that Upload will still wait for has failed. */
  predicate Sound(repo: Repo, s: Session) { s.open.Some? ==> repo.fails(s.stores).None? }

  lemma FirstChunk(repo: Repo, s: Session, c: Request)
    requires Uploading(s) && Sound(repo, s) && c.Chunk? && (s.open.Some? ==> s.chunkName != c.name)
    ensures Receive(repo, s, Message(c)) == Opened(s, c.name, c.data, 1)
  {
  }

  lemma OneFile(repo: Repo, s: Session, part: seq<Request>, file: File, chunkSize: nat, tail: seq<Event>)
    requires Uploading(s) && Sound(repo, s) && part != [] && Cuts(part, file, chunkSize)
    requires s.open.Some? ==> s.chunkName != file.name
    requires Fits(repo, s.stores + 1, |part|)
    ensures ReceiveAll(repo, s, Events(part) + tail) ==
            ReceiveAll(repo, Opened(s, file.name, file.data, |part|), tail)
  {
    hide ReceiveAll, Receive, Events, Contents, Sound;
    assert part[0] in part;
    ReceiveFirst(repo, s, part, tail);
    FirstChunk(repo, s, part[0]);
    MoreChunks(repo, Opened(s, file.name, part[0].data, 1), part[1..], chunkSize, tail);
  }

  lemma FileTooLong(repo: Repo, s: Session, part: seq<Request>, file: File, chunkSize: nat, tail: seq<Event>)
    requires Uploading(s) && Sound(repo, s) && part != [] && Cuts(part, file, chunkSize)
    requires s.open.Some? ==> s.chunkName != file.name
    requires !Fits(repo, s.stores + 1, |part|)
    ensures var r := ReceiveAll(repo, s, Events(part) + tail);
            && r.result == Some(Blocked) && r.meta == s.meta && r.replies == s.replies
            && r.unlocks == s.unlocks && r.lock == s.lock
            && r.deletes == s.deletes + [s.meta.value]
  {
    hide ReceiveAll, Receive, Events, Contents, Sound;
    assert part[0] in part;
    ReceiveFirst(repo, s, part, tail);
    FirstChunk(repo, s, part[0]);
    var _ := TooManyChunks(repo, Opened(s, file.name, part[0].data, 1), part[1..], chunkSize, tail);
  }

  /** The error of a Store is found when its channel is closed. */
  lemma ClosingFails(repo: Repo, s: Session, stream: seq<Event>)
    requires Uploading(s) && s.open.Some? && repo.fails(s.stores).Some?
    requires stream != [] && stream[0].Message? && !stream[0].request.Meta?
    requires stream[0].request.Chunk? ==> stream[0].request.name != s.chunkName
    ensures ReceiveAll(repo, s, stream) ==
            s.(open := None, deletes := s.deletes + [s.open.value.key], result := Some(StoreFailed))
  {
    ReceiveAllDone(repo, Receive(repo, s, stream[0]), stream[1..]);
  }

  lemma PayloadEmpty(part: seq<Request>, file: File, chunkSize: nat)
    requires Cuts(part, file, chunkSize)
    ensures part == [] <==> file.data == []
  {
    if part != [] { assert part[0] in part; }
  }

  lemma FlattenStep(parts: seq<seq<Request>>)
    requires parts != []
    ensures Flatten(parts) == parts[0] + Flatten(parts[1..])
  {
  }

  lemma MergeOne(m: map<Path, seq<byte>>, path: Path, data: seq<byte>, more: map<Path, seq<byte>>)
    ensures m[path := data] + more == m + (map[path := data] + more)
  {
  }

  lemma NamesRest(files: seq<File>, name: string)
    requires files != []
    ensures Names(files, name) <==> files[0].name == name || Names(files[1..], name)
  {
    if Names(files[1..], name) {
      var i: nat :| i < |files[1..]| && files[1..][i].name == name;
      assert files[i + 1].name == name;
    }
    if Names(files, name) && files[0].name != name {
      var i: nat :| i < |files| && files[i].name == name;
      assert files[1..][i - 1].name == name;
    }
  }

  /** Every chunk is named after one of the files. */
  lemma {:induction false} FlattenChunks(parts: seq<seq<Request>>, files: seq<File>, chunkSize: nat, i: nat)
    requires AllCut(parts, files, chunkSize) && i < |Flatten(parts)|
    ensures Flatten(parts)[i].Chunk? && Names(files, Flatten(parts)[i].name)
    decreases |parts|
  {
    if i < |parts[0]| {
      assert parts[0][i] in parts[0];
      assert files[0].name == Flatten(parts)[i].name;
    } else {
      FlattenChunks(parts[1..], files[1..], chunkSize, i - |parts[0]|);
      NamesRest(files, Flatten(parts)[i].name);
    }
  }

  /** How the upload of these parts ends when `stores` Stores were started before. */
  function Fate(repo: Repo, parts: seq<seq<Request>>, stores: nat): Outcome {
    if parts == [] then Nil
    else if parts[0] == [] then Fate(repo, parts[1..], stores)
    else if !Fits(repo, stores + 1, |parts[0]|) then Blocked
    else if repo.fails(stores + 1).Some? then StoreFailed
    else Fate(repo, parts[1..], stores + 1)
  }

  /** What Upload leaves when it ends that way. */
  predicate Ends(s: Session, r: Session, outcome: Outcome, files: map<Path, seq<byte>>) {
    && s.meta.Some? && r.meta == s.meta && r.result == Some(outcome)
    && r.replies == (if outcome == Nil then s.replies + [Empty] else s.replies)
    && (outcome == Nil ==>
          && r.unlocks == s.unlocks + [Unlock(s.lock, true)] && r.lock == None
          && r.deletes == s.deletes && r.open.None? && r.files == files)
    && (outcome != Nil ==> r.unlocks == s.unlocks && r.lock == s.lock && r.deletes == s.deletes + [s.meta.value])
    && (outcome == StoreFailed ==> r.open.None?)
  }

  lemma LastMessage(repo: Repo, s: Session)
    requires Uploading(s) && Sound(repo, s)
    ensures Ends(s, ReceiveAll(repo, s, [Message(Done)]), Nil, Contents(s))
  {
    assert [Message(Done)][1..] == [];
  }

  lemma {:induction false} FailsAtClose(repo: Repo, s: Session, part: seq<Request>, file: File,
                                        parts: seq<seq<Request>>, files: seq<File>, chunkSize: nat)
    requires Uploading(s) && Sound(repo, s) && part != [] && Cuts(part, file, chunkSize)
    requires AllCut(parts, files, chunkSize) && !Names(files, file.name)
    requires s.open.Some? ==> s.chunkName != file.name
    requires Fits(repo, s.stores + 1, |part|) && repo.fails(s.stores + 1).Some?
    ensures var rest := Events(Flatten(parts)) + [Message(Done)];
            Ends(s, ReceiveAll(repo, s, Events(part) + rest), StoreFailed, map[])
  {
    var rest := Events(Flatten(parts)) + [Message(Done)];
    if Flatten(parts) != [] { FlattenChunks(parts, files, chunkSize, 0); }
    assert rest[0] == if Flatten(parts) == [] then Message(Done) else Message(Flatten(parts)[0]);
    hide ReceiveAll, Names, Events, Flatten, Contents, AllCut, Cuts;
    OneFile(repo, s, part, file, chunkSize, rest);
    ClosingFails(repo, Opened(s, file.name, file.data, |part|), rest);
  }

  lemma EndsAfter(s: Session, file: File, n: nat, r: Session, outcome: Outcome, more: map<Path, seq<byte>>)
    requires s.meta.Some? && file.data != []
    requires var s1 := Opened(s, file.name, file.data, n); Ends(s1, r, outcome, Contents(s1) + more)
    ensures Ends(s, r, outcome, Contents(s) + (map[Path(s.lock, file.name) := file.data] + more))
  {
    MergeOne(Contents(s), Path(s.lock, file.name), file.data, more);
  }

  lemma {:induction false} AllFiles(repo: Repo, s: Session, parts: seq<seq<Request>>, files: seq<File>, chunkSize: nat)
    requires Uploading(s) && Sound(repo, s) && AllCut(parts, files, chunkSize) && Distinct(files)
    requires s.open.Some? ==> !Names(files, s.chunkName)
    ensures Ends(s, ReceiveAll(repo, s, Events(Flatten(parts)) + [Message(Done)]), Fate(repo, parts, s.stores),
                 Contents(s) + Stored(s.lock, files))
    decreases |parts|
  {
    hide ReceiveAll, Cuts, Names, Events, Flatten, Ends, Contents;
    if parts == [] {
      FlattenNone();
      EventsNone([Message(Done)]);
      LastMessage(repo, s);
      assert Contents(s) + map[] == Contents(s);
    } else {
      var part, file := parts[0], files[0];
      if s.open.Some? { NamesRest(files, s.chunkName); }
      PayloadEmpty(part, file, chunkSize);
      var rest := Events(Flatten(parts[1..])) + [Message(Done)];
      EventsSplit(part, Flatten(parts[1..]), [Message(Done)]);
      FlattenStep(parts);
      if part == [] {
        EventsNone(rest);
        AllFiles(repo, s, parts[1..], files[1..], chunkSize);
        assert map[] + Stored(s.lock, files[1..]) == Stored(s.lock, files[1..]);
      } else if !Fits(repo, s.stores + 1, |part|) {
        FileTooLong(repo, s, part, file, chunkSize, rest);
        EndsBlocked(s, ReceiveAll(repo, s, Events(part) + rest), Contents(s) + Stored(s.lock, files));
      } else if repo.fails(s.stores + 1).Some? {
        FailsAtClose(repo, s, part, file, parts[1..], files[1..], chunkSize);
        EndsAnyFiles(s, ReceiveAll(repo, s, Events(part) + rest), Contents(s) + Stored(s.lock, files));
      } else {
        OneFile(repo, s, part, file, chunkSize, rest);
        var s1 := Opened(s, file.name, file.data, |part|);
        AllFiles(repo, s1, parts[1..], files[1..], chunkSize);
        EndsAfter(s, file, |part|, ReceiveAll(repo, s1, rest), Fate(repo, parts, s.stores), Stored(s.lock, files[1..]));
      }
    }
  }

  lemma FlattenNone()
    ensures Flatten([]) == []
  {
  }

  lemma EndsBlocked(s: Session, r: Session, files: map<Path, seq<byte>>)
    requires s.meta.Some? && r.meta == s.meta && r.replies == s.replies && r.result == Some(Blocked)
    requires r.unlocks == s.unlocks && r.lock == s.lock
    requires r.deletes == s.deletes + [s.meta.value]
    ensures Ends(s, r, Blocked, files)
  {
  }

  lemma EndsAnyFiles(s: Session, r: Session, files: map<Path, seq<byte>>)
    requires Ends(s, r, StoreFailed, map[])
    ensures Ends(s, r, StoreFailed, files)
  {
  }

  /** The parts for which a Store is started. */
  function NonEmpty(parts: seq<seq<Request>>): seq<seq<Request>> {
    if parts == [] then [] else (if parts[0] == [] then [] else [parts[0]]) + NonEmpty(parts[1..])
  }

  /** How the i-th Store after the first `stores` fails. */
  function Failure(repo: Repo, stores: nat, i: nat): Option<nat> { repo.fails(stores + 1 + i) }

  /** That Store is the first of them to fail. */
  ghost predicate FailsFirst(repo: Repo, stores: nat, i: nat) {
    Failure(repo, stores, i).Some? && forall j: nat :: j < i ==> Failure(repo, stores, j).None?
  }

  ghost predicate AllSucceed(repo: Repo, stores: nat, n: nat) {
    forall i: nat :: i < n ==> Failure(repo, stores, i).None?
  }

  predicate GivesUpAt(repo: Repo, sent: seq<seq<Request>>, stores: nat, i: nat)
    requires i < |sent|
  {
    Failure(repo, stores, i).Some? && Failure(repo, stores, i).value + 2 <= |sent[i]|
  }

  /** The first Store to fail gives up two or more chunks before the end of its file. */
  ghost predicate GivesUpEarly(repo: Repo, sent: seq<seq<Request>>, stores: nat) {
    exists i: nat :: i < |sent| && FailsFirst(repo, stores, i) && GivesUpAt(repo, sent, stores, i)
  }

  lemma AllSucceedNext(repo: Repo, stores: nat, n: nat)
    requires n > 0 && repo.fails(stores + 1).None?
    ensures AllSucceed(repo, stores, n) <==> AllSucceed(repo, stores + 1, n - 1)
  {
    var next := stores + 1;
    if AllSucceed(repo, stores, n) {
      forall i: nat | i < n - 1 ensures Failure(repo, next, i).None? {
        assert Failure(repo, stores, i + 1).None?;
      }
    }
    if AllSucceed(repo, stores + 1, n - 1) {
      forall i: nat | i < n ensures Failure(repo, stores, i).None? {
        if i > 0 { assert Failure(repo, stores + 1, i - 1).None?; }
      }
    }
  }

  lemma FailsNext(repo: Repo, stores: nat, i: nat)
    requires repo.fails(stores + 1).None?
    ensures FailsFirst(repo, stores, i) <==> i > 0 && FailsFirst(repo, stores + 1, i - 1)
  {
    if i > 0 {
      assert Failure(repo, stores, i) == Failure(repo, stores + 1, i - 1);
      AllSucceedNext(repo, stores, i);
    }
  }

  lemma GivesUpNext(repo: Repo, sent: seq<seq<Request>>, stores: nat)
    requires sent != [] && repo.fails(stores + 1).None?
    ensures GivesUpEarly(repo, sent, stores) <==> GivesUpEarly(repo, sent[1..], stores + 1)
  {
    hide FailsFirst, Failure;
    if GivesUpEarly(repo, sent, stores) {
      var i: nat :| i < |sent| && FailsFirst(repo, stores, i) && GivesUpAt(repo, sent, stores, i);
      FailsNext(repo, stores, i);
      GivesUpThere(repo, sent, stores, i - 1);
      assert i - 1 < |sent[1..]|;
    }
    if GivesUpEarly(repo, sent[1..], stores + 1) {
      var i: nat :| i < |sent[1..]| && FailsFirst(repo, stores + 1, i) && GivesUpAt(repo, sent[1..], stores + 1, i);
      FailsNext(repo, stores, i + 1);
      GivesUpThere(repo, sent, stores, i);
      assert i + 1 < |sent|;
    }
  }

  lemma GivesUpThere(repo: Repo, sent: seq<seq<Request>>, stores: nat, i: nat)
    requires i + 1 < |sent|
    ensures GivesUpAt(repo, sent, stores, i + 1) <==> GivesUpAt(repo, sent[1..], stores + 1, i)
  {
    assert sent[1..][i] == sent[i + 1];
  }

  lemma AtFailure(repo: Repo, sent: seq<seq<Request>>, stores: nat)
    requires sent != [] && repo.fails(stores + 1).Some?
    ensures !AllSucceed(repo, stores, |sent|)
    ensures GivesUpEarly(repo, sent, stores) <==> !Fits(repo, stores + 1, |sent[0]|)
  {
    assert Failure(repo, stores, 0).Some?;
    assert FailsFirst(repo, stores, 0);
  }

  lemma {:induction false} FateExactly(repo: Repo, parts: seq<seq<Request>>, stores: nat)
    ensures var fate := Fate(repo, parts, stores); var sent := NonEmpty(parts);
            && (fate == Nil <==> AllSucceed(repo, stores, |sent|))
            && (fate == Blocked <==> GivesUpEarly(repo, sent, stores))
            && (fate == Nil || fate == Blocked || fate == StoreFailed)
  {
    hide AllSucceed, GivesUpEarly;
    if parts == [] {
      NothingSent(repo, stores);
    } else if parts[0] == [] {
      assert [] + NonEmpty(parts[1..]) == NonEmpty(parts[1..]);
      FateExactly(repo, parts[1..], stores);
    } else if repo.fails(stores + 1).Some? {
      AtFailure(repo, NonEmpty(parts), stores);
    } else {
      AllSucceedNext(repo, stores, |NonEmpty(parts)|);
      GivesUpNext(repo, NonEmpty(parts), stores);
      assert NonEmpty(parts)[1..] == NonEmpty(parts[1..]);
      FateExactly(repo, parts[1..], stores + 1);
    }
  }

  lemma NothingSent(repo: Repo, stores: nat)
    ensures AllSucceed(repo, stores, 0) && !GivesUpEarly(repo, [], stores)
  {
  }

  /** The state after a Meta that is granted a lock. */
  lemma AfterMeta(repo: Repo, key: string, requests: seq<Request>, broken: seq<Event>) returns (s: Session)
    requires repo.grants(0)
    ensures s == Begin.(meta := Some(key), lock := Some(0), locks := 1, replies := [Accepted])
    ensures var stream := Events([Meta(key)] + requests) + broken; var rest := Events(requests) + broken;
            ReceiveAll(repo, Begin, stream) == ReceiveAll(repo, s, rest)
  {
    s := Receive(repo, Begin, Message(Meta(key)));
    ReceiveFirst(repo, Begin, [Meta(key)] + requests, broken);
    assert ([Meta(key)] + requests)[1..] == requests;
  }

  lemma UploadStream(key: string, chunks: seq<Request>)
    ensures Events([Meta(key)] + (chunks + [Done])) + [] == Events([Meta(key)] + chunks + [Done])
    ensures Events(chunks + [Done]) + [] == Events(chunks) + [Message(Done)]
  {
    assert [Meta(key)] + (chunks + [Done]) == [Meta(key)] + chunks + [Done];
  }

  /**
   For any files with distinct names, cut into chunks in any way, and whatever the Stores do: Upload publishes if and
   only if every Store succeeds, and then the directory holds exactly the files that are not empty.  It never returns,
   and never unlocks, if and only if the first Store to fail leaves two or more chunks of its file untaken.
   Otherwise the upload is discarded.
   */
  lemma {:induction false} UploadRoundTrip(repo: Repo, key: string, files: seq<File>, parts: seq<seq<Request>>,
                                           chunkSize: nat)
    requires repo.grants(0) && Distinct(files) && AllCut(parts, files, chunkSize)
    ensures var s := UploadOf(repo, Events([Meta(key)] + Flatten(parts) + [Done])); var sent := NonEmpty(parts);
            && s.meta == Some(key)
            && (s.result == Some(Nil) <==> AllSucceed(repo, 0, |sent|))
            && (s.result == Some(Blocked) <==> GivesUpEarly(repo, sent, 0))
            && s.replies == (if s.result == Some(Nil) then [Accepted, Empty] else [Accepted])
            && (if s.result == Some(Nil) then
                  s.unlocks == [Unlock(Some(0), true)] && s.files == Stored(Some(0), files) && s.deletes == []
                else if s.result == Some(Blocked) then
                  s.unlocks == [] && s.lock == Some(0) && s.deletes == [key]
                else
                  s.unlocks == [Unlock(Some(0), false)] && s.result == Some(StoreFailed) && s.deletes == [key])
  {
    var s1 := AfterMeta(repo, key, Flatten(parts) + [Done], []);
    UploadStream(key, Flatten(parts));
    hide Receive, ReceiveAll, Read, Events, Flatten, Fate, AllSucceed, GivesUpEarly;
    AllFiles(repo, s1, parts, files, chunkSize);
    FateExactly(repo, parts, 0);
    assert map[] + Stored(Some(0), files) == Stored(Some(0), files);
  }

  function AllAccepted(n: nat): seq<Response> { seq(n, i => Accepted) }

  /** What one message adds to the replies. */
  lemma ReceiveReplies(repo: Repo, s: Session, e: Event)
    requires Receiving(s)
    ensures var r := Receive(repo, s, e); var refused := IsMeta(e) && !repo.grants(s.locks);
            && r.replies == s.replies + AllAccepted(r.locks - s.locks)
                 + (if refused || (e == Message(Done) && r.result == Some(Nil)) then [Empty] else [])
            && (refused ==> r.result == Some(Nil) && r.lock == None)
            && (r.result == Some(Nil) ==> refused || e == Message(Done))
            && (e == Message(Done) ==> r.result.Some?) && (r.result.None? ==> Receiving(r))
            && s.locks <= r.locks <= s.locks + Metas([e]) && (Metas([e]) > r.locks - s.locks <==> refused)
  {
    assert [e][1..] == [];
    assert AllAccepted(0) == [] && AllAccepted(1) == [Accepted];
  }

  lemma RepliesJoin(before: seq<Response>, m: nat, n: nat, tail: seq<Response>)
    ensures (before + AllAccepted(m) + []) + AllAccepted(n) + tail == before + AllAccepted(m + n) + tail
  {
    assert AllAccepted(m) + AllAccepted(n) == AllAccepted(m + n);
  }

  lemma ReadFirst(repo: Repo, s: Session, stream: seq<Event>)
    requires s.result.None? && stream != []
    ensures var s1 := Receive(repo, s, stream[0]); var rest := Read(repo, s1, stream[1..]);
            && ReceiveAll(repo, s, stream) == ReceiveAll(repo, s1, stream[1..])
            && Metas(Read(repo, s, stream)) == Metas([stream[0]]) + Metas(rest)
            && (Message(Done) in Read(repo, s, stream) <==> stream[0] == Message(Done) || Message(Done) in rest)
            && (s1.result.Some? ==> ReceiveAll(repo, s1, stream[1..]) == s1 && rest == [])
  {
    hide Receive;
    var e := stream[0];
    var rest := Read(repo, Receive(repo, s, e), stream[1..]);
    assert Read(repo, s, stream) == [e] + rest;
    assert ([e] + rest)[1..] == rest && [e][1..] == [];
  }

  lemma {:induction false} RepliesFrom(repo: Repo, s: Session, stream: seq<Event>)
    requires Receiving(s)
    ensures var r := ReceiveAll(repo, s, stream); var read := Read(repo, s, stream);
            && r.locks >= s.locks && Metas(read) >= r.locks - s.locks
            && r.replies == s.replies + AllAccepted(r.locks - s.locks)
                 + (if r.result == Some(Nil) && (Metas(read) > r.locks - s.locks || Message(Done) in read)
                    then [Empty] else [])
    decreases |stream|
  {
    if stream == [] {
      assert s.replies + AllAccepted(0) + [] == s.replies;
    } else {
      var s1 := Receive(repo, s, stream[0]);
      ReceiveReplies(repo, s, stream[0]);
      ReadFirst(repo, s, stream);
      hide Receive, Receiving, ReceiveAll, Read, Metas, AllAccepted;
      if s1.result.None? {
        RepliesFrom(repo, s1, stream[1..]);
        var r := ReceiveAll(repo, s1, stream[1..]);
        RepliesJoin(s.replies, s1.locks - s.locks, r.locks - s1.locks, []);
        RepliesJoin(s.replies, s1.locks - s.locks, r.locks - s1.locks, [Empty]);
      }
    }
  }

  /**
   What the sender is told, for any stream: accepted for every lock that is granted, and an empty answer at the end if
   a lock is refused or the upload was saved; nothing else.
   */
  lemma RepliesExactly(repo: Repo, stream: seq<Event>)
    ensures var s := UploadOf(repo, stream); var read := Read(repo, Begin, stream);
            s.replies == AllAccepted(s.locks)
              + if s.result == Some(Nil) && (Metas(read) > s.locks || Message(Done) in read) then [Empty] else []
  {
    RepliesFrom(repo, Begin, stream);
    hide ReceiveAll, Read, Metas;
    var r := ReceiveAll(repo, Begin, stream);
    assert [] + AllAccepted(r.locks) == AllAccepted(r.locks);
  }

  /** An upload whose lock is refused is told so at once, stores nothing and unlocks nothing. */
  lemma RefusedUpload(repo: Repo, key: string, more: seq<Event>)
    requires !repo.grants(0)
    ensures UploadOf(repo, [Message(Meta(key))] + more) ==
            Begin.(meta := Some(key), replies := [Empty], result := Some(Nil))
  {
    assert ([Message(Meta(key))] + more)[1..] == more;
    var s1 := Receive(repo, Begin, Message(Meta(key)));
    assert ReceiveAll(repo, s1, more) == s1;
  }

  /** Nothing is lost exactly when no file is empty. */
  lemma {:induction false} StoredExactly(dir: Option<nat>, files: seq<File>, file: File)
    requires Distinct(files) && file in files
    ensures Path(dir, file.name) in Stored(dir, files) <==> file.data != []
    ensures file.data != [] ==> Stored(dir, files)[Path(dir, file.name)] == file.data
  {
    if file == files[0] {
      StoredNames(dir, files[1..], file.name);
    } else {
      assert file in files[1..];
      var i: nat :| i < |files[1..]| && files[1..][i] == file;
      assert files[1..][i].name == file.name;
      StoredExactly(dir, files[1..], file);
    }
  }

  lemma {:induction false} StoredNames(dir: Option<nat>, files: seq<File>, name: string)
    ensures Path(dir, name) in Stored(dir, files) ==> Names(files, name)
  {
    if files != [] {
      StoredNames(dir, files[1..], name);
      NamesRest(files, name);
    }
  }

  lemma {:induction false} NoMetas(events: seq<Event>)
    requires forall e :: e in events ==> !IsMeta(e)
    ensures Metas(events) == 0
  {
    if events != [] { NoMetas(events[1..]); }
  }

  /**
   A broken upload, one whose stream ends before Done, is discarded unless it blocks; so UploadClient.Upload never
   publishes a directory when it fails before Done.
   */
  lemma BrokenUploadDiscarded(repo: Repo, key: string, chunks: seq<Request>, broken: seq<Event>)
    requires repo.grants(0) && (forall c :: c in chunks ==> c.Chunk?) && (broken == [] || broken == [RecvError])
    ensures var s := UploadOf(repo, Events([Meta(key)] + chunks) + broken);
            s.unlocks == (if s.result == Some(Blocked) then [] else [Unlock(Some(0), false)])
  {
    var s1 := AfterMeta(repo, key, chunks, broken);
    var rest := Events(chunks) + broken;
    var read := Read(repo, s1, rest);
    forall e | e in read ensures !IsMeta(e) && e != Message(Done) {
      var i: nat :| i < |read| && read[i] == e;
      assert e == rest[i];
      if i < |chunks| { assert chunks[i] in chunks; }
    }
    NoMetas(read);
    LocksFrom(repo, s1, rest);
  }
}
