/**
 How an upload goes wrong: which outcome Upload has for which stream, and what it deletes when a Store fails.
 */
module RepoUploadErrors {
  import opened Bytes
  import opened Wrappers
  import opened RepoUpload

  /** The Stores started so far, without the one that runs. */
  function Closed(s: Session): int { if s.open.Some? then s.stores - 1 else s.stores }

  ghost predicate Succeeded(repo: Repo, n: int) { forall i: nat :: 1 <= i <= n ==> repo.fails(i).None? }

  /** No Store was found to have failed, and the one that runs has a key that was received. */
  ghost predicate Steady(repo: Repo, s: Session, got: seq<Event>) {
    && s.deletes == [] && Succeeded(repo, Closed(s))
    && (s.open.Some? ==> s.stores > 0 && Message(Meta(s.open.value.key)) in got)
  }

  /** The loop goes on. */
  ghost predicate Going(repo: Repo, s: Session, got: seq<Event>) {
    && s.result.None? && Steady(repo, s, got)
    && (s.meta.None? <==> got == []) && (s.meta.Some? ==> Message(Meta(s.meta.value)) in got)
  }

  /** Upload has ended, its deferred function not yet run. */
  ghost predicate Ended(repo: Repo, s: Session, got: seq<Event>)
    requires s.result.Some?
  {
    match s.result.value
    case StoreFailed => FoundFailed(repo, s, got) && s.open.None?
    case Blocked => FoundFailed(repo, s, got)
    case _ => Steady(repo, s, got)
  }

  ghost predicate FoundFailed(repo: Repo, s: Session, got: seq<Event>) {
    && s.stores > 0 && repo.fails(s.stores).Some? && Succeeded(repo, s.stores - 1)
    && |s.deletes| == 1 && Message(Meta(s.deletes[0])) in got
  }

  lemma CloseGoes(repo: Repo, s: Session, got: seq<Event>)
    requires Going(repo, s, got) && got != []
    ensures var r := CloseChunk(repo, s);
            && (r.result.None? ==> Going(repo, r, got) && r.open.None?)
            && (r.result.Some? ==> r.result == Some(StoreFailed) && FoundFailed(repo, r, got) && r.open.None?)
  {
    if s.open.Some? && repo.fails(s.stores).None? {
      forall i: nat | 1 <= i <= s.stores ensures repo.fails(i).None? {
        assert i < s.stores ==> i <= Closed(s);
      }
    }
  }

  lemma ChunkGoes(repo: Repo, s: Session, got: seq<Event>, name: string, data: seq<byte>)
    requires Going(repo, s, got) && got != []
    ensures var r := ProcessChunk(repo, s, name, data);
            && (r.result.None? ==> Going(repo, r, got))
            && (r.result.Some? ==>
                  && FoundFailed(repo, r, got)
                  && (r.result == Some(Blocked) || (r.result == Some(StoreFailed) && r.open.None?)))
  {
    CloseGoes(repo, s, got);
    hide CloseChunk, Succeeded;
  }

  predicate IsMissing(s: Session, e: Event) { s.meta.None? && e.Message? && !e.request.Meta? }

  lemma ReceiveGoes(repo: Repo, s: Session, got: seq<Event>, e: Event)
    requires Going(repo, s, got)
    ensures var r := Receive(repo, s, e);
            && (if r.result.None? then Going(repo, r, got + [e]) else Ended(repo, r, got + [e]))
            && (r.result == Some(MissingMeta) <==> got == [] && IsMissing(s, e))
            && (r.result == Some(RecvFailed) <==> e == RecvError)
            && (r.result.None? ==> e.Message?)
  {
    hide CloseChunk, ProcessChunk, Succeeded;
    if got != [] {
      match e
      case Message(Chunk(name, data)) => ChunkGoes(repo, s, got, name, data);
      case Message(Done) => CloseGoes(repo, s, got);
      case _ =>
    } else {
      NothingOpen(repo, s);
    }
    assert e in got + [e] && forall x :: x in got ==> x in got + [e];
  }

  lemma NothingOpen(repo: Repo, s: Session)
    requires Going(repo, s, [])
    ensures s.open.None? && CloseChunk(repo, s) == s
  {
  }

  lemma {:induction false} AllGo(repo: Repo, s: Session, got: seq<Event>, stream: seq<Event>)
    requires Going(repo, s, got)
    ensures var r := ReceiveAll(repo, s, stream); var read := Read(repo, s, stream);
            && r.result.Some? && Ended(repo, r, got + read)
            && (r.result == Some(MissingMeta) <==> got == [] && stream != [] && IsMissing(s, stream[0]))
            && (r.result == Some(RecvFailed) <==> read != [] && read[|read| - 1] == RecvError)
    decreases |stream|
  {
    if stream == [] {
      assert got + [] == got;
    } else {
      var s1 := Receive(repo, s, stream[0]);
      ReceiveGoes(repo, s, got, stream[0]);
      var rest := Read(repo, s1, stream[1..]);
      assert Read(repo, s, stream) == [stream[0]] + rest;
      assert got + ([stream[0]] + rest) == got + [stream[0]] + rest;
      hide Receive, Steady, Ended;
      if s1.result.None? {
        AllGo(repo, s1, got + [stream[0]], stream[1..]);
      } else {
        assert rest == [] && got + [stream[0]] + [] == got + [stream[0]];
      }
    }
  }

  /**
   For any stream: Upload complains of a missing Meta if and only if anything else comes first, and of the stream if and
   only if that breaks while Upload still reads it.
   */
  lemma OutcomeExactly(repo: Repo, stream: seq<Event>)
    ensures var s := UploadOf(repo, stream); var read := Read(repo, Begin, stream);
            && (s.result == Some(MissingMeta) <==> stream != [] && stream[0].Message? && !stream[0].request.Meta?)
            && (s.result == Some(RecvFailed) <==> read != [] && read[|read| - 1] == RecvError)
            && (s.result == Some(StoreFailed) || s.result == Some(Blocked) ==>
                  s.stores > 0 && repo.fails(s.stores).Some?)
  {
    hide ReceiveAll, Read;
    AllGo(repo, Begin, [], stream);
    assert [] + Read(repo, Begin, stream) == Read(repo, Begin, stream);
  }

  /**
   For any stream: Upload deletes what was stored for one key that it received, and once, if and only if a Store that it
   started fails; all the Stores before that one succeed.
   */
  lemma FailedStoreDeletes(repo: Repo, stream: seq<Event>)
    ensures var s := UploadOf(repo, stream);
            && Succeeded(repo, s.stores - 1)
            && (s.stores == 0 || repo.fails(s.stores).None? ==> s.deletes == [])
            && (s.stores > 0 && repo.fails(s.stores).Some? ==>
                  |s.deletes| == 1 && Message(Meta(s.deletes[0])) in Read(repo, Begin, stream))
  {
    hide ReceiveAll, Read;
    AllGo(repo, Begin, [], stream);
    assert [] + Read(repo, Begin, stream) == Read(repo, Begin, stream);
  }

  /**
   A second Meta while a Store runs: the file goes into the directory, and a failure deletes the key, that the Store was
   started with; what is unlocked, and saved on success, is the lock of the second.
   */
  lemma SecondMeta(repo: Repo, first: string, second: string, name: string, data: seq<byte>)
    requires repo.grants(0) && repo.grants(1)
    ensures var s := UploadOf(repo, Events([Meta(first), Chunk(name, data), Meta(second), Done]));
            if repo.fails(1).None? then
              && s.result == Some(Nil) && s.files == map[Path(Some(0), name) := data] && s.deletes == []
              && s.unlocks == [Unlock(Some(1), true)] && s.meta == Some(second)
            else
              && s.result == Some(StoreFailed) && s.files == map[] && s.deletes == [first]
              && s.unlocks == [Unlock(Some(1), false)]
  {
    var stream := [Message(Meta(first)), Message(Chunk(name, data)), Message(Meta(second)), Message(Done)];
    assert Events([Meta(first), Chunk(name, data), Meta(second), Done]) == stream;
    var s1 := Receive(repo, Begin, stream[0]);
    var s2 := Receive(repo, s1, stream[1]);
    var s3 := Receive(repo, s2, stream[2]);
    assert s2 == s1.(chunkName := name, stores := 1, open := Some(Running(first, Some(0), data, 1)));
    assert s3.open == s2.open && s3.lock == Some(1) && s3.result.None?;
    FourMessages(repo, stream);
    hide ReceiveAll;
  }

  lemma FourMessages(repo: Repo, stream: seq<Event>)
    requires |stream| == 4
    requires var s3 := Receive(repo, Receive(repo, Receive(repo, Begin, stream[0]), stream[1]), stream[2]);
             s3.result.None?
    requires Receive(repo, Begin, stream[0]).result.None?
    requires Receive(repo, Receive(repo, Begin, stream[0]), stream[1]).result.None?
    requires stream[3] == Message(Done)
    ensures var s2 := Receive(repo, Receive(repo, Begin, stream[0]), stream[1]);
            ReceiveAll(repo, Begin, stream) == Receive(repo, Receive(repo, s2, stream[2]), stream[3])
  {
    var s1 := Receive(repo, Begin, stream[0]);
    var s2 := Receive(repo, s1, stream[1]);
    var s3 := Receive(repo, s2, stream[2]);
    var s4 := Receive(repo, s3, stream[3]);
    assert s4.result.Some?;
    hide Receive;
    assert stream[1..][1..] == stream[2..] && stream[2..][1..] == stream[3..] && stream[3..][1..] == [];
    assert ReceiveAll(repo, s3, stream[3..]) == ReceiveAll(repo, s4, []);
    assert ReceiveAll(repo, s2, stream[2..]) == ReceiveAll(repo, s3, stream[3..]);
    assert ReceiveAll(repo, s1, stream[1..]) == ReceiveAll(repo, s2, stream[2..]);
  }
}
