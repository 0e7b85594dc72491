/**
 Frames that the packet handler of node.js throws on: what was delivered before, and what is left of the socket.
 */
module NodeRejection {
  import opened Bytes
  import opened NodeSocket

  /** A handler that also accepts f after the frames h. */
  function Lenient(accepts: Handler, h: seq<seq<byte>>, f: seq<byte>): Handler {
    (g: seq<seq<byte>>, frame: seq<byte>) => (g == h && frame == f) || accepts(g, frame)
  }

  /** Until f is delivered, the two handlers do the same. */
  lemma {:induction false} FeedLenient(accepts: Handler, last: seq<seq<byte>>, f: seq<byte>, h: seq<seq<byte>>,
                                       p: Pending, chunk: seq<byte>)
    requires |h| + |Feed(Lenient(accepts, last, f), h, p, chunk).delivered| <= |last|
    ensures Feed(accepts, h, p, chunk) == Feed(Lenient(accepts, last, f), h, p, chunk)
    decreases |chunk|
  {
    if chunk == [] || p.Stuck? || (p.Nothing? && |chunk| < 4) {
    } else {
      var q := if p.Nothing? then Partial(ReadLE32(chunk, 0), []) else p;
      if |q.got| + |chunk| >= q.total {
        var copied := if |q.got| < q.total then q.total - |q.got| else 0;
        var frame := q.got + chunk[..copied];
        if !Throws(Lenient(accepts, last, f), h, frame) && copied > 0 {
          FeedLenient(accepts, last, f, h + [frame], Nothing, chunk[copied..]);
        }
      }
    }
  }

  lemma {:induction false} FeedAllLenient(accepts: Handler, last: seq<seq<byte>>, f: seq<byte>, h: seq<seq<byte>>,
                                          p: Pending, chunks: seq<seq<byte>>)
    requires |h| + |FeedAll(Lenient(accepts, last, f), h, p, chunks).delivered| <= |last|
    ensures FeedAll(accepts, h, p, chunks) == FeedAll(Lenient(accepts, last, f), h, p, chunks)
    decreases |chunks|
  {
    hide Feed;
    if chunks != [] {
      var r := Feed(Lenient(accepts, last, f), h, p, chunks[0]);
      FeedLenient(accepts, last, f, h, p, chunks[0]);
      if !r.threw {
        FeedAllLenient(accepts, last, f, h + r.delivered, r.pending, chunks[1..]);
      }
    }
  }

  lemma {:induction false} FeedAllAppend(accepts: Handler, h: seq<seq<byte>>, p: Pending, chunks: seq<seq<byte>>,
                                         chunk: seq<byte>)
    requires !FeedAll(accepts, h, p, chunks).threw
    ensures var r := FeedAll(accepts, h, p, chunks); var one := Feed(accepts, h + r.delivered, r.pending, chunk);
            FeedAll(accepts, h, p, chunks + [chunk]) == Fed(one.pending, r.delivered + one.delivered, one.threw)
    decreases |chunks|
  {
    hide Feed;
    if chunks == [] {
      assert chunks + [chunk] == [chunk] && [chunk][1..] == [] && h + [] == h;
      var one := Feed(accepts, h, p, chunk);
      assert one.delivered + [] == one.delivered;
    } else {
      var r := Feed(accepts, h, p, chunks[0]);
      assert (chunks + [chunk])[0] == chunks[0] && (chunks + [chunk])[1..] == chunks[1..] + [chunk];
      FeedAllAppend(accepts, h + r.delivered, r.pending, chunks[1..], chunk);
      var more := FeedAll(accepts, h + r.delivered, r.pending, chunks[1..]);
      assert h + (r.delivered + more.delivered) == h + r.delivered + more.delivered;
      var one := Feed(accepts, h + r.delivered + more.delivered, more.pending, chunk);
      assert r.delivered + (more.delivered + one.delivered) == r.delivered + more.delivered + one.delivered;
    }
  }

  /** A frame of the announced length that the handler throws on. */
  predicate Rejected(accepts: Handler, h: seq<seq<byte>>, f: seq<byte>) {
    4 <= |f| && ReadLE32(f, 0) == |f| && !accepts(h, f)
  }

  /** The piece completes f. */
  lemma FeedRejected(accepts: Handler, h: seq<seq<byte>>, p: Pending, f: seq<byte>, chunk: seq<byte>, more: seq<byte>)
    requires Rejected(accepts, h, f) && Matches(p, [f]) && f[Offset(p)..] + more == chunk && chunk != []
    ensures Feed(accepts, h, p, chunk) == Fed(Stuck(f), [], true)
  {
    var copied := |f| - Offset(p);
    assert chunk[..copied] == f[Offset(p)..];
    Completes(p, f, chunk, copied);
    hide ReadLE32;
  }

  lemma MatchesFirst(p: Pending, rest: seq<seq<byte>>, f: seq<byte>)
    requires Matches(p, rest + [f])
    ensures rest == [] ==> Matches(p, [f])
    ensures rest != [] ==> Matches(p, rest)
  {
    assert rest == [] ==> rest + [f] == [f];
  }

  lemma RemainingMore(p: Pending, rest: seq<seq<byte>>, f: seq<byte>)
    requires Matches(p, rest + [f])
    ensures if rest == [] then Remaining(p, rest + [f]) == f[Offset(p)..]
            else Remaining(p, rest + [f]) == rest[0][Offset(p)..] + Concat(rest[1..] + [f])
    ensures Concat([f]) == f
  {
    assert [f][1..] == [];
    if rest == [] {
      assert rest + [f] == [f] && f[Offset(p)..] + [] == f[Offset(p)..];
    } else {
      assert (rest + [f])[1..] == rest[1..] + [f];
    }
    assert f + [] == f;
  }

  /** The piece completes the frames before f and then f itself. */
  lemma {:induction false} FeedUpTo(accepts: Handler, h: seq<seq<byte>>, p: Pending, rest: seq<seq<byte>>, f: seq<byte>,
                                    chunk: seq<byte>, more: seq<byte>)
    requires AllFramed(accepts, h, rest) && Rejected(accepts, h + rest, f)
    requires Matches(p, rest + [f]) && Remaining(p, rest + [f]) + more == chunk
    ensures Feed(accepts, h, p, chunk) == Fed(Stuck(f), rest, true)
    decreases |rest|
  {
    hide Feed, Concat, Remaining, ReadLE32;
    RemainingMore(p, rest, f);
    MatchesFirst(p, rest, f);
    if rest == [] {
      assert h + rest == h;
      FeedRejected(accepts, h, p, f, chunk, more);
    } else {
      FirstFramed(accepts, h, rest);
      FramedTail(accepts, h, rest, 1);
      var copied := |rest[0]| - Offset(p);
      assert chunk == rest[0][Offset(p)..] + (Concat(rest[1..] + [f]) + more);
      assert chunk[..copied] == rest[0][Offset(p)..] && chunk[copied..] == Concat(rest[1..] + [f]) + more;
      FeedFrame(accepts, h, p, rest, chunk, copied);
      RemainingIsConcat(rest[1..] + [f]);
      assert h + rest == h + [rest[0]] + rest[1..];
      FeedUpTo(accepts, h + [rest[0]], Nothing, rest[1..], f, chunk[copied..], more);
      assert [rest[0]] + rest[1..] == rest;
    }
  }

  lemma LenientFramed(accepts: Handler, h: seq<seq<byte>>, frames: seq<seq<byte>>, f: seq<byte>)
    requires AllFramed(accepts, h, frames) && Rejected(accepts, h + frames, f)
    ensures AllFramed(Lenient(accepts, h + frames, f), h, frames + [f])
  {
    var all := frames + [f];
    forall i: nat | i < |all| ensures WellFramed(Lenient(accepts, h + frames, f), h + all[..i], all[i]) {
      if i < |frames| {
        assert all[..i] == frames[..i] && WellFramed(accepts, h + frames[..i], frames[i]);
      } else {
        assert all[..i] == frames;
      }
    }
  }

  /**
   A frame that the handler throws on, in whatever pieces it arrives: exactly the frames before it are delivered, the
   buffer that was rejected stays in the socket, and what follows it in the last piece is dropped.
   */
  lemma RejectedFrame(accepts: Handler, h: seq<seq<byte>>, frames: seq<seq<byte>>, f: seq<byte>, chunks: seq<seq<byte>>,
                      missing: seq<byte>, more: seq<byte>)
    requires AllFramed(accepts, h, frames) && Rejected(accepts, h + frames, f)
    requires Concat(chunks) + missing == Concat(frames + [f]) && missing != [] && !CutsHeader(frames + [f], chunks, 0)
    ensures FeedAll(accepts, h, Nothing, chunks + [missing + more]) == Fed(Stuck(f), frames, true)
  {
    hide Feed, FeedAll, AllFramed, CutsHeader, ReadLE32, Concat, Rejected, Remaining, Matches;
    var k := UpToRejected(accepts, h, frames, f, chunks, missing);
    var r := FeedAll(accepts, h, Nothing, chunks);
    FeedAllAppend(accepts, h, Nothing, chunks, missing + more);
    LastPiece(accepts, h, frames, f, k, r.pending, missing, more);
  }

  /** The piece that completes f, after k of the frames before it. */
  lemma LastPiece(accepts: Handler, h: seq<seq<byte>>, frames: seq<seq<byte>>, f: seq<byte>, k: nat, p: Pending,
                  missing: seq<byte>, more: seq<byte>)
    requires AllFramed(accepts, h, frames) && Rejected(accepts, h + frames, f) && k <= |frames|
    requires Matches(p, frames[k..] + [f]) && Remaining(p, frames[k..] + [f]) == missing
    ensures Feed(accepts, h + frames[..k], p, missing + more) == Fed(Stuck(f), frames[k..], true)
    ensures frames[..k] + frames[k..] == frames
  {
    hide Feed, ReadLE32, Concat, Rejected;
    FramedTail(accepts, h, frames, k);
    hide AllFramed, Remaining, Matches;
    assert h + frames[..k] + frames[k..] == h + frames;
    FeedUpTo(accepts, h + frames[..k], p, frames[k..], f, missing + more, more);
  }

  /** Before f is complete, nothing tells that the handler is going to throw on it. */
  lemma UpToRejected(accepts: Handler, h: seq<seq<byte>>, frames: seq<seq<byte>>, f: seq<byte>, chunks: seq<seq<byte>>,
                     missing: seq<byte>)
    returns (k: nat)
    requires AllFramed(accepts, h, frames) && Rejected(accepts, h + frames, f)
    requires Concat(chunks) + missing == Concat(frames + [f]) && missing != [] && !CutsHeader(frames + [f], chunks, 0)
    ensures k <= |frames|
    ensures var r := FeedAll(accepts, h, Nothing, chunks); var rest := frames[k..] + [f];
            !r.threw && r.delivered == frames[..k] && Matches(r.pending, rest) && Remaining(r.pending, rest) == missing
  {
    var all, lenient := frames + [f], Lenient(accepts, h + frames, f);
    hide Feed, FeedAll, CutsHeader, InHeader, ReadLE32, Lenient, Concat;
    LenientFramed(accepts, h, frames, f);
    RemainingIsConcat(all);
    k := FeedFrom(lenient, h, Nothing, all, chunks, missing);
    var r := FeedAll(lenient, h, Nothing, chunks);
    Unfinished(r.pending, all, k, missing);
    FeedAllLenient(accepts, h + frames, f, h, Nothing, chunks);
    assert all[..k] == frames[..k] && all[k..] == frames[k..] + [f];
  }

  lemma Unfinished(p: Pending, all: seq<seq<byte>>, k: nat, missing: seq<byte>)
    requires k <= |all| && Matches(p, all[k..]) && Remaining(p, all[k..]) == missing && missing != []
    ensures k < |all|
  {
  }

  /** A length below 4 is rejected as soon as it is read. */
  lemma ShortLength(accepts: Handler, h: seq<seq<byte>>, chunk: seq<byte>)
    requires 4 <= |chunk| && ReadLE32(chunk, 0) < 4
    ensures Feed(accepts, h, Nothing, chunk) == Fed(Stuck(chunk[..ReadLE32(chunk, 0)]), [], true)
  {
    hide ReadLE32;
    assert [] + chunk[..ReadLE32(chunk, 0)] == chunk[..ReadLE32(chunk, 0)];
  }

  /** After that nothing is delivered any more, whatever arrives. */
  lemma {:induction false} StuckForever(accepts: Handler, h: seq<seq<byte>>, f: seq<byte>, chunks: seq<seq<byte>>)
    ensures var r := FeedAll(accepts, h, Stuck(f), chunks);
            r.pending == Stuck(f) && r.delivered == [] && (r.threw <==> exists c :: c in chunks && c != [])
    decreases |chunks|
  {
    if chunks != [] {
      StuckForever(accepts, h, f, chunks[1..]);
      assert h + [] == h;
      assert chunks[0] in chunks && forall c :: c in chunks <==> c == chunks[0] || c in chunks[1..];
      if c :| c in chunks[1..] && c != [] { assert c in chunks; }
      if c :| c in chunks && c != [] { assert c == chunks[0] || c in chunks[1..]; }
    }
  }
}
