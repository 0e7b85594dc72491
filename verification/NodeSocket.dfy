/**
 Reassembly of length-prefixed frames in assets/wrappers/node.js.  `processData` receives the stream in
 whatever pieces the socket delivers; every frame starts with its own length, four bytes little-endian,
 the prefix included.
 */
module NodeSocket {
  import opened Bytes

  /** What the socket object remembers between two 'data' events. */
  datatype Pending =
    | Nothing
    | Partial(total: nat, got: seq<byte>)   // buffer allocated, `got` copied so far
    | Stuck(frame: seq<byte>)               // the handler threw on a complete buffer

  /**
   Whether the packet handler accepts a buffer, given the buffers it handled before: the first one is the
   setup packet, the others are runs.
   */
  type Handler = (seq<seq<byte>>, seq<byte>) -> bool

  datatype Fed = Fed(pending: Pending, delivered: seq<seq<byte>>, threw: bool)

  function Min(a: int, b: int): int { if a < b then a else b }

  /** The handler throws on a buffer too short for the length it reads, or on one it cannot parse. */
  predicate Throws(accepts: Handler, h: seq<seq<byte>>, frame: seq<byte>) {
    |frame| < 4 || !accepts(h, frame)
  }

  /** processData(socket, chunk). */
  function Feed(accepts: Handler, h: seq<seq<byte>>, p: Pending, chunk: seq<byte>): Fed
    decreases |chunk|
  {
    if chunk == [] then Fed(p, [], false)
    else if p.Stuck? then Fed(p, [], true)
    else if p.Nothing? && |chunk| < 4 then Fed(Nothing, [], true)
    else
      var q := if p.Nothing? then Partial(ReadLE32(chunk, 0), []) else p;
      if |q.got| + |chunk| < q.total then
        Fed(Partial(q.total, q.got + chunk), [], false)
      else
        var copied := if |q.got| < q.total then q.total - |q.got| else 0;
        var frame := q.got + chunk[..copied];
        if Throws(accepts, h, frame) || copied == 0 then Fed(Stuck(frame), [], true)
        else
          var r := Feed(accepts, h + [frame], Nothing, chunk[copied..]);
          Fed(r.pending, [frame] + r.delivered, r.threw)
  }

  /** All 'data' events of a connection, until one throws. */
  function FeedAll(accepts: Handler, h: seq<seq<byte>>, p: Pending, chunks: seq<seq<byte>>): Fed
    decreases |chunks|
  {
    if chunks == [] then Fed(p, [], false)
    else
      var r := Feed(accepts, h, p, chunks[0]);
      if r.threw then r
      else
        var rest := FeedAll(accepts, h + r.delivered, r.pending, chunks[1..]);
        Fed(rest.pending, r.delivered + rest.delivered, rest.threw)
  }

  predicate WellFramed(accepts: Handler, h: seq<seq<byte>>, frame: seq<byte>) {
    4 <= |frame| && ReadLE32(frame, 0) == |frame| && accepts(h, frame)
  }

  ghost predicate AllFramed(accepts: Handler, h: seq<seq<byte>>, frames: seq<seq<byte>>) {
    forall i: nat :: i < |frames| ==> WellFramed(accepts, h + frames[..i], frames[i])
  }

  /** Stream position `at` lies strictly inside some frame's four-byte length. */
  predicate InHeader(frames: seq<seq<byte>>, at: nat) {
    frames != [] && (0 < at < 4 || (|frames[0]| <= at && InHeader(frames[1..], at - |frames[0]|)))
  }

  /** Some piece, counting from stream position `at`, ends inside a length. */
  predicate CutsHeader(frames: seq<seq<byte>>, chunks: seq<seq<byte>>, at: nat) {
    chunks != [] && (InHeader(frames, at + |chunks[0]|) || CutsHeader(frames, chunks[1..], at + |chunks[0]|))
  }

  function Offset(p: Pending): nat {
    if p.Partial? then |p.got| else 0
  }

  /** The pending buffer is the beginning of the next frame. */
  ghost predicate Matches(p: Pending, rest: seq<seq<byte>>) {
    || p.Nothing?
    || (p.Partial? && rest != [] && p.total == |rest[0]| && 4 <= |p.got| < |rest[0]| && p.got <= rest[0])
  }

  lemma InHeaderOfFirst(rest: seq<seq<byte>>, at: nat)
    requires rest != [] && 4 <= at < |rest[0]|
    ensures !InHeader(rest, at)
  {
  }

  /** From position i of a on, lengths lie where they lie from position j of b on. */
  ghost predicate SameHeaders(a: seq<seq<byte>>, i: nat, b: seq<seq<byte>>, j: nat) {
    forall x: nat, y: nat {:trigger InHeader(a, x), InHeader(b, y)} ::
      i <= x && j <= y && x - i == y - j ==> InHeader(a, x) == InHeader(b, y)
  }

  /** The bytes of `rest` not yet received. */
  function Remaining(p: Pending, rest: seq<seq<byte>>): seq<byte>
    requires rest != [] ==> Offset(p) <= |rest[0]|
  {
    if rest == [] then [] else rest[0][Offset(p)..] + Concat(rest[1..])
  }

  /** What one piece of n bytes does, k frames later. */
  ghost predicate Advanced(p: Pending, rest: seq<seq<byte>>, n: nat, r: Fed, tail: seq<byte>, k: nat) {
    && k <= |rest| && r.delivered == rest[..k]
    && (r.threw <==> InHeader(rest, Offset(p) + n))
    && (!r.threw ==>
          && Matches(r.pending, rest[k..]) && Remaining(r.pending, rest[k..]) == tail
          && SameHeaders(rest, Offset(p) + n, rest[k..], Offset(r.pending)))
  }

  lemma SkipFrame(rest: seq<seq<byte>>, n: nat)
    requires rest != [] && 4 <= |rest[0]| <= n
    ensures SameHeaders(rest, n, rest[1..], n - |rest[0]|)
  {
  }

  lemma SameHeadersTrans(a: seq<seq<byte>>, i: nat, b: seq<seq<byte>>, j: nat, c: seq<seq<byte>>, k: nat)
    requires SameHeaders(a, i, b, j) && SameHeaders(b, j, c, k)
    ensures SameHeaders(a, i, c, k)
  {
    forall x: nat, y: nat | i <= x && k <= y && x - i == y - k ensures InHeader(a, x) == InHeader(c, y) {
      assert InHeader(b, x - i + j) == InHeader(a, x);
    }
  }

  lemma FeedLength(accepts: Handler, h: seq<seq<byte>>, p: Pending, rest: seq<seq<byte>>, chunk: seq<byte>)
    requires rest != [] && WellFramed(accepts, h, rest[0]) && Matches(p, rest) && chunk != []
    requires p.Nothing? ==> 4 <= |chunk| && ReadLE32(chunk, 0) == |rest[0]|
    ensures var got := if p.Partial? then p.got else [];
            var f := rest[0];
            && Offset(p) == |got|
            && (|got| + |chunk| < |f| ==> Feed(accepts, h, p, chunk) == Fed(Partial(|f|, got + chunk), [], false))
            && (|f| <= |got| + |chunk| && got + chunk[..|f| - |got|] == f ==>
                  var r := Feed(accepts, h + [f], Nothing, chunk[|f| - |got|..]);
                  Feed(accepts, h, p, chunk) == Fed(r.pending, [f] + r.delivered, r.threw))
  {
  }

  lemma FeedShort(accepts: Handler, h: seq<seq<byte>>, chunk: seq<byte>)
    requires 0 < |chunk| < 4
    ensures Feed(accepts, h, Nothing, chunk) == Fed(Nothing, [], true)
  {
  }

  lemma PieceInside(p: Pending, f: seq<byte>, more: seq<byte>, chunk: seq<byte>, tail: seq<byte>)
    requires Matches(p, [f]) && f[Offset(p)..] + more == chunk + tail && Offset(p) + |chunk| < |f|
    ensures var got := if p.Partial? then p.got else [];
            got + chunk == f[..Offset(p) + |chunk|] && tail == f[Offset(p) + |chunk|..] + more
    ensures p.Nothing? && 4 <= |chunk| ==> ReadLE32(chunk, 0) == ReadLE32(f, 0)
  {
    SplitInside(chunk, tail, f[Offset(p)..], more);
    if p.Nothing? && 4 <= |chunk| {
      assert chunk == f[..|chunk|];
      ReadPrefix(chunk, f);
    }
  }

  /** The piece cuts the frame's length. */
  lemma FeedInsideHeader(accepts: Handler, h: seq<seq<byte>>, rest: seq<seq<byte>>, chunk: seq<byte>, tail: seq<byte>)
    requires rest != [] && WellFramed(accepts, h, rest[0]) && 0 < |chunk| < 4
    requires Remaining(Nothing, rest) == chunk + tail
    ensures Advanced(Nothing, rest, |chunk|, Feed(accepts, h, Nothing, chunk), tail, 0)
  {
    hide Concat, Feed, ReadLE32;
    FeedShort(accepts, h, chunk);
    assert rest[..0] == [];
  }

  lemma AdvancedInside(p: Pending, rest: seq<seq<byte>>, n: nat, tail: seq<byte>)
    requires rest != [] && 4 <= Offset(p) + n < |rest[0]|
    requires tail == rest[0][Offset(p) + n..] + Concat(rest[1..])
    ensures var f, at := rest[0], Offset(p) + n;
            Advanced(p, rest, n, Fed(Partial(|f|, f[..at]), [], false), tail, 0)
  {
    hide Concat;
    InHeaderOfFirst(rest, Offset(p) + n);
    assert rest[0..] == rest && rest[..0] == [];
    hide InHeader;
  }

  /** The piece ends inside the next frame's body, or cuts the frame's length. */
  lemma {:induction false} FeedInside(accepts: Handler, h: seq<seq<byte>>, p: Pending, rest: seq<seq<byte>>,
                                      chunk: seq<byte>, tail: seq<byte>)
    requires rest != [] && WellFramed(accepts, h, rest[0]) && Matches(p, rest) && chunk != []
    requires Remaining(p, rest) == chunk + tail && Offset(p) + |chunk| < |rest[0]|
    ensures Advanced(p, rest, |chunk|, Feed(accepts, h, p, chunk), tail, 0)
  {
    hide Concat, Feed, ReadLE32, Advanced;
    if p.Nothing? && |chunk| < 4 {
      FeedInsideHeader(accepts, h, rest, chunk, tail);
    } else {
      PieceInside(p, rest[0], Concat(rest[1..]), chunk, tail);
      FeedLength(accepts, h, p, rest, chunk);
      AdvancedInside(p, rest, |chunk|, tail);
    }
  }

  lemma Completes(p: Pending, f: seq<byte>, chunk: seq<byte>, copied: nat)
    requires 4 <= |f| && Matches(p, [f]) && copied == |f| - Offset(p) <= |chunk| && f[Offset(p)..] == chunk[..copied]
    ensures (if p.Partial? then p.got else []) + chunk[..copied] == f
    ensures p.Nothing? ==> 4 <= |chunk| && ReadLE32(chunk, 0) == ReadLE32(f, 0)
  {
    if p.Nothing? {
      assert f[0..] == f;
      ReadPrefix(f, chunk);
    } else {
      assert f == f[..|p.got|] + f[|p.got|..];
    }
  }

  lemma FrameEnds(accepts: Handler, h: seq<seq<byte>>, p: Pending, rest: seq<seq<byte>>, chunk: seq<byte>,
                  tail: seq<byte>)
    requires rest != [] && WellFramed(accepts, h, rest[0]) && Matches(p, rest)
    requires Remaining(p, rest) == chunk + tail && |rest[0]| <= Offset(p) + |chunk|
    ensures var copied := |rest[0]| - Offset(p);
            0 < copied <= |chunk| && rest[0][Offset(p)..] == chunk[..copied]
              && Concat(rest[1..]) == chunk[copied..] + tail
  {
    hide Concat, ReadLE32;
    SplitInside(rest[0][Offset(p)..], Concat(rest[1..]), chunk, tail);
  }

  /** The piece reaches the end of the next frame: one delivery, then the rest of the piece. */
  lemma FeedFrame(accepts: Handler, h: seq<seq<byte>>, p: Pending, rest: seq<seq<byte>>, chunk: seq<byte>, copied: nat)
    requires rest != [] && WellFramed(accepts, h, rest[0]) && Matches(p, rest)
    requires copied == |rest[0]| - Offset(p) && 0 < copied <= |chunk| && rest[0][Offset(p)..] == chunk[..copied]
    ensures var r := Feed(accepts, h + [rest[0]], Nothing, chunk[copied..]);
            Feed(accepts, h, p, chunk) == Fed(r.pending, [rest[0]] + r.delivered, r.threw)
  {
    hide Feed, ReadLE32;
    Completes(p, rest[0], chunk, copied);
    FeedLength(accepts, h, p, rest, chunk);
  }

  lemma RemainingIsConcat(rest: seq<seq<byte>>)
    ensures Remaining(Nothing, rest) == Concat(rest)
  {
  }

  lemma FirstFramed(accepts: Handler, h: seq<seq<byte>>, rest: seq<seq<byte>>)
    requires AllFramed(accepts, h, rest) && rest != []
    ensures WellFramed(accepts, h, rest[0])
  {
    assert WellFramed(accepts, h + rest[..0], rest[0]);
    assert h + rest[..0] == h;
  }

  lemma TakeMore(h: seq<seq<byte>>, rest: seq<seq<byte>>, k: nat, i: nat)
    requires k + i <= |rest|
    ensures h + rest[..k] + rest[k..][..i] == h + rest[..k + i]
  {
    assert rest[..k] + rest[k..][..i] == rest[..k + i];
  }

  lemma FramedTail(accepts: Handler, h: seq<seq<byte>>, rest: seq<seq<byte>>, k: nat)
    requires AllFramed(accepts, h, rest) && k <= |rest|
    ensures AllFramed(accepts, h + rest[..k], rest[k..])
    ensures k == 1 ==> h + rest[..k] == h + [rest[0]]
  {
    forall i: nat | i < |rest| - k ensures WellFramed(accepts, h + rest[..k] + rest[k..][..i], rest[k..][i]) {
      TakeMore(h, rest, k, i);
      assert WellFramed(accepts, h + rest[..k + i], rest[k + i]);
    }
  }

  /** One piece of the stream, whatever frames it completes. */
  lemma {:induction false} FeedOne(accepts: Handler, h: seq<seq<byte>>, p: Pending, rest: seq<seq<byte>>,
                                   chunk: seq<byte>, tail: seq<byte>)
    returns (k: nat)
    requires AllFramed(accepts, h, rest) && Matches(p, rest) && Remaining(p, rest) == chunk + tail
    ensures Advanced(p, rest, |chunk|, Feed(accepts, h, p, chunk), tail, k)
    decreases |chunk|
  {
    k := 0;
    if chunk == [] {
      NotInHeader(p, rest);
      assert rest[0..] == rest && [] + tail == tail;
    } else {
      hide Feed, Concat, InHeader;
      assert |chunk + tail| > 0 && rest != [];
      FirstFramed(accepts, h, rest);
      if Offset(p) + |chunk| < |rest[0]| {
        FeedInside(accepts, h, p, rest, chunk, tail);
      } else {
        FrameEnds(accepts, h, p, rest, chunk, tail);
        var copied := |rest[0]| - Offset(p);
        FeedFrame(accepts, h, p, rest, chunk, copied);
        RemainingIsConcat(rest[1..]);
        var g := h + [rest[0]];
        FramedTail(accepts, h, rest, 1);
        var j := FeedOne(accepts, g, Nothing, rest[1..], chunk[copied..], tail);
        k := j + 1;
        FeedNext(p, rest, |chunk|, Feed(accepts, g, Nothing, chunk[copied..]), tail, j);
      }
    }
  }

  /** Delivering the first frame and then advancing in the others is advancing in all. */
  lemma FeedNext(p: Pending, rest: seq<seq<byte>>, n: nat, r: Fed, tail: seq<byte>, j: nat)
    requires rest != [] && 4 <= |rest[0]| <= Offset(p) + n
    requires Advanced(Nothing, rest[1..], Offset(p) + n - |rest[0]|, r, tail, j)
    ensures Advanced(p, rest, n, Fed(r.pending, [rest[0]] + r.delivered, r.threw), tail, j + 1)
  {
    hide Concat, Remaining, Matches;
    assert rest[..j + 1] == [rest[0]] + rest[1..][..j] && rest[j + 1..] == rest[1..][j..];
    SkipFrame(rest, Offset(p) + n);
    if !r.threw {
      SameHeadersTrans(rest, Offset(p) + n, rest[1..], Offset(p) + n - |rest[0]|, rest[j + 1..], Offset(r.pending));
    }
  }

  lemma NotInHeader(p: Pending, rest: seq<seq<byte>>)
    requires Matches(p, rest)
    ensures !InHeader(rest, Offset(p))
  {
    if p.Nothing? && rest != [] && rest[0] == [] { NotAtStart(rest); }
  }

  lemma {:induction false} NotAtStart(rest: seq<seq<byte>>)
    ensures !InHeader(rest, 0)
  {
    if rest != [] { NotAtStart(rest[1..]); }
  }

  lemma FeedAllStep(accepts: Handler, h: seq<seq<byte>>, p: Pending, chunks: seq<seq<byte>>)
    requires chunks != []
    ensures var r := Feed(accepts, h, p, chunks[0]);
            FeedAll(accepts, h, p, chunks) ==
              if r.threw then r
              else var more := FeedAll(accepts, h + r.delivered, r.pending, chunks[1..]);
                   Fed(more.pending, r.delivered + more.delivered, more.threw)
  {
    hide Feed;
  }

  lemma JoinPrefix(rest: seq<seq<byte>>, k: nat, j: nat)
    requires k + j <= |rest|
    ensures rest[..k] + rest[k..][..j] == rest[..k + j] && rest[k..][j..] == rest[k + j..]
  {
  }

  lemma CutsHeaderStep(frames: seq<seq<byte>>, chunks: seq<seq<byte>>, at: nat)
    requires chunks != []
    ensures CutsHeader(frames, chunks, at) <==>
              InHeader(frames, at + |chunks[0]|) || CutsHeader(frames, chunks[1..], at + |chunks[0]|)
  {
    hide InHeader;
  }

  lemma NoChunks(accepts: Handler, h: seq<seq<byte>>, p: Pending, rest: seq<seq<byte>>)
    ensures FeedAll(accepts, h, p, []) == Fed(p, [], false) && !CutsHeader(rest, [], Offset(p)) && Concat([]) == []
  {
  }

  lemma ConcatStep(chunks: seq<seq<byte>>, missing: seq<byte>)
    requires chunks != []
    ensures Concat(chunks) + missing == chunks[0] + (Concat(chunks[1..]) + missing)
  {
  }

  lemma AfterOne(p: Pending, rest: seq<seq<byte>>, n: nat, r: Fed, tail: seq<byte>, k: nat)
    requires Advanced(p, rest, n, r, tail, k)
    ensures k <= |rest| && r.delivered == rest[..k] && (r.threw <==> InHeader(rest, Offset(p) + n))
    ensures !r.threw ==>
              && Matches(r.pending, rest[k..]) && Remaining(r.pending, rest[k..]) == tail
              && SameHeaders(rest, Offset(p) + n, rest[k..], Offset(r.pending))
  {
  }

  /**
   The stream from any state of the socket, up to where it breaks off: whole frames are delivered and the pending
   buffer is the beginning of the next, unless a cut falls inside a length.
   */
  lemma {:induction false} FeedFrom(accepts: Handler, h: seq<seq<byte>>, p: Pending, rest: seq<seq<byte>>,
                                    chunks: seq<seq<byte>>, missing: seq<byte>)
    returns (k: nat)
    requires AllFramed(accepts, h, rest) && Matches(p, rest) && Remaining(p, rest) == Concat(chunks) + missing
    ensures var r := FeedAll(accepts, h, p, chunks);
            && (r.threw <==> CutsHeader(rest, chunks, Offset(p)))
            && k <= |rest| && r.delivered == rest[..k]
            && (!r.threw ==> Matches(r.pending, rest[k..]) && Remaining(r.pending, rest[k..]) == missing)
    decreases |chunks|
  {
    hide Feed, FeedAll, AllFramed, SameHeaders, CutsHeader, InHeader, Remaining, Matches, Concat, Advanced;
    if chunks == [] {
      k := 0;
      NoChunks(accepts, h, p, rest);
      assert rest[0..] == rest && [] + missing == missing;
    } else {
      ConcatStep(chunks, missing);
      k := FeedOne(accepts, h, p, rest, chunks[0], Concat(chunks[1..]) + missing);
      var r := Feed(accepts, h, p, chunks[0]);
      FeedAllStep(accepts, h, p, chunks);
      CutsHeaderStep(rest, chunks, Offset(p));
      AfterOne(p, rest, |chunks[0]|, r, Concat(chunks[1..]) + missing, k);
      if !r.threw {
        FramedTail(accepts, h, rest, k);
        var j := FeedFrom(accepts, h + r.delivered, r.pending, rest[k..], chunks[1..], missing);
        CutsShift(rest, rest[k..], chunks[1..], Offset(p) + |chunks[0]|, Offset(r.pending));
        JoinPrefix(rest, k, j);
        k := k + j;
      }
    }
  }

  lemma FirstIsLong(accepts: Handler, h: seq<seq<byte>>, rest: seq<seq<byte>>)
    requires AllFramed(accepts, h, rest) && rest != []
    ensures 4 <= |rest[0]|
  {
    FirstFramed(accepts, h, rest);
  }

  lemma NothingRemains(accepts: Handler, h: seq<seq<byte>>, p: Pending, rest: seq<seq<byte>>)
    requires AllFramed(accepts, h, rest) && Matches(p, rest) && Remaining(p, rest) == []
    ensures rest == [] && p.Nothing?
  {
    if rest != [] {
      FirstIsLong(accepts, h, rest);
      assert false;
    }
  }

  lemma {:induction false} CutsShift(a: seq<seq<byte>>, b: seq<seq<byte>>, chunks: seq<seq<byte>>, i: nat, j: nat)
    requires SameHeaders(a, i, b, j)
    ensures CutsHeader(a, chunks, i) == CutsHeader(b, chunks, j)
  {
    if chunks != [] {
      var n := |chunks[0]|;
      assert InHeader(a, i + n) == InHeader(b, j + n);
      CutsShift(a, b, chunks[1..], i + n, j + n);
    }
  }

  /**
   Fragmentation independence.  However the bytes of a list of frames are cut into pieces, the list is
   delivered unchanged and in order, with nothing left over, exactly when no cut falls inside a length;
   otherwise processData throws, after delivering a prefix of the list.
   */
  lemma {:induction false} FragmentationIndependence(accepts: Handler, h: seq<seq<byte>>, frames: seq<seq<byte>>,
                                                     chunks: seq<seq<byte>>)
    requires AllFramed(accepts, h, frames) && Concat(chunks) == Concat(frames)
    ensures !CutsHeader(frames, chunks, 0) ==> FeedAll(accepts, h, Nothing, chunks) == Fed(Nothing, frames, false)
    ensures CutsHeader(frames, chunks, 0) ==>
              FeedAll(accepts, h, Nothing, chunks).threw && FeedAll(accepts, h, Nothing, chunks).delivered <= frames
  {
    RemainingIsConcat(frames);
    assert Concat(chunks) + [] == Concat(chunks);
    var k := FeedFrom(accepts, h, Nothing, frames, chunks, []);
    var r := FeedAll(accepts, h, Nothing, chunks);
    if !r.threw {
      FramedTail(accepts, h, frames, k);
      NothingRemains(accepts, h + frames[..k], r.pending, frames[k..]);
      assert frames[..|frames|] == frames;
    }
  }

  /**
   A connection that breaks: however the bytes received are cut, outside of lengths, exactly the frames that
   arrived in full are delivered.
   */
  lemma BrokenStream(accepts: Handler, h: seq<seq<byte>>, frames: seq<seq<byte>>, chunks: seq<seq<byte>>,
                     missing: seq<byte>)
    returns (k: nat)
    requires AllFramed(accepts, h, frames) && Concat(chunks) + missing == Concat(frames) && missing != []
    requires !CutsHeader(frames, chunks, 0)
    ensures k < |frames| && |Concat(frames[..k])| <= |Concat(chunks)| < |Concat(frames[..k + 1])|
    ensures var r := FeedAll(accepts, h, Nothing, chunks); r.delivered == frames[..k] && !r.threw
  {
    RemainingIsConcat(frames);
    k := FeedFrom(accepts, h, Nothing, frames, chunks, missing);
    var r := FeedAll(accepts, h, Nothing, chunks);
    ConcatSplit(frames, k);
    ConcatSplit(frames, k + 1);
    assert frames[k..][1..] == frames[k + 1..];
    if k < |frames| { assert WellFramed(accepts, h + frames[..k], frames[k]); }
  }

  lemma {:induction false} ConcatSplit(frames: seq<seq<byte>>, k: nat)
    requires k <= |frames|
    ensures |Concat(frames)| == |Concat(frames[..k])| + |Concat(frames[k..])|
  {
    if k > 0 {
      ConcatSplit(frames[1..], k - 1);
      assert frames[..k][1..] == frames[1..][..k - 1] && frames[1..][k - 1..] == frames[k..];
    } else {
      assert frames[0..] == frames;
    }
  }

  // ---- The socket object ----

  /** A socket of the wrapper; `delivered` collects the buffers handed to the packet handler. */
  class Socket {
    const accepts: Handler
    var buffer: array?<byte>
    var offset: nat
    var delivered: seq<seq<byte>>

    ghost predicate Valid()
      reads this, buffer
    {
      buffer != null && buffer.Length <= offset ==> Throws(accepts, delivered, buffer[..])
    }

    ghost function View(): Pending
      reads this, buffer
    {
      if buffer == null then Nothing
      else if offset < buffer.Length then Partial(buffer.Length, buffer[..offset])
      else Stuck(buffer[..])
    }

    constructor (accepts: Handler)
      ensures Valid() && View() == Nothing && delivered == [] && this.accepts == accepts
    {
      this.accepts := accepts;
      buffer, offset, delivered := null, 0, [];
    }

    /** chunk.copy(buffer, offset): copies what fits and returns how much that was. */
    method Copy(chunk: seq<byte>) returns (copied: nat)
      requires buffer != null
      modifies buffer
      ensures copied == (if offset < buffer.Length then Min(|chunk|, buffer.Length - offset) else 0)
      ensures forall i: nat :: i < buffer.Length ==>
                buffer[i] == if offset <= i < offset + copied then chunk[i - offset] else old(buffer[i])
    {
      copied := if offset < buffer.Length then Min(|chunk|, buffer.Length - offset) else 0;
      var i: nat := 0;
      while i < copied
        invariant i <= copied
        invariant forall j: nat :: j < buffer.Length ==>
                    buffer[j] == if offset <= j < offset + i then chunk[j - offset] else old(buffer[j])
      {
        buffer[offset + i] := chunk[i];
        i := i + 1;
      }
    }

    /** A new length: allocate the buffer. */
    method Allocate(chunk: seq<byte>)
      requires buffer == null && 4 <= |chunk|
      modifies this`buffer, this`offset
      ensures buffer != null && fresh(buffer) && buffer.Length == ReadLE32(chunk, 0) && offset == 0
    {
      offset := 0;
      buffer := new byte[ReadLE32(chunk, 0)];
    }

    ghost function Got(): seq<byte>
      reads this, buffer
      requires buffer != null
    {
      if offset < buffer.Length then buffer[..offset] else buffer[..]
    }

    /** Appends what fits of the chunk; tells whether the buffer is complete. */
    method Append(chunk: seq<byte>) returns (copied: nat, complete: bool)
      requires buffer != null
      modifies this`offset, buffer
      ensures buffer == old(buffer)
      ensures copied == (if old(offset) < buffer.Length then Min(|chunk|, buffer.Length - old(offset)) else 0)
      ensures complete <==> buffer.Length <= offset
      ensures offset == old(offset) + |chunk|
      ensures Got() == old(Got()) + chunk[..copied]
    {
      copied := Copy(chunk);
      offset := offset + |chunk|;
      complete := buffer.Length <= offset;
    }

    /** Hands a complete buffer to the packet handler. */
    method Deliver() returns (threw: bool)
      requires buffer != null
      modifies this`buffer, this`delivered
      ensures threw <==> Throws(accepts, old(delivered), old(buffer[..]))
      ensures threw ==> buffer == old(buffer) && delivered == old(delivered)
      ensures !threw ==> buffer == null && delivered == old(delivered) + [old(buffer[..])]
    {
      threw := buffer.Length < 4 || !accepts(delivered, buffer[..]);
      if !threw {
        delivered := delivered + [buffer[..]];
        buffer := null;
      }
    }

    /** processData */
    method ProcessData(data: seq<byte>, position: nat) returns (threw: bool)
      requires Valid()
      modifies this, buffer
      ensures Valid() && (buffer == old(buffer) || buffer == null || fresh(buffer))
      ensures var r := Feed(accepts, old(delivered), old(View()), if position < |data| then data[position..] else []);
              View() == r.pending && delivered == old(delivered) + r.delivered && threw == r.threw
      decreases |data| - position
    {
      hide Feed, ReadLE32;
      threw := false;
      ghost var h := delivered;
      FeedNothing(accepts, h, View());
      if position >= |data| { return; }
      var chunk := data[position..];
      ghost var p := View();
      if buffer == null {
        if |chunk| < 4 {
          FeedShort(accepts, h, chunk);
          threw := true;
          return;
        }
        Allocate(chunk);
      }
      ghost var got, total := Got(), buffer.Length;
      var copied, complete := Append(chunk);
      FeedStep(accepts, h, p, chunk, total, got, copied);
      if !complete {
        assert chunk[..copied] == chunk;
        return;
      }
      assert Got() == buffer[..] == got + chunk[..copied];
      if copied == 0 { assert got + chunk[..copied] == got; }
      threw := Deliver();
      if !threw {
        ghost var frame, before := got + chunk[..copied], old(delivered);
        assert copied >= |chunk| ==> chunk[copied..] == [];
        threw := ProcessData(chunk, copied);
        ghost var r := Feed(accepts, h + [frame], Nothing, chunk[copied..]);
        assert before + [frame] + r.delivered == before + ([frame] + r.delivered);
      }
    }
  }

  lemma FeedNothing(accepts: Handler, h: seq<seq<byte>>, p: Pending)
    ensures Feed(accepts, h, p, []) == Fed(p, [], false)
  {
  }

  /** One round of Feed, in terms of the buffer in use. */
  lemma FeedStep(accepts: Handler, h: seq<seq<byte>>, p: Pending, chunk: seq<byte>, total: nat, got: seq<byte>,
                 copied: nat)
    requires chunk != [] && (p.Nothing? ==> 4 <= |chunk|)
    requires p.Nothing? ==> total == ReadLE32(chunk, 0) && got == []
    requires p.Partial? ==> p == Partial(total, got) && |got| < total
    requires p.Stuck? ==> got == p.frame && total == |got| && Throws(accepts, h, got)
    requires copied == if |got| < total then Min(|chunk|, total - |got|) else 0
    ensures |got| + |chunk| < total ==> Feed(accepts, h, p, chunk) == Fed(Partial(total, got + chunk), [], false)
    ensures |got| + |chunk| >= total ==>
              var frame := got + chunk[..copied];
              Feed(accepts, h, p, chunk) ==
                if Throws(accepts, h, frame) then Fed(Stuck(frame), [], true)
                else
                  var r := Feed(accepts, h + [frame], Nothing, chunk[copied..]);
                  Fed(r.pending, [frame] + r.delivered, r.threw)
  {
    if p.Stuck? { assert got + chunk[..copied] == got; }
  }
}
