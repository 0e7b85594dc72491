/**
 Chunked replies: Server.sendResponse of the worker cuts the content of a response into messages, and
 processResponse of the broker puts it together.  The load balancer passes the messages on unchanged.
 */
module ReplyChunks {
  import opened Bytes
  import opened Wrappers

  /** 2 MiB */
  const ChunkSize := 2 * 1024 * 1024

  datatype Header = Header(statusCode: int, contentType: string, headers: map<string, string>)

  const NoHeader := Header(0, "", map[])

  datatype HTTPResponse = HTTPResponse(header: Header, content: seq<byte>)

  /** The fields sent once, in the first message. */
  datatype Summary = Summary(
    containerID: string, code: int, stdout: seq<byte>, stderr: seq<byte>, took: int, cached: bool, weight: nat)

  const NoSummary := Summary("", 0, [], [], 0, false, 0)

  datatype RunResponse = RunResponse(summary: Summary, response: Option<HTTPResponse>)

  // ---- Specification ----

  function ContentOf(m: RunResponse): seq<byte> {
    match m.response
    case None => []
    case Some(r) => r.content
  }

  function Contents(ms: seq<RunResponse>): seq<byte> {
    if ms == [] then [] else ContentOf(ms[0]) + Contents(ms[1..])
  }

  lemma ContentsOfOne(m: RunResponse)
    ensures Contents([m]) == ContentOf(m)
  {
    assert [m][1..] == [];
  }

  lemma {:induction false} ContentsAppend(ms: seq<RunResponse>, m: RunResponse)
    ensures Contents(ms + [m]) == Contents(ms) + ContentOf(m)
  {
    if ms == [] {
      assert ms + [m] == [m] && [m][1..] == [];
    } else {
      assert (ms + [m])[1..] == ms[1..] + [m];
      ContentsAppend(ms[1..], m);
    }
  }

  /** A message that only continues the content. */
  predicate Continues(m: RunResponse) {
    && m.summary == NoSummary && m.response.Some? && m.response.value.header == NoHeader
    && 0 < |m.response.value.content| <= ChunkSize
  }

  /** What sendResponse sends for a result, apart from where it cuts the content. */
  ghost predicate Sends(ms: seq<RunResponse>, summary: Summary, response: Option<HTTPResponse>) {
    && ms != [] && ms[0].summary == summary && (ms[0].response.Some? <==> response.Some?)
    && (response.Some? ==> ms[0].response.value.header == response.value.header)
    && |ContentOf(ms[0])| <= ChunkSize
    && (forall i: nat :: 0 < i < |ms| ==> Continues(ms[i]))
    && Contents(ms) == (if response.Some? then response.value.content else [])
    && (forall i: nat :: i + 1 < |ms| ==> |ContentOf(ms[i])| == ChunkSize)
  }

  lemma CutAssociate(a: seq<byte>, b: seq<byte>, n: nat)
    requires n <= |b|
    ensures a + b == a + b[..n] + b[n..]
  {
  }

  // ---- Server.sendResponse ----

  method SendResponse(summary: Summary, response: Option<HTTPResponse>) returns (responses: seq<RunResponse>)
    ensures Sends(responses, summary, response)
  {
    hide Contents;
    var httpResponse := response;
    var content: seq<byte> := [];
    if response.Some? && |response.value.content| > ChunkSize {
      httpResponse := Some(response.value.(content := response.value.content[..ChunkSize]));
      content := response.value.content[ChunkSize..];
    }
    var first := RunResponse(summary, httpResponse);
    responses := [first];
    ghost var whole := if response.Some? then response.value.content else [];
    ContentsOfOne(first);
    assert Contents(responses) + content == whole;
    while |content| > 0
      invariant responses != [] && responses[0] == first
      invariant forall i: nat :: 0 < i < |responses| ==> Continues(responses[i])
      invariant Contents(responses) + content == whole
      invariant forall i: nat :: i + 1 < |responses| ==> |ContentOf(responses[i])| == ChunkSize
      invariant content != [] ==> |ContentOf(responses[|responses| - 1])| == ChunkSize
    {
      var cut := ChunkSize;
      if |content| < ChunkSize {
        cut := |content|;
      }
      var m := RunResponse(NoSummary, Some(HTTPResponse(NoHeader, content[..cut])));
      ContentsAppend(responses, m);
      CutAssociate(Contents(responses), content, cut);
      responses := responses + [m];
      content := content[cut..];
    }
    assert Contents(responses) + [] == Contents(responses);
  }

  // ---- Server.processResponse ----

  /** A nil response is dereferenced. */
  datatype Reply = Result(result: RunResponse) | NothingReceived | NilDereference

  ghost predicate Joins(ms: seq<RunResponse>, r: Reply) {
    match r
    case NothingReceived => ms == []
    case NilDereference => |ms| > 1 && exists m :: m in ms && m.response.None?
    case Result(result) =>
      && ms != [] && result.summary == ms[0].summary
      && (result.response.Some? <==> ms[0].response.Some?)
      && (result.response.Some? ==>
            result.response.value == HTTPResponse(ms[0].response.value.header, Contents(ms)))
      && (|ms| > 1 ==> forall m :: m in ms ==> m.response.Some?)
  }

  /** `ms` are the messages received before the stream ended or broke. */
  method ProcessResponse(ms: seq<RunResponse>) returns (r: Reply)
    ensures Joins(ms, r)
  {
    hide Contents;
    if |ms| == 0 { return NothingReceived; }
    var result := ms[0];
    assert ms[..1] == [ms[0]];
    ContentsOfOne(ms[0]);
    var i := 1;
    while i < |ms|
      invariant 1 <= i <= |ms| && result.summary == ms[0].summary
      invariant result.response.Some? <==> ms[0].response.Some?
      invariant result.response.Some? ==>
                  result.response.value == HTTPResponse(ms[0].response.value.header, Contents(ms[..i]))
      invariant i > 1 ==> forall k: nat :: k < i ==> ms[k].response.Some?
    {
      var chunk := ms[i];
      if result.response.None? {
        assert ms[0] in ms;
        return NilDereference;
      }
      if chunk.response.None? {
        assert chunk in ms;
        return NilDereference;
      }
      assert ms[..i + 1] == ms[..i] + [chunk];
      ContentsAppend(ms[..i], chunk);
      var content := result.response.value.content + chunk.response.value.content;
      result := result.(response := Some(result.response.value.(content := content)));
      i := i + 1;
    }
    assert ms[..|ms|] == ms;
    r := Result(result);
  }

  // ---- Round trip ----

  /** The broker ends up with the summary and the response of the worker, of whatever size. */
  lemma RoundTrip(ms: seq<RunResponse>, summary: Summary, response: Option<HTTPResponse>, r: Reply)
    requires Sends(ms, summary, response) && Joins(ms, r)
    ensures r == Result(RunResponse(summary, response))
  {
    OneWithoutResponse(ms, summary, response);
    if |ms| > 1 {
      forall m | m in ms ensures m.response.Some? {
        var i: nat :| i < |ms| && ms[i] == m;
        if i > 0 { assert Continues(ms[i]); }
      }
    }
  }

  lemma ContentsNonEmpty(ms: seq<RunResponse>)
    requires |ms| > 1 && ContentOf(ms[1]) != []
    ensures Contents(ms) != []
  {
    assert Contents(ms) == ContentOf(ms[0]) + (ContentOf(ms[1]) + Contents(ms[1..][1..]));
  }

  lemma OneWithoutResponse(ms: seq<RunResponse>, summary: Summary, response: Option<HTTPResponse>)
    requires Sends(ms, summary, response)
    ensures |ms| > 1 ==> response.Some?
  {
    if |ms| > 1 {
      assert Continues(ms[1]);
      ContentsNonEmpty(ms);
    }
  }

  /** When the stream breaks early the broker has a prefix of the content, never other bytes. */
  lemma BrokenReply(ms: seq<RunResponse>, summary: Summary, response: Option<HTTPResponse>, n: nat, r: Reply)
    requires Sends(ms, summary, response) && 0 < n <= |ms| && Joins(ms[..n], r)
    ensures r.Result? && r.result.summary == summary
    ensures response.Some? ==> r.result.response.Some? && r.result.response.value.content <= response.value.content
  {
    OneWithoutResponse(ms, summary, response);
    forall m | m in ms[..n] && n > 1 ensures m.response.Some? {
      var i: nat :| i < n && ms[..n][i] == m;
      if i > 0 { assert Continues(ms[i]); }
    }
    ContentsPrefix(ms, n);
  }

  lemma {:induction false} ContentsPrefix(ms: seq<RunResponse>, n: nat)
    requires n <= |ms|
    ensures Contents(ms[..n]) <= Contents(ms)
  {
    if n > 0 {
      assert ms[..n][1..] == ms[1..][..n - 1];
      ContentsPrefix(ms[1..], n - 1);
    }
  }

  lemma {:induction false} ContentsLength(ms: seq<RunResponse>)
    requires forall i: nat :: i + 1 < |ms| ==> |ContentOf(ms[i])| == ChunkSize
    requires ms != []
    ensures |Contents(ms)| == (|ms| - 1) * ChunkSize + |ContentOf(ms[|ms| - 1])|
  {
    if |ms| == 1 {
      assert ms[1..] == [];
    } else {
      var rest := ms[1..];
      assert |ContentOf(ms[0])| == ChunkSize;
      forall i: nat | i + 1 < |rest| ensures |ContentOf(rest[i])| == ChunkSize {
        assert rest[i] == ms[i + 1];
      }
      hide ContentOf;
      ContentsLength(rest);
      assert rest[|rest| - 1] == ms[|ms| - 1];
      assert Contents(ms) == ContentOf(ms[0]) + Contents(rest);
    }
  }

  /** No more messages than the content needs: ceil(length / ChunkSize), and one for an empty content. */
  lemma MessageCount(ms: seq<RunResponse>, summary: Summary, response: Option<HTTPResponse>)
    requires Sends(ms, summary, response)
    ensures var n := |if response.Some? then response.value.content else []|;
            |ms| == if n == 0 then 1 else (n + ChunkSize - 1) / ChunkSize
  {
    ContentsLength(ms);
    var last := |ContentOf(ms[|ms| - 1])|;
    if |ms| > 1 {
      assert Continues(ms[|ms| - 1]);
    }
    var n := |Contents(ms)|;
    assert n == (|ms| - 1) * ChunkSize + last && last <= ChunkSize;
    if n > 0 {
      assert (n + ChunkSize - 1) / ChunkSize == |ms|;
    }
  }
}
