/**
 The output of a run: ConnectionContext.sendResponse of node.js multiplexes the exit code, the two
 streams and an optional response; Result.Parse of result.go takes them apart again.  JSON is an opaque
 codec and the validation of a response is a parameter.
 */
module ResultStream {
  import opened Bytes
  import opened Wrappers

  /** HTTPResponse without its content. */
  datatype Head = Head(statusCode: int, contentType: string, headers: map<string, string>)

  datatype HTTPResponse = HTTPResponse(head: Head, content: seq<byte>)

  /** Codec, validation and texts. */
  datatype Rules = Rules(stringify: Head -> seq<byte>, parse: seq<byte> -> Option<Head>, valid: Head -> bool,
                         texts: Texts)

  ghost predicate Inverse(rules: Rules) {
    forall h: Head :: rules.parse(rules.stringify(h)) == Some(h)
  }

  const StreamStdout: byte := 0
  const StreamStderr: byte := 1
  const StreamResponse: byte := 2

  /** The texts that replace stderr. */
  datatype Texts = Texts(incorrectData: seq<byte>, limitReached: seq<byte>, responseValidationError: seq<byte>)

  /** What errors.Is tells Parse about the error of the run. */
  datatype ProcessErr = NoError | DeadlineExceeded | LimitReached | Other

  /** Returning nil, returning ErrIncorrectData, or a slice bounds panic. */
  datatype Outcome = Ok | IncorrectData | Panicked

  /** The fields of Result that Parse assigns. */
  datatype Fields = Fields(code: int, stdout: seq<byte>, stderr: seq<byte>, response: Option<HTTPResponse>)

  datatype Parsed = Parsed(outcome: Outcome, fields: Fields, rest: seq<byte>)

  // ---- Result.Parse ----

  /** Result.parseData: dataLen+5 is computed in 32 bits. */
  function ParseFrame(rules: Rules, f: Fields, data: seq<byte>): (p: Parsed)
    ensures p.outcome == Ok ==> |p.rest| < |data|
  {
    if |data| < 5 then Parsed(IncorrectData, f, [])
    else
      var end := AddUint32(ReadLE32(data, 1), 5);
      if |data| < end then Parsed(IncorrectData, f, [])
      else if end < 5 then Parsed(Panicked, f, [])
      else Dispatch(rules, f, data[0], data[5..end], data[end..])
  }

  function Dispatch(rules: Rules, f: Fields, typ: byte, output: seq<byte>, newData: seq<byte>): (p: Parsed)
    ensures p.outcome == Ok ==> |p.rest| <= |newData|
  {
    if typ == StreamStdout then Parsed(Ok, f.(stdout := output), newData)
    else if typ == StreamStderr then Parsed(Ok, f.(stderr := output), newData)
    else if typ != StreamResponse then Parsed(IncorrectData, f, [])
    else
      match rules.parse(output)
      case None => Parsed(IncorrectData, f, [])
      case Some(head) =>
        if rules.valid(head) then Parsed(Ok, f.(response := Some(HTTPResponse(head, newData))), [])
        else Parsed(Ok, f.(stderr := rules.texts.responseValidationError, code := 1), newData)
  }

  function ParseFrames(rules: Rules, f: Fields, data: seq<byte>): Parsed
    decreases |data|
  {
    if data == [] then Parsed(Ok, f, [])
    else
      var p := ParseFrame(rules, f, data);
      match p.outcome
      case Ok => ParseFrames(rules, p.fields, p.rest)
      case IncorrectData => Parsed(IncorrectData, p.fields.(stderr := rules.texts.incorrectData, code := 1), [])
      case Panicked => p
  }

  function Start(rules: Rules, f: Fields, data: seq<byte>, processErr: ProcessErr): Fields {
    if processErr == NoError && data != [] then f.(code := data[0])
    else if processErr == DeadlineExceeded then f.(code := 124)
    else if processErr == LimitReached then f.(stderr := rules.texts.limitReached, code := 1)
    else f.(code := 1)
  }

  function Trim(rules: Rules, f: Fields, max: nat): Fields {
    if |f.stdout| + |f.stderr| <= max then f
    else f.(stdout := if max < |f.stdout| then f.stdout[..max] else f.stdout,
            stderr := rules.texts.limitReached, code := 1)
  }

  function ParseAll(rules: Rules, f: Fields, data: seq<byte>, max: nat, processErr: ProcessErr): Parsed {
    var p := ParseFrames(rules, Start(rules, f, data, processErr), if data == [] then [] else data[1..]);
    if p.outcome == Panicked then p else Parsed(p.outcome, Trim(rules, p.fields, max), [])
  }

  class Result {
    var Code: int
    var Stdout: seq<byte>
    var Stderr: seq<byte>
    var Response: Option<HTTPResponse>

    constructor ()
      ensures Now() == Fresh()
    {
      Code, Stdout, Stderr, Response := 0, [], [], None;
    }

    ghost function Now(): Fields
      reads this
    {
      Fields(Code, Stdout, Stderr, Response)
    }

    /** Result.parseData */
    method ParseData(rules: Rules, data: seq<byte>) returns (rest: seq<byte>, outcome: Outcome)
      modifies this
      ensures Parsed(outcome, Now(), rest) == ParseFrame(rules, old(Now()), data)
    {
      rest, outcome := [], IncorrectData;
      if |data| < 5 { return; }
      var typ, dataLen := data[0], ReadLE32(data, 1);
      var end := AddUint32(dataLen, 5);
      if |data| < end { return; }
      if end < 5 {
        outcome := Panicked;
        return;
      }
      var output, newData := data[5..end], data[end..];
      if typ == StreamStdout {
        Stdout := output;
      } else if typ == StreamStderr {
        Stderr := output;
      } else if typ == StreamResponse {
        var parsed := rules.parse(output);
        if parsed.None? { return; }
        var res := HTTPResponse(parsed.value, newData);
        if !rules.valid(res.head) {
          Stderr := rules.texts.responseValidationError;
          Code := 1;
          return newData, Ok;
        }
        Response := Some(res);
        newData := [];
      } else {
        return;
      }
      return newData, Ok;
    }

    /** Result.Parse */
    method Parse(rules: Rules, input: seq<byte>, streamMaxLength: nat, processErr: ProcessErr)
      returns (outcome: Outcome)
      modifies this
      ensures var p := ParseAll(rules, old(Now()), input, streamMaxLength, processErr);
              outcome == p.outcome && Now() == p.fields
    {
      hide ParseFrame;
      ghost var before := Now();
      if processErr == NoError && |input| > 0 {
        Code := input[0];
      } else if processErr == DeadlineExceeded {
        Code := 124;
      } else {
        if processErr == LimitReached {
          Stderr := rules.texts.limitReached;
        }
        Code := 1;
      }
      assert Now() == Start(rules, before, input, processErr);
      var rest := if |input| > 0 then input[1..] else [];
      ghost var whole := ParseFrames(rules, Now(), rest);
      outcome := Ok;
      while |rest| > 0 && outcome == Ok
        invariant outcome != Panicked
        invariant outcome == Ok ==> ParseFrames(rules, Now(), rest) == whole
        invariant outcome != Ok ==> outcome == whole.outcome && Now() == whole.fields
        decreases if outcome == Ok then 1 else 0, |rest|
      {
        rest, outcome := ParseData(rules, rest);
        if outcome == IncorrectData {
          Stderr := rules.texts.incorrectData;
          Code := 1;
        } else if outcome == Panicked {
          return;
        }
      }
      if |Stdout| + |Stderr| > streamMaxLength {
        if |Stdout| > streamMaxLength {
          Stdout := Stdout[..streamMaxLength];
        }
        Stderr := rules.texts.limitReached;
        Code := 1;
      }
    }
  }

  function Fresh(): Fields { Fields(0, [], [], None) }

  // ---- Bounds ----

  lemma {:induction false} FramesError(rules: Rules, f: Fields, data: seq<byte>)
    ensures var p := ParseFrames(rules, f, data);
            && (p.outcome == IncorrectData ==> p.fields.code == 1)
            && (f.response == None && p.fields.response != None ==> p.outcome == Ok)
    decreases |data|
  {
    if data != [] {
      var p := ParseFrame(rules, f, data);
      if p.outcome == Ok {
        if p.fields.response == f.response {
          FramesError(rules, p.fields, p.rest);
        }
      }
    }
  }

  /** Whatever the script wrote, the streams handed on stay within the limit and an error is visible in Code. */
  lemma Bounded(rules: Rules, f: Fields, data: seq<byte>, max: nat, processErr: ProcessErr)
    requires f.response == None
    ensures var p := ParseAll(rules, f, data, max, processErr);
            p.outcome != Panicked ==>
              && |p.fields.stdout| <= max
              && (|p.fields.stdout| + |p.fields.stderr| <= max
                  || (p.fields.stderr == rules.texts.limitReached && p.fields.code == 1))
              && (p.outcome == IncorrectData ==> p.fields.code == 1)
              && (p.fields.response != None ==> p.outcome == Ok)
  {
    hide ParseFrame, ParseFrames;
    FramesError(rules, Start(rules, f, data, processErr), if data == [] then [] else data[1..]);
  }

  // ---- What Parse accepts ----

  datatype Frame = Frame(typ: byte, content: seq<byte>)

  datatype Reply = Reply(json: seq<byte>, content: seq<byte>)

  /** Frames, and possibly a response that swallows everything after it. */
  datatype Message = Message(frames: seq<Frame>, reply: Option<Reply>)

  function FrameBytes(fr: Frame): seq<byte> {
    [fr.typ] + LE32(|fr.content|) + fr.content
  }

  function FramesBytes(frames: seq<Frame>): seq<byte> {
    if frames == [] then [] else FrameBytes(frames[0]) + FramesBytes(frames[1..])
  }

  function ReplyBytes(reply: Option<Reply>): seq<byte> {
    match reply
    case None => []
    case Some(r) => FrameBytes(Frame(StreamResponse, r.json)) + r.content
  }

  function MessageBytes(m: Message): seq<byte> { FramesBytes(m.frames) + ReplyBytes(m.reply) }

  predicate Fits(content: seq<byte>) { |content| + 5 < TwoTo32 }

  predicate Accepted(rules: Rules, json: seq<byte>) { rules.parse(json).Some? && rules.valid(rules.parse(json).value) }

  /** A frame after which parsing goes on. */
  predicate Passes(rules: Rules, fr: Frame) {
    && Fits(fr.content)
    && (fr.typ == StreamStdout || fr.typ == StreamStderr
        || (fr.typ == StreamResponse && rules.parse(fr.content).Some? && !Accepted(rules, fr.content)))
  }

  predicate AllPass(rules: Rules, frames: seq<Frame>) {
    frames == [] || (Passes(rules, frames[0]) && AllPass(rules, frames[1..]))
  }

  predicate WellFormed(rules: Rules, m: Message) {
    AllPass(rules, m.frames) && (m.reply.None? || (Fits(m.reply.value.json) && Accepted(rules, m.reply.value.json)))
  }

  function Effect(rules: Rules, f: Fields, fr: Frame): Fields {
    if fr.typ == StreamStdout then f.(stdout := fr.content)
    else if fr.typ == StreamStderr then f.(stderr := fr.content)
    else f.(stderr := rules.texts.responseValidationError, code := 1)
  }

  function Effects(rules: Rules, f: Fields, frames: seq<Frame>): Fields
    decreases |frames|
  {
    if frames == [] then f else Effects(rules, Effect(rules, f, frames[0]), frames[1..])
  }

  function Meaning(rules: Rules, f: Fields, m: Message): Fields
    requires WellFormed(rules, m)
  {
    var g := Effects(rules, f, m.frames);
    match m.reply
    case None => g
    case Some(r) => g.(response := Some(HTTPResponse(rules.parse(r.json).value, r.content)))
  }

  ghost predicate Spells(rules: Rules, m: Message, data: seq<byte>) {
    WellFormed(rules, m) && MessageBytes(m) == data
  }

  /** Where a declared length makes dataLen+5 wrap around. */
  datatype Overflow = Overflow(frames: seq<Frame>, typ: byte, declared: nat, tail: seq<byte>)

  ghost predicate SpellsOverflow(rules: Rules, o: Overflow, data: seq<byte>) {
    && AllPass(rules, o.frames)
    && TwoTo32 - 5 <= o.declared < TwoTo32
    && data == FramesBytes(o.frames) + ([o.typ] + LE32(o.declared) + o.tail)
  }

  lemma FrameSplit(fr: Frame, rest: seq<byte>)
    requires Fits(fr.content)
    ensures var data, n := FrameBytes(fr) + rest, |fr.content|;
            && |data| == 5 + n + |rest| && data[0] == fr.typ && ReadLE32(data, 1) == n
            && data[5..n + 5] == fr.content && data[n + 5..] == rest
  {
    hide LE32, ReadLE32;
    var n := |fr.content|;
    var prefix := [fr.typ] + LE32(n);
    ReadWrite(n, [fr.typ], fr.content + rest);
    assert FrameBytes(fr) + rest == prefix + (fr.content + rest);
    CutTwice(prefix, fr.content, rest);
  }

  lemma CutTwice(a: seq<byte>, b: seq<byte>, c: seq<byte>)
    ensures var s := a + (b + c); s[|a|..|b| + |a|] == b && s[|b| + |a|..] == c
  {
  }

  lemma ParseFrameBytes(rules: Rules, f: Fields, fr: Frame, rest: seq<byte>)
    requires Fits(fr.content)
    ensures ParseFrame(rules, f, FrameBytes(fr) + rest) == Dispatch(rules, f, fr.typ, fr.content, rest)
  {
    hide Dispatch, FrameBytes, ReadLE32;
    FrameSplit(fr, rest);
  }

  lemma PassStep(rules: Rules, f: Fields, fr: Frame, rest: seq<byte>)
    requires Passes(rules, fr)
    ensures ParseFrames(rules, f, FrameBytes(fr) + rest) == ParseFrames(rules, Effect(rules, f, fr), rest)
  {
    hide ParseFrame;
    ParseFrameBytes(rules, f, fr, rest);
    assert FrameBytes(fr) + rest != [];
  }

  lemma {:induction false} SkipFrames(rules: Rules, f: Fields, frames: seq<Frame>, tail: seq<byte>)
    requires AllPass(rules, frames)
    ensures ParseFrames(rules, f, FramesBytes(frames) + tail) == ParseFrames(rules, Effects(rules, f, frames), tail)
    decreases |frames|
  {
    hide ParseFrames, FrameBytes, Passes, Effect;
    if frames == [] {
      assert FramesBytes(frames) + tail == tail;
    } else {
      var rest := FramesBytes(frames[1..]);
      assert FramesBytes(frames) + tail == FrameBytes(frames[0]) + (rest + tail);
      PassStep(rules, f, frames[0], rest + tail);
      SkipFrames(rules, Effect(rules, f, frames[0]), frames[1..], tail);
    }
  }

  lemma ReplyStep(rules: Rules, f: Fields, r: Reply)
    requires Fits(r.json) && Accepted(rules, r.json)
    ensures ParseFrames(rules, f, ReplyBytes(Some(r))) ==
            Parsed(Ok, f.(response := Some(HTTPResponse(rules.parse(r.json).value, r.content))), [])
  {
    hide ParseFrame;
    ParseFrameBytes(rules, f, Frame(StreamResponse, r.json), r.content);
    assert ReplyBytes(Some(r)) != [];
  }

  /** A well-formed message is accepted and means what its frames say. */
  lemma ParseMessage(rules: Rules, f: Fields, m: Message)
    requires WellFormed(rules, m)
    ensures ParseFrames(rules, f, MessageBytes(m)) == Parsed(Ok, Meaning(rules, f, m), [])
  {
    hide AllPass, Effects, FramesBytes;
    SkipFrames(rules, f, m.frames, ReplyBytes(m.reply));
    if m.reply.Some? {
      hide ParseFrames, ReplyBytes;
      ReplyStep(rules, Effects(rules, f, m.frames), m.reply.value);
    }
  }

  lemma OverflowStep(rules: Rules, f: Fields, typ: byte, declared: nat, tail: seq<byte>)
    requires TwoTo32 - 5 <= declared < TwoTo32
    ensures ParseFrames(rules, f, [typ] + LE32(declared) + tail) == Parsed(Panicked, f, [])
  {
    var data := [typ] + LE32(declared) + tail;
    ReadWrite(declared, [typ], tail);
    assert 5 <= |data| && ReadLE32(data, 1) == declared;
    hide Dispatch, LE32, ReadLE32;
  }

  lemma ReadFrame(data: seq<byte>) returns (fr: Frame, rest: seq<byte>)
    requires 5 <= |data| && ReadLE32(data, 1) + 5 < TwoTo32 && ReadLE32(data, 1) + 5 <= |data|
    ensures Fits(fr.content) && fr.typ == data[0] && fr.content == data[5..ReadLE32(data, 1) + 5]
    ensures data == FrameBytes(fr) + rest && |rest| < |data|
  {
    hide LE32;
    var n := ReadLE32(data, 1);
    fr, rest := Frame(data[0], data[5..n + 5]), data[n + 5..];
    ReadBack(data, 1);
    assert FrameBytes(fr) + rest == [data[0]] + data[1..5] + data[5..n + 5] + data[n + 5..];
  }

  /** Why parsing stops in front of `tail`. */
  ghost predicate Stops(rules: Rules, tail: seq<byte>) {
    || tail == []
    || |tail| < 5
    || TwoTo32 <= ReadLE32(tail, 1) + 5
    || |tail| < ReadLE32(tail, 1) + 5
    || var fr := Frame(tail[0], tail[5..ReadLE32(tail, 1) + 5]); !Passes(rules, fr)
  }

  /** Every input is a run of frames that pass followed by a place where parsing stops. */
  lemma {:induction false} Decompose(rules: Rules, data: seq<byte>) returns (frames: seq<Frame>, tail: seq<byte>)
    ensures AllPass(rules, frames) && data == FramesBytes(frames) + tail && Stops(rules, tail)
    decreases |data|
  {
    hide Passes, FrameBytes;
    if Stops(rules, data) {
      frames, tail := [], data;
    } else {
      var fr, rest := ReadFrame(data);
      frames, tail := Decompose(rules, rest);
      var more := frames;
      frames := [fr] + more;
      assert frames[1..] == more;
      assert data == FrameBytes(fr) + (FramesBytes(more) + tail);
    }
  }

  /** What happens where parsing stops, unless the response is a good one. */
  lemma StoppedOutcome(rules: Rules, f: Fields, tail: seq<byte>)
    requires Stops(rules, tail) && tail != []
    ensures |tail| < 5 ==> ParseFrames(rules, f, tail).outcome == IncorrectData
    ensures 5 <= |tail| && TwoTo32 <= ReadLE32(tail, 1) + 5 ==> ParseFrames(rules, f, tail).outcome == Panicked
    ensures 5 <= |tail| && |tail| < ReadLE32(tail, 1) + 5 < TwoTo32 ==>
              ParseFrames(rules, f, tail).outcome == IncorrectData
    ensures 5 <= |tail| && ReadLE32(tail, 1) + 5 < TwoTo32 && ReadLE32(tail, 1) + 5 <= |tail|
              && !(tail[0] == StreamResponse && Accepted(rules, tail[5..ReadLE32(tail, 1) + 5])) ==>
              ParseFrames(rules, f, tail).outcome == IncorrectData
    ensures 5 <= |tail| && ReadLE32(tail, 1) + 5 < TwoTo32 ==> ParseFrames(rules, f, tail).outcome != Panicked
  {
    hide Effect, ReadLE32;
  }

  /**
   Parse returns nil on exactly the inputs that spell a well-formed message, and what it leaves in the
   result is the meaning of that message.
   */
  lemma AcceptsExactly(rules: Rules, f: Fields, data: seq<byte>)
    ensures ParseFrames(rules, f, data).outcome == Ok <==> exists m :: Spells(rules, m, data)
    ensures forall m :: Spells(rules, m, data) ==> ParseFrames(rules, f, data).fields == Meaning(rules, f, m)
  {
    forall m | Spells(rules, m, data)
      ensures ParseFrames(rules, f, data) == Parsed(Ok, Meaning(rules, f, m), [])
    {
      ParseMessage(rules, f, m);
    }
    if ParseFrames(rules, f, data).outcome == Ok {
      var m := Spelling(rules, f, data);
      assert Spells(rules, m, data);
    }
  }

  lemma Spelling(rules: Rules, f: Fields, data: seq<byte>) returns (m: Message)
    requires ParseFrames(rules, f, data).outcome == Ok
    ensures Spells(rules, m, data)
  {
    hide ParseFrames, FrameBytes, Effects;
    var frames, tail := Decompose(rules, data);
    SkipFrames(rules, f, frames, tail);
    if tail == [] {
      m := Message(frames, None);
    } else {
      StoppedOutcome(rules, Effects(rules, f, frames), tail);
      var fr, rest := ReadFrame(tail);
      m := Message(frames, Some(Reply(fr.content, rest)));
    }
  }

  /** Parse panics on exactly the inputs in which a frame that is reached declares 2^32-5 bytes or more. */
  lemma PanicsExactly(rules: Rules, f: Fields, data: seq<byte>)
    ensures ParseFrames(rules, f, data).outcome == Panicked <==> exists o :: SpellsOverflow(rules, o, data)
  {
    forall o | SpellsOverflow(rules, o, data)
      ensures ParseFrames(rules, f, data).outcome == Panicked
    {
      SkipFrames(rules, f, o.frames, [o.typ] + LE32(o.declared) + o.tail);
      OverflowStep(rules, Effects(rules, f, o.frames), o.typ, o.declared, o.tail);
    }
    if ParseFrames(rules, f, data).outcome == Panicked {
      var o := OverflowIn(rules, f, data);
      assert SpellsOverflow(rules, o, data);
    }
  }

  lemma OverflowIn(rules: Rules, f: Fields, data: seq<byte>) returns (o: Overflow)
    requires ParseFrames(rules, f, data).outcome == Panicked
    ensures SpellsOverflow(rules, o, data)
  {
    hide FrameBytes, Effects, LE32, Passes;
    var frames, tail := Decompose(rules, data);
    SkipFrames(rules, f, frames, tail);
    StoppedOutcome(rules, Effects(rules, f, frames), tail);
    ReadBack(tail, 1);
    o := Overflow(frames, tail[0], ReadLE32(tail, 1), tail[5..]);
    assert tail == [tail[0]] + tail[1..5] + tail[5..];
  }

  // ---- ConnectionContext.sendResponse ----

  /** String.fromCharCode: an undefined or null code is 0, a number is taken modulo 2^16. */
  function CharCode(exitCode: Option<int>): (u: nat)
    ensures u < 0x1_0000
  {
    if exitCode.None? then 0 else exitCode.value % 0x1_0000
  }

  /** A one-character string written to a socket: UTF-8, with U+FFFD for half of a surrogate pair. */
  function Utf8(u: nat): (s: seq<byte>)
    requires u < 0x1_0000
    ensures s != []
  {
    if u < 0x80 then [u]
    else if u < 0x800 then [0xC0 + u / 64, 0x80 + u % 64]
    else if 0xD800 <= u < 0xE000 then [0xEF, 0xBF, 0xBD]
    else [0xE0 + u / 4096, 0x80 + u / 64 % 64, 0x80 + u % 64]
  }

  /** What a run leaves for sendResponse; the texts are given by their bytes. */
  datatype RunOutput = RunOutput(exitCode: Option<int>, stdout: seq<byte>, stderr: seq<byte>,
                                 response: Option<HTTPResponse>)

  function StreamBytes(typ: byte, content: seq<byte>): seq<byte> {
    if content == [] then [] else FrameBytes(Frame(typ, content))
  }

  function ResponseBytes(rules: Rules, response: Option<HTTPResponse>): seq<byte> {
    match response
    case None => []
    case Some(r) => FrameBytes(Frame(StreamResponse, rules.stringify(r.head))) + r.content
  }

  function OutputBytes(rules: Rules, out: RunOutput): seq<byte> {
    Utf8(CharCode(out.exitCode)) +
    (StreamBytes(StreamStdout, out.stdout)
     + (StreamBytes(StreamStderr, out.stderr) + ResponseBytes(rules, out.response)))
  }

  /** writeUInt32LE takes the length. */
  predicate Writable(content: seq<byte>) { |content| < TwoTo32 }

  predicate AllWritable(rules: Rules, out: RunOutput) {
    && Writable(out.stdout) && Writable(out.stderr)
    && (out.response.Some? ==> Writable(rules.stringify(out.response.value.head)))
  }

  class ConnectionContext {
    var written: seq<byte>
    var ended: bool
    var exitCode: Option<int>

    constructor ()
      ensures written == [] && !ended && exitCode == None
    {
      written, ended, exitCode := [], false, None;
    }

    /** sendData; `threw` is the RangeError of writeUInt32LE. */
    method SendData(typ: byte, data: seq<byte>) returns (threw: bool)
      modifies this`written
      ensures threw == !Writable(data)
      ensures written == if threw then old(written) else old(written) + FrameBytes(Frame(typ, data))
    {
      if |data| >= TwoTo32 { return true; }
      var len := LE32(|data|);
      written := written + [typ];
      written := written + len;
      written := written + data;
      assert old(written) + [typ] + len + data == old(written) + ([typ] + len + data);
      threw := false;
    }

    method SendResponse(rules: Rules, out: RunOutput, final: bool, asyncMode: bool) returns (threw: bool)
      modifies this
      ensures !final && !asyncMode ==> written == old(written) && ended == old(ended) && !threw
      ensures final || asyncMode ==>
                && threw == !AllWritable(rules, out)
                && (!threw ==> ended && written == old(written) + OutputBytes(rules, SentBy(old(exitCode), out)))
    {
      hide FrameBytes, Utf8, CharCode, LE32;
      threw := false;
      if !final && !asyncMode { return; }
      var code := out.exitCode;
      if exitCode != None {
        code := exitCode;
      }
      ghost var before, head := written, Utf8(CharCode(code));
      ghost var a, b, c := StreamBytes(StreamStdout, out.stdout), StreamBytes(StreamStderr, out.stderr),
        ResponseBytes(rules, out.response);
      written := written + Utf8(CharCode(code));
      if |out.stdout| != 0 {
        threw := SendData(StreamStdout, out.stdout);
        if threw { return; }
      }
      assert written == before + head + a by { NothingMore(before + head); }
      if |out.stderr| != 0 {
        threw := SendData(StreamStderr, out.stderr);
        if threw { return; }
      }
      assert written == before + head + a + b by { NothingMore(before + head + a); }
      if out.response.Some? {
        threw := SendData(StreamResponse, rules.stringify(out.response.value.head));
        if threw { return; }
        written := written + out.response.value.content;
        Associate(before + head + a + b, FrameBytes(Frame(StreamResponse, rules.stringify(out.response.value.head))),
                  out.response.value.content);
      }
      assert written == before + head + a + b + c by { NothingMore(before + head + a + b); }
      Regroup(before, head, a, b, c);
      ended := true;
    }
  }

  /** A code set on the connection wins over process.exitCode. */
  function SentBy(exitCode: Option<int>, out: RunOutput): RunOutput {
    if exitCode == None then out else out.(exitCode := exitCode)
  }

  lemma NothingMore(a: seq<byte>)
    ensures a + [] == a
  {
  }

  lemma Associate(a: seq<byte>, b: seq<byte>, c: seq<byte>)
    ensures a + b + c == a + (b + c)
  {
  }

  lemma Regroup(before: seq<byte>, head: seq<byte>, a: seq<byte>, b: seq<byte>, c: seq<byte>)
    ensures before + head + a + b + c == before + (head + (a + (b + c)))
  {
  }

  // ---- Round trip ----

  function StreamFrame(typ: byte, content: seq<byte>): seq<Frame> {
    if content == [] then [] else [Frame(typ, content)]
  }

  function MessageOf(rules: Rules, out: RunOutput): Message {
    Message(StreamFrame(StreamStdout, out.stdout) + StreamFrame(StreamStderr, out.stderr),
            if out.response.None? then None
            else Some(Reply(rules.stringify(out.response.value.head), out.response.value.content)))
  }

  predicate Sendable(rules: Rules, out: RunOutput) {
    && Fits(out.stdout) && Fits(out.stderr)
    && (out.response.Some? ==> Fits(rules.stringify(out.response.value.head)) && rules.valid(out.response.value.head))
  }

  lemma MessageOfBytes(rules: Rules, out: RunOutput)
    ensures MessageBytes(MessageOf(rules, out)) ==
            StreamBytes(StreamStdout, out.stdout)
            + (StreamBytes(StreamStderr, out.stderr) + ResponseBytes(rules, out.response))
  {
    hide FrameBytes;
    var a, b := StreamFrame(StreamStdout, out.stdout), StreamFrame(StreamStderr, out.stderr);
    var c := ResponseBytes(rules, out.response);
    assert FramesBytes(b) == StreamBytes(StreamStderr, out.stderr) by {
      if b != [] { assert b[1..] == []; }
    }
    assert FramesBytes(a + b) == StreamBytes(StreamStdout, out.stdout) + FramesBytes(b) by {
      if a == [] { assert a + b == b; } else { assert (a + b)[1..] == b; }
    }
  }

  lemma StreamEffect(rules: Rules, f: Fields, typ: byte, content: seq<byte>, more: seq<Frame>)
    requires Fits(content) && (typ == StreamStdout || typ == StreamStderr)
    ensures var fs := StreamFrame(typ, content) + more;
            && AllPass(rules, fs) == AllPass(rules, more)
            && Effects(rules, f, fs) ==
              Effects(rules, if content == [] then f else Effect(rules, f, Frame(typ, content)), more)
  {
    if content == [] {
      assert StreamFrame(typ, content) + more == more;
    } else {
      assert (StreamFrame(typ, content) + more)[1..] == more;
    }
  }

  lemma MessageOfMeaning(rules: Rules, out: RunOutput, f: Fields)
    requires Inverse(rules) && Sendable(rules, out) && f.stdout == [] && f.stderr == []
    ensures var m := MessageOf(rules, out);
            && WellFormed(rules, m)
            && Meaning(rules, f, m) == f.(stdout := out.stdout, stderr := out.stderr,
                                          response := if out.response.None? then f.response else out.response)
  {
    var a, b := StreamFrame(StreamStdout, out.stdout), StreamFrame(StreamStderr, out.stderr);
    if out.response.Some? {
      assert rules.parse(rules.stringify(out.response.value.head)) == Some(out.response.value.head);
    }
    StreamEffect(rules, f, StreamStdout, out.stdout, b);
    StreamEffect(rules, f.(stdout := out.stdout), StreamStderr, out.stderr, []);
    assert b + [] == b;
  }

  /**
   For every output with an exit code whose character is ASCII, Parse returns what sendResponse wrote, cut
   to the limit.
   */
  lemma RoundTrip(rules: Rules, out: RunOutput, max: nat)
    requires Inverse(rules) && Sendable(rules, out) && CharCode(out.exitCode) < 128
    ensures ParseAll(rules, Fresh(), OutputBytes(rules, out), max, NoError) ==
            Parsed(Ok, Trim(rules, Fields(CharCode(out.exitCode), out.stdout, out.stderr, out.response), max), [])
  {
    hide StreamBytes, ResponseBytes, ParseFrames, MessageBytes, MessageOf, WellFormed, Sendable, Inverse, Trim;
    var code := CharCode(out.exitCode);
    var f := Fresh().(code := code);
    var data, m := OutputBytes(rules, out), MessageOf(rules, out);
    assert Utf8(code) == [code];
    assert data[0] == code && Start(rules, Fresh(), data, NoError) == f;
    MessageOfBytes(rules, out);
    MessageOfMeaning(rules, out, f);
    ParseMessage(rules, f, m);
    assert data[1..] == MessageBytes(m);
  }

  /** The content of a response that fails validation is parsed as if it were more frames. */
  lemma RejectedResponse(rules: Rules, out: RunOutput, f: Fields)
    requires Inverse(rules) && out.response.Some? && !rules.valid(out.response.value.head)
    requires Fits(out.stdout) && Fits(out.stderr) && Fits(rules.stringify(out.response.value.head))
    requires f.stdout == [] && f.stderr == []
    ensures ParseFrames(rules, f, OutputBytes(rules, out)[|Utf8(CharCode(out.exitCode))|..]) ==
            ParseFrames(rules, f.(code := 1, stdout := out.stdout, stderr := rules.texts.responseValidationError),
                        out.response.value.content)
  {
    hide ParseFrames, Utf8, FrameBytes;
    var r := out.response.value;
    var json := rules.stringify(r.head);
    assert rules.parse(json) == Some(r.head);
    var plain := out.(response := None);
    var frames, last := MessageOf(rules, plain).frames, Frame(StreamResponse, json);
    MessageOfBytes(rules, plain);
    var a, b := StreamBytes(StreamStdout, out.stdout), StreamBytes(StreamStderr, out.stderr);
    assert FramesBytes(frames) == a + b by { assert a + (b + []) == a + b; }
    assert OutputBytes(rules, out)[|Utf8(CharCode(out.exitCode))|..] ==
        FramesBytes(frames) + (FrameBytes(last) + r.content);
    MessageOfMeaning(rules, plain, f);
    SkipFrames(rules, f, frames, FrameBytes(last) + r.content);
    PassStep(rules, Effects(rules, f, frames), last, r.content);
  }

  lemma Utf8Tail(u: nat)
    requires 128 <= u < 0x1_0000
    ensures var s := Utf8(u); 2 <= |s| <= 3 && 128 <= s[1] < 192 && (|s| == 3 ==> 128 <= s[2] < 192)
  {
  }

  /** A byte of a multi-byte character is not a stream type, and the length behind it cannot overflow. */
  lemma NotAFrame(rules: Rules, f: Fields, data: seq<byte>)
    requires data != [] && 128 <= data[0]
    requires 2 <= |data| ==> data[1] < 192
    ensures ParseFrames(rules, f, data) == Parsed(IncorrectData, f.(stderr := rules.texts.incorrectData, code := 1), [])
  {
    if 5 <= |data| {
      assert ReadLE32(data, 1) + 5 < TwoTo32;
    }
  }

  /** Any other exit code becomes a longer character, whose tail Parse takes for a malformed frame. */
  lemma WideCode(rules: Rules, out: RunOutput, max: nat)
    requires 128 <= CharCode(out.exitCode)
    ensures ParseAll(rules, Fresh(), OutputBytes(rules, out), max, NoError) ==
            Parsed(IncorrectData, Trim(rules, Fields(1, [], rules.texts.incorrectData, None), max), [])
  {
    hide ParseFrames, StreamBytes, ResponseBytes, Trim;
    var u := CharCode(out.exitCode);
    var data := OutputBytes(rules, out);
    Utf8Tail(u);
    var s, a, b, c := Utf8(u), StreamBytes(StreamStdout, out.stdout), StreamBytes(StreamStderr, out.stderr),
      ResponseBytes(rules, out.response);
    var rest := a + (b + c);
    FirstByte(rules, out, rest);
    assert data == s + rest && data[1] == s[1];
    NotAFrame(rules, Start(rules, Fresh(), data, NoError), data[1..]);
  }

  lemma FirstByte(rules: Rules, out: RunOutput, rest: seq<byte>)
    requires rest == StreamBytes(StreamStdout, out.stdout) +
                     (StreamBytes(StreamStderr, out.stderr) + ResponseBytes(rules, out.response))
    ensures rest != [] ==> rest[0] < 3
  {
    hide LE32;
    var b, c := StreamBytes(StreamStderr, out.stderr), ResponseBytes(rules, out.response);
    assert c != [] ==> c[0] == StreamResponse;
    assert b != [] ==> b[0] == StreamStderr;
    assert out.stdout == [] ==> rest == b + c;
    assert b == [] ==> b + c == c;
  }

  /** The exit code of a run survives if and only if it is one of 0..127 (within the output limit). */
  lemma ExitCodeSurvives(rules: Rules, out: RunOutput, code: int, max: nat)
    requires Inverse(rules) && Sendable(rules, out) && out.exitCode == Some(code)
    requires |out.stdout| + |out.stderr| <= max
    ensures ParseAll(rules, Fresh(), OutputBytes(rules, out), max, NoError).fields.code == code <==> 0 <= code < 128
  {
    hide ParseAll, OutputBytes, Sendable, Inverse;
    if CharCode(out.exitCode) < 128 {
      RoundTrip(rules, out, max);
    } else {
      WideCode(rules, out, max);
    }
  }
}
