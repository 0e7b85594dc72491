/**
 What Result.Parse leaves in the result, said of the data, the limit and the error of the run alone, and which exit
 code arrives.
 */
module ResultMeaning {
  import opened Bytes
  import opened Wrappers
  import opened ResultStream

  /** The content of the last stdout frame, if there is one. */
  function LastStdout(frames: seq<Frame>): seq<byte> {
    if frames == [] then []
    else
      var last := frames[|frames| - 1];
      if last.typ == StreamStdout then last.content else LastStdout(frames[..|frames| - 1])
  }

  /** What the last stderr frame, or the last response that failed validation, leaves in place of `initial`. */
  function LastStderr(texts: Texts, frames: seq<Frame>, initial: seq<byte>): seq<byte> {
    if frames == [] then initial
    else
      var last := frames[|frames| - 1];
      if last.typ == StreamStderr then last.content
      else if last.typ == StreamResponse then texts.responseValidationError
      else LastStderr(texts, frames[..|frames| - 1], initial)
  }

  /** Some response before the last failed validation. */
  predicate Rejects(frames: seq<Frame>) { exists fr :: fr in frames && fr.typ == StreamResponse }

  lemma {:induction false} EffectsLast(rules: Rules, f: Fields, frames: seq<Frame>, last: Frame)
    ensures Effects(rules, f, frames + [last]) == Effect(rules, Effects(rules, f, frames), last)
    decreases |frames|
  {
    hide Effect;
    if frames == [] {
      assert [] + [last] == [last] && [last][1..] == [];
    } else {
      assert (frames + [last])[1..] == frames[1..] + [last];
      EffectsLast(rules, Effect(rules, f, frames[0]), frames[1..], last);
    }
  }

  lemma {:induction false} AllPassIn(rules: Rules, frames: seq<Frame>, fr: Frame)
    requires AllPass(rules, frames) && fr in frames
    ensures fr.typ == StreamStdout || fr.typ == StreamStderr || fr.typ == StreamResponse
    decreases |frames|
  {
    if fr != frames[0] {
      assert fr in frames[1..];
      AllPassIn(rules, frames[1..], fr);
    }
  }

  /** The frames one after the other amount to the last of each kind. */
  lemma {:induction false} EffectsSay(rules: Rules, f: Fields, frames: seq<Frame>)
    requires forall fr :: fr in frames ==>
               fr.typ == StreamStdout || fr.typ == StreamStderr || fr.typ == StreamResponse
    requires f.stdout == []
    ensures Effects(rules, f, frames) ==
            f.(stdout := LastStdout(frames), stderr := LastStderr(rules.texts, frames, f.stderr),
               code := if Rejects(frames) then 1 else f.code)
    decreases |frames|
  {
    if frames != [] {
      var front, last := frames[..|frames| - 1], frames[|frames| - 1];
      assert frames == front + [last];
      assert forall fr :: fr in front ==> fr in frames;
      EffectsSay(rules, f, front);
      EffectsLast(rules, f, front, last);
      assert Rejects(frames) <==> Rejects(front) || last.typ == StreamResponse by { RejectsLast(front, last); }
    }
  }

  lemma RejectsLast(front: seq<Frame>, last: Frame)
    ensures Rejects(front + [last]) <==> Rejects(front) || last.typ == StreamResponse
  {
    if Rejects(front) {
      var fr :| fr in front && fr.typ == StreamResponse;
      assert fr in front + [last];
    }
    if last.typ == StreamResponse { assert last in front + [last]; }
  }

  /** The code of a run that wrote `data`, before its frames: the first byte, but only if the run had no error. */
  function FirstCode(data: seq<byte>, processErr: ProcessErr): int {
    match processErr
    case NoError => if data == [] then 1 else data[0]
    case DeadlineExceeded => 124
    case LimitReached => 1
    case Other => 1
  }

  function ResponseOf(rules: Rules, m: Message): Option<HTTPResponse>
    requires WellFormed(rules, m)
  {
    if m.reply.None? then None
    else Some(HTTPResponse(rules.parse(m.reply.value.json).value, m.reply.value.content))
  }

  lemma StartSays(rules: Rules, data: seq<byte>, processErr: ProcessErr)
    ensures Start(rules, Fresh(), data, processErr) ==
            Fields(FirstCode(data, processErr), [],
                   if processErr == LimitReached then rules.texts.limitReached else [], None)
  {
  }

  /**
   Parse of well-formed data.  Within the limit: the last stdout frame, the last stderr frame or text, and the code of
   the process error or the first byte, 1 if a response failed validation.  Above it: the longest prefix of stdout
   within the limit, the limit text and code 1.
   */
  lemma ParseSays(rules: Rules, m: Message, data: seq<byte>, max: nat, processErr: ProcessErr)
    requires WellFormed(rules, m) && (if data == [] then MessageBytes(m) == [] else data[1..] == MessageBytes(m))
    ensures var p := ParseAll(rules, Fresh(), data, max, processErr);
            var stdout := LastStdout(m.frames);
            var stderr := LastStderr(rules.texts, m.frames,
                                     if processErr == LimitReached then rules.texts.limitReached else []);
            && p.outcome == Ok && p.fields.response == ResponseOf(rules, m)
            && (|stdout| + |stderr| <= max ==>
                  && p.fields.stdout == stdout && p.fields.stderr == stderr
                  && p.fields.code == if Rejects(m.frames) then 1 else FirstCode(data, processErr))
            && (|stdout| + |stderr| > max ==>
                  && p.fields.stdout <= stdout && |p.fields.stdout| == (if |stdout| < max then |stdout| else max)
                  && p.fields.stderr == rules.texts.limitReached && p.fields.code == 1)
  {
    StartSays(rules, data, processErr);
    var f := Start(rules, Fresh(), data, processErr);
    ParseMessage(rules, f, m);
    forall fr | fr in m.frames
      ensures fr.typ == StreamStdout || fr.typ == StreamStderr || fr.typ == StreamResponse
    {
      AllPassIn(rules, m.frames, fr);
    }
    EffectsSay(rules, f, m.frames);
    hide Effects, LastStdout, LastStderr, ParseFrames, MessageBytes, AllPass, Start, FirstCode;
  }

  /** A run that wrote nothing: 124 after a timeout, 1 otherwise; the limit text if the limit was reached. */
  lemma NothingWritten(rules: Rules, max: nat, processErr: ProcessErr)
    requires |rules.texts.limitReached| <= max
    ensures ParseAll(rules, Fresh(), [], max, processErr) ==
            Parsed(Ok, Fields(if processErr == DeadlineExceeded then 124 else 1, [],
                              if processErr == LimitReached then rules.texts.limitReached else [], None), [])
  {
  }

  /**
   Malformed data shows: unless the limit is exceeded, its text replaces stderr, and the code is 1.  Of the frames in
   front of the place that does not parse, stdout is kept, and there is no response.
   */
  lemma MalformedSays(rules: Rules, data: seq<byte>, max: nat, processErr: ProcessErr)
    returns (frames: seq<Frame>, tail: seq<byte>)
    requires ParseAll(rules, Fresh(), data, max, processErr).outcome == IncorrectData
    ensures data != [] && data[1..] == FramesBytes(frames) + tail && AllPass(rules, frames) && Stops(rules, tail)
    ensures var f := ParseAll(rules, Fresh(), data, max, processErr).fields; var stdout := LastStdout(frames);
            && f.code == 1 && f.response == None
            && (|stdout| + |rules.texts.incorrectData| <= max ==>
                  f.stdout == stdout && f.stderr == rules.texts.incorrectData)
            && (|stdout| + |rules.texts.incorrectData| > max ==>
                  && f.stdout <= stdout && |f.stdout| == (if |stdout| < max then |stdout| else max)
                  && f.stderr == rules.texts.limitReached)
  {
    var f := Start(rules, Fresh(), data, processErr);
    StartSays(rules, data, processErr);
    frames, tail := Decompose(rules, data[1..]);
    SkipFrames(rules, f, frames, tail);
    forall fr | fr in frames
      ensures fr.typ == StreamStdout || fr.typ == StreamStderr || fr.typ == StreamResponse
    {
      AllPassIn(rules, frames, fr);
    }
    EffectsSay(rules, f, frames);
    var g := Effects(rules, f, frames);
    StoppedFields(rules, g, tail);
    hide ParseFrames, Start, Effects, Stops, AllPass, LastStdout, LastStderr;
  }

  /** Where parsing stops without accepting, only the error is left. */
  lemma StoppedFields(rules: Rules, f: Fields, tail: seq<byte>)
    requires Stops(rules, tail) && ParseFrames(rules, f, tail).outcome == IncorrectData
    ensures ParseFrames(rules, f, tail).fields == f.(stderr := rules.texts.incorrectData, code := 1)
  {
    hide ReadLE32, Effect;
  }

  /**
   The code that arrives: the one set on the connection, whatever process.exitCode is; without one process.exitCode,
   and 0 if that is not set either.
   */
  lemma CodeArrives(rules: Rules, connection: Option<int>, out: RunOutput, max: nat)
    requires Inverse(rules) && Sendable(rules, out) && |out.stdout| + |out.stderr| <= max
    ensures var code := ParseAll(rules, Fresh(), OutputBytes(rules, SentBy(connection, out)), max, NoError).fields.code;
            && (connection.Some? && 0 <= connection.value < 128 ==> code == connection.value)
            && (connection.None? && out.exitCode.Some? && 0 <= out.exitCode.value < 128 ==> code == out.exitCode.value)
            && (connection.None? && out.exitCode.None? ==> code == 0)
  {
    hide ParseAll, OutputBytes, Inverse;
    var sent := SentBy(connection, out);
    assert Sendable(rules, sent);
    hide Sendable;
    if CharCode(sent.exitCode) < 128 {
      RoundTrip(rules, sent, max);
    }
  }

  /** The character that well-formed UTF-8 of up to three bytes spells. */
  function Spelled(s: seq<byte>): int
    requires 1 <= |s| <= 3
  {
    var a: int, b: int, c: int := s[0], if |s| > 1 then s[1] else 0, if |s| > 2 then s[2] else 0;
    if |s| == 1 then a
    else if |s| == 2 then (a - 0xC0) * 64 + (b - 0x80)
    else ((a - 0xE0) * 64 + (b - 0x80)) * 64 + (c - 0x80)
  }

  /** An exit code is sent as one character in its shortest form; half of a surrogate pair becomes U+FFFD. */
  lemma CodeIsSpelled(exitCode: int)
    ensures var u := exitCode % 0x1_0000; var s := Utf8(CharCode(Some(exitCode)));
            && |s| == (if u < 0x80 then 1 else if u < 0x800 then 2 else 3)
            && Spelled(s) == (if 0xD800 <= u < 0xE000 then 0xFFFD else u)
            && (forall i: nat :: 0 < i < |s| ==> 0x80 <= s[i] < 0xC0)
  {
    var u := exitCode % 0x1_0000;
    var high := u / 64;
    assert u == high * 64 + u % 64 && u / 4096 == high / 64 && high == high / 64 * 64 + high % 64;
  }
}
