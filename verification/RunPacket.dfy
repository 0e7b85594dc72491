/**
 The packets a container receives: Container.setupSocket and Container.Run on the Go side, the packet
 handler of node.js on the other.  JSON is an opaque codec whose parse undoes its stringify.
 */
module RunPacket {
  import opened Bytes
  import opened NodeSocket
  import opened Wrappers

  datatype Codec<!T> = Codec(stringify: T -> seq<byte>, parse: seq<byte> -> Option<T>)

  ghost predicate Inverse<T(!new)>(codec: Codec<T>) {
    forall x: T :: codec.parse(codec.stringify(x)) == Some(x)
  }

  datatype File = File(filename: string, contentType: string, data: seq<byte>)

  datatype FileMeta = FileMeta(name: string, filename: string, contentType: string, length: nat)

  datatype ScriptSetup = ScriptSetup(async: nat, entryPoint: string, timeout: int)

  /** ARGS, META and CONFIG are raw JSON texts. */
  datatype ScriptContext = ScriptContext(delim: string, files: seq<FileMeta>, args: string, config: string,
                                         meta: string)

  /** What a run hands to the script: the context and the buffers stored in ARGS. */
  datatype Invocation = Invocation(context: ScriptContext, buffers: map<string, File>)

  // ---- Sender ----

  function MetaOf(name: string, f: File): FileMeta { FileMeta(name, f.filename, f.contentType, |f.data|) }

  function Metas(files: map<string, File>, order: seq<string>): seq<FileMeta>
    requires forall n :: n in order ==> n in files
  {
    if order == [] then [] else [MetaOf(order[0], files[order[0]])] + Metas(files, order[1..])
  }

  function Body(files: map<string, File>, order: seq<string>): seq<byte>
    requires forall n :: n in order ==> n in files
  {
    if order == [] then [] else files[order[0]].data + Body(files, order[1..])
  }

  function RunBytes(json: seq<byte>, body: seq<byte>): seq<byte> {
    LE32(|json| + |body| + 8) + LE32(|json|) + json + body
  }

  function SetupBytes(json: seq<byte>): seq<byte> {
    LE32(|json| + 4) + json
  }

  ghost predicate Distinct(names: seq<string>) {
    names == [] || (names[0] !in names[1..] && Distinct(names[1..]))
  }

  /** `order` is one iteration over the map. */
  ghost predicate IterationOf(order: seq<string>, files: map<string, File>) {
    && (forall n :: n in order <==> n in files)
    && Distinct(order)
  }

  /** What gets through of a packet when the connection takes `room` more bytes and then breaks. */
  function Cut(packet: seq<byte>, room: nat): (r: seq<byte>)
    ensures |r| == if |packet| <= room then |packet| else room
  {
    if |packet| <= room then packet else packet[..room]
  }

  /** What the writes of a packet leave: all of it, or the prefix that went through and an error. */
  predicate Writes(packet: seq<byte>, before: seq<byte>, room: nat, after: seq<byte>, left: nat, ok: bool) {
    after == before + Cut(packet, room) && left + |Cut(packet, room)| == room && ok == (|packet| <= room)
  }

  lemma CutAppend(a: seq<byte>, b: seq<byte>, room: nat)
    ensures Cut(a + b, room) == if |a| <= room then a + Cut(b, room - |a|) else Cut(a, room)
    ensures |a| <= room ==> Cut(a, room) == a
  {
  }

  lemma WritesTwice(a: seq<byte>, b: seq<byte>, before: seq<byte>, room: nat, mid: seq<byte>, left: nat,
                    after: seq<byte>, rest: nat, ok: bool)
    requires Writes(a, before, room, mid, left, true) && Writes(b, mid, left, after, rest, ok)
    ensures Writes(a + b, before, room, after, rest, ok)
  {
    CutAppend(a, b, room);
    hide Cut;
    assert before + a + Cut(b, left) == before + (a + Cut(b, left));
  }

  lemma WritesBroken(a: seq<byte>, b: seq<byte>, before: seq<byte>, room: nat, after: seq<byte>, left: nat)
    requires Writes(a, before, room, after, left, false)
    ensures Writes(a + b, before, room, after, left, false)
  {
    CutAppend(a, b, room);
    hide Cut;
  }

  /** The connection to the wrapper, which breaks after `room` more bytes. */
  class Conn {
    var sent: seq<byte>
    var room: nat

    constructor (room: nat)
      ensures sent == [] && this.room == room
    {
      sent := [];
      this.room := room;
    }

    method Write(data: seq<byte>) returns (ok: bool)
      modifies this
      ensures Writes(data, old(sent), old(room), sent, room, ok)
    {
      ok := |data| <= room;
      var n := if ok then |data| else room;
      sent := sent + data[..n];
      room := room - n;
    }

    /** Two writes, the second only if the first succeeds. */
    method WriteBoth(a: seq<byte>, b: seq<byte>) returns (ok: bool)
      modifies this
      ensures Writes(a + b, old(sent), old(room), sent, room, ok)
    {
      hide Writes;
      ok := Write(a);
      if !ok {
        WritesBroken(a, b, old(sent), old(room), sent, room);
        return;
      }
      ghost var mid, left := sent, room;
      ok := Write(b);
      WritesTwice(a, b, old(sent), old(room), mid, left, sent, room, ok);
    }

    /** Container.setupSocket */
    method SetupSocket(codec: Codec<ScriptSetup>, setup: ScriptSetup) returns (ok: bool)
      modifies this
      ensures Writes(SetupBytes(codec.stringify(setup)), old(sent), old(room), sent, room, ok)
    {
      var setupBytes := codec.stringify(setup);
      ok := WriteBoth(LE32(|setupBytes| + 4), setupBytes);
    }

    /** One file of a body that goes on with `rest`. */
    method WriteFile(data: seq<byte>, ghost rest: seq<byte>) returns (ok: bool)
      modifies this
      ensures ok == (|data| <= old(room)) && room == old(room) - |Cut(data, old(room))|
      ensures sent + (if ok then Cut(rest, room) else []) == old(sent) + Cut(data + rest, old(room))
    {
      CutAppend(data, rest, room);
      hide Cut;
      ok := Write(data);
    }

    method WriteFiles(files: map<string, File>, order: seq<string>) returns (ok: bool)
      requires forall n :: n in order ==> n in files
      modifies this
      ensures Writes(Body(files, order), old(sent), old(room), sent, room, ok)
    {
      hide Cut, Body;
      var i: nat := 0;
      ok := true;
      assert order[0..] == order;
      while i < |order|
        invariant i <= |order| && ok
        invariant |Body(files, order)| - |Body(files, order[i..])| == old(room) - room
        invariant sent + Cut(Body(files, order[i..]), room) == old(sent) + Cut(Body(files, order), old(room))
      {
        BodyFrom(files, order, i);
        ok := WriteFile(files[order[i]].data, Body(files, order[i + 1..]));
        if !ok { return; }
        i := i + 1;
      }
      NothingLeft(files, order, room);
    }

    /** Container.Run */
    method Run(codec: Codec<ScriptContext>, c: ScriptContext, files: map<string, File>, order: seq<string>)
      returns (ok: bool, context: ScriptContext)
      requires IterationOf(order, files)
      modifies this
      ensures context == c.(files := Metas(files, order))
      ensures Writes(RunBytes(codec.stringify(context), Body(files, order)), old(sent), old(room), sent, room, ok)
    {
      var metas, filesSize := DescribeFiles(files, order);
      context := c.(files := metas);
      ok := WritePacket(codec.stringify(context), filesSize, files, order);
    }

    /** The two lengths, the context and the files. */
    method WritePacket(context: seq<byte>, filesSize: nat, files: map<string, File>, order: seq<string>)
      returns (ok: bool)
      requires (forall n :: n in order ==> n in files) && filesSize == |Body(files, order)|
      modifies this
      ensures Writes(RunBytes(context, Body(files, order)), old(sent), old(room), sent, room, ok)
    {
      var total, size := LE32(|context| + filesSize + 8), LE32(|context|);
      ghost var body := Body(files, order);
      hide Writes, LE32, Body;
      ok := WriteBoth(total, size);
      if !ok {
        WritesBroken(total + size, context, old(sent), old(room), sent, room);
        WritesBroken(total + size + context, body, old(sent), old(room), sent, room);
        return;
      }
      ghost var mid, left := sent, room;
      ok := Write(context);
      WritesTwice(total + size, context, old(sent), old(room), mid, left, sent, room, ok);
      if !ok {
        WritesBroken(total + size + context, body, old(sent), old(room), sent, room);
        return;
      }
      mid, left := sent, room;
      ok := WriteFiles(files, order);
      WritesTwice(total + size + context, body, old(sent), old(room), mid, left, sent, room, ok);
    }
  }

  lemma BodyFrom(files: map<string, File>, order: seq<string>, i: nat)
    requires i < |order| && forall n :: n in order ==> n in files
    ensures Body(files, order[i..]) == files[order[i]].data + Body(files, order[i + 1..])
  {
    assert order[i..][1..] == order[i + 1..];
  }

  lemma NothingLeft(files: map<string, File>, order: seq<string>, room: nat)
    requires forall n :: n in order ==> n in files
    ensures Body(files, order[|order|..]) == [] && Cut([], room) == []
  {
  }

  lemma BodyStep(files: map<string, File>, order: seq<string>)
    requires order != [] && forall n :: n in order ==> n in files
    ensures Body(files, order) == files[order[0]].data + Body(files, order[1..])
    ensures Metas(files, order) == [MetaOf(order[0], files[order[0]])] + Metas(files, order[1..])
  {
  }

  method DescribeFiles(files: map<string, File>, order: seq<string>) returns (metas: seq<FileMeta>, filesSize: nat)
    requires forall n :: n in order ==> n in files
    ensures metas == Metas(files, order) && filesSize == |Body(files, order)|
  {
    metas, filesSize := [], 0;
    var i: nat := 0;
    while i < |order|
      invariant i <= |order|
      invariant metas + Metas(files, order[i..]) == Metas(files, order)
      invariant filesSize + |Body(files, order[i..])| == |Body(files, order)|
    {
      BodyStep(files, order[i..]);
      assert order[i..][1..] == order[i + 1..];
      ghost var done, m := metas, MetaOf(order[i], files[order[i]]);
      var f := files[order[i]];
      metas := metas + [FileMeta(order[i], f.filename, f.contentType, |f.data|)];
      assert done + ([m] + Metas(files, order[i + 1..])) == metas + Metas(files, order[i + 1..]);
      filesSize := filesSize + |f.data|;
      i := i + 1;
    }
  }

  // ---- Receiver ----

  /** None stands for an exception. */
  function DecodeSetup(codec: Codec<ScriptSetup>, frame: seq<byte>): Option<ScriptSetup> {
    if |frame| < 4 then None else codec.parse(Slice(frame, 4, 4 + ReadLE32(frame, 0)))
  }

  /** The buffers cut from the frame, later names overwriting earlier ones. */
  function Buffers(frame: seq<byte>, cursor: nat, metas: seq<FileMeta>): map<string, File>
    decreases |metas|
  {
    if metas == [] then map[]
    else
      var m := metas[0];
      map[m.name := FileAt(frame, cursor, m)]
        + Buffers(frame, cursor + m.length, metas[1..])
  }

  function FileAt(frame: seq<byte>, cursor: nat, m: FileMeta): File {
    File(m.filename, m.contentType, Slice(frame, cursor, cursor + m.length))
  }

  lemma BuffersStep(frame: seq<byte>, cursor: nat, metas: seq<FileMeta>, got: map<string, File>)
    requires metas != []
    ensures var m := metas[0];
            got + Buffers(frame, cursor, metas) ==
              got[m.name := FileAt(frame, cursor, m)] + Buffers(frame, cursor + m.length, metas[1..])
  {
    hide Slice;
  }

  lemma NoBuffers(frame: seq<byte>, cursor: nat)
    ensures Buffers(frame, cursor, []) == map[]
  {
  }

  lemma BuffersNext(frame: seq<byte>, cursor: nat, metas: seq<FileMeta>, i: nat, got: map<string, File>)
    requires i < |metas|
    ensures var m := metas[i];
            got + Buffers(frame, cursor, metas[i..]) ==
              got[m.name := FileAt(frame, cursor, m)] + Buffers(frame, cursor + m.length, metas[i + 1..])
  {
    hide Slice, Buffers, FileAt;
    BuffersStep(frame, cursor, metas[i..], got);
    assert metas[i..][1..] == metas[i + 1..];
  }

  /** None stands for an exception, which readUInt32LE throws when the frame has no second length. */
  function DecodeRun(codec: Codec<ScriptContext>, frame: seq<byte>): Option<Invocation> {
    if |frame| < 8 then None else
    var contextSize := ReadLE32(frame, 4);
    match codec.parse(Slice(frame, 8, 8 + contextSize))
    case None => None
    case Some(c) => Some(Invocation(c, Buffers(frame, 8 + contextSize, c.files)))
  }

  /** The file loop of the packet handler. */
  method CutFiles(frame: seq<byte>, start: nat, metas: seq<FileMeta>) returns (buffers: map<string, File>)
    ensures buffers == Buffers(frame, start, metas)
  {
    hide Slice, Buffers;
    buffers := map[];
    var cursor: nat := start;
    var i: nat := 0;
    assert metas[0..] == metas && map[] + Buffers(frame, start, metas) == Buffers(frame, start, metas);
    while i < |metas|
      invariant i <= |metas|
      invariant buffers + Buffers(frame, cursor, metas[i..]) == Buffers(frame, start, metas)
    {
      var file := metas[i];
      BuffersNext(frame, cursor, metas, i, buffers);
      var buf := Slice(frame, cursor, cursor + file.length);
      buffers := buffers[file.name := File(file.filename, file.contentType, buf)];
      cursor := cursor + file.length;
      i := i + 1;
    }
    assert metas[i..] == [] && buffers + map[] == buffers;
    NoBuffers(frame, cursor);
  }

  /** The run branch of the packet handler. */
  method HandleRun(codec: Codec<ScriptContext>, frame: seq<byte>) returns (r: Option<Invocation>)
    ensures r == DecodeRun(codec, frame)
  {
    if |frame| < 8 { return None; }
    var contextSize := ReadLE32(frame, 4);
    var parsed := codec.parse(Slice(frame, 8, 8 + contextSize));
    if parsed.None? { return None; }
    var context := parsed.value;
    var buffers := CutFiles(frame, 8 + contextSize, context.files);
    r := Some(Invocation(context, buffers));
  }

  function TotalLength(metas: seq<FileMeta>): nat {
    if metas == [] then 0 else metas[0].length + TotalLength(metas[1..])
  }

  predicate Named(metas: seq<FileMeta>, name: string) { exists i: nat :: i < |metas| && metas[i].name == name }

  lemma NamedRest(metas: seq<FileMeta>, name: string)
    requires metas != []
    ensures Named(metas, name) <==> metas[0].name == name || Named(metas[1..], name)
  {
    if Named(metas[1..], name) {
      var i: nat :| i < |metas[1..]| && metas[1..][i].name == name;
      assert metas[i + 1].name == name;
    }
    if Named(metas, name) && metas[0].name != name {
      var i: nat :| i < |metas| && metas[i].name == name;
      assert metas[1..][i - 1].name == name;
    }
  }

  lemma {:induction false} BufferNames(frame: seq<byte>, start: nat, metas: seq<FileMeta>, name: string)
    ensures name in Buffers(frame, start, metas) <==> Named(metas, name)
    decreases |metas|
  {
    hide Slice, FileAt;
    if metas != [] {
      NamedRest(metas, name);
      BufferNames(frame, start + metas[0].length, metas[1..], name);
    }
  }

  /**
   For any descriptions, also those that repeat a name: a name has the last of its files, cut out after all the files
   before it, and nothing else has a buffer.
   */
  lemma {:induction false} LastNameWins(frame: seq<byte>, start: nat, metas: seq<FileMeta>, i: nat)
    requires i < |metas| && !Named(metas[i + 1..], metas[i].name)
    ensures var m := metas[i]; var at := start + TotalLength(metas[..i]); var got := Buffers(frame, start, metas);
            && got.Keys == (set k: nat | k < |metas| :: metas[k].name)
            && got[m.name] == File(m.filename, m.contentType, Slice(frame, at, at + m.length))
    decreases |metas|
  {
    var got := Buffers(frame, start, metas);
    forall name ensures name in got.Keys <==> name in (set k: nat | k < |metas| :: metas[k].name) {
      BufferNames(frame, start, metas, name);
    }
    BuffersHere(frame, start, metas, i);
  }

  lemma {:induction false} BuffersHere(frame: seq<byte>, start: nat, metas: seq<FileMeta>, i: nat)
    requires i < |metas| && !Named(metas[i + 1..], metas[i].name)
    ensures var m := metas[i]; var at := start + TotalLength(metas[..i]); var got := Buffers(frame, start, metas);
            m.name in got && got[m.name] == File(m.filename, m.contentType, Slice(frame, at, at + m.length))
    decreases |metas|
  {
    hide Slice, Named;
    BufferNames(frame, start + metas[0].length, metas[1..], metas[0].name);
    if i > 0 {
      assert metas[1..][i - 1] == metas[i] && metas[1..][i..] == metas[i + 1..];
      BuffersHere(frame, start + metas[0].length, metas[1..], i - 1);
      assert metas[..i][1..] == metas[1..][..i - 1];
    } else {
      assert metas[..0] == [];
    }
  }

  // ---- Round trips ----

  lemma CutTwice(frame: seq<byte>, start: nat, a: seq<byte>, b: seq<byte>)
    requires start + |a + b| <= |frame| && frame[start..start + |a + b|] == a + b
    ensures Slice(frame, start, start + |a|) == a
    ensures frame[start + |a|..start + |a| + |b|] == b
  {
    var all := frame[start..start + |a + b|];
    assert all[..|a|] == a && all[|a|..] == b;
    assert all[..|a|] == frame[start..start + |a|] && all[|a|..] == frame[start + |a|..start + |a| + |b|];
  }

  /** m holds exactly the named files. */
  ghost predicate Holds(m: map<string, File>, order: seq<string>, files: map<string, File>) {
    && (forall n :: n in order ==> n in files)
    && (forall n :: n in m <==> n in order)
    && (forall n :: n in order ==> m[n] == files[n])
  }

  lemma HoldsOneMore(m: map<string, File>, order: seq<string>, files: map<string, File>)
    requires order != [] && order[0] in files && Holds(m, order[1..], files) && order[0] !in order[1..]
    ensures Holds(map[order[0] := files[order[0]]] + m, order, files)
  {
    assert order == [order[0]] + order[1..];
  }

  lemma FirstBuffer(frame: seq<byte>, start: nat, files: map<string, File>, order: seq<string>)
    requires order != [] && forall n :: n in order ==> n in files
    requires Slice(frame, start, start + |files[order[0]].data|) == files[order[0]].data
    ensures Buffers(frame, start, Metas(files, order)) ==
              map[order[0] := files[order[0]]]
              + Buffers(frame, start + |files[order[0]].data|, Metas(files, order[1..]))
  {
    hide Slice;
    BodyStep(files, order);
    var metas := Metas(files, order);
    assert metas[0] == MetaOf(order[0], files[order[0]]) && metas[1..] == Metas(files, order[1..]);
    assert FileAt(frame, start, metas[0]) == files[order[0]];
  }

  /** The body bytes lie in the frame from `start` on. */
  ghost predicate BodyAt(frame: seq<byte>, start: nat, files: map<string, File>, order: seq<string>)
    requires forall n :: n in order ==> n in files
  {
    start + |Body(files, order)| <= |frame| && frame[start..start + |Body(files, order)|] == Body(files, order)
  }

  lemma BodyAtStep(frame: seq<byte>, start: nat, files: map<string, File>, order: seq<string>)
    requires order != [] && (forall n :: n in order ==> n in files) && BodyAt(frame, start, files, order)
    ensures Slice(frame, start, start + |files[order[0]].data|) == files[order[0]].data
    ensures BodyAt(frame, start + |files[order[0]].data|, files, order[1..])
  {
    BodyStep(files, order);
    hide Body, Slice;
    CutTwice(frame, start, files[order[0]].data, Body(files, order[1..]));
  }

  lemma NoFiles(frame: seq<byte>, start: nat, files: map<string, File>)
    ensures Holds(Buffers(frame, start, Metas(files, [])), [], files)
  {
  }

  /** Cutting by cursor recovers every file, wherever the body starts and whatever follows it. */
  lemma {:induction false} CursorRecovers(frame: seq<byte>, start: nat, files: map<string, File>, order: seq<string>)
    requires (forall n :: n in order ==> n in files) && Distinct(order) && BodyAt(frame, start, files, order)
    ensures Holds(Buffers(frame, start, Metas(files, order)), order, files)
    decreases |order|
  {
    hide Slice, Buffers, Holds, Metas, BodyAt;
    if order == [] {
      NoFiles(frame, start, files);
    } else {
      var next := start + |files[order[0]].data|;
      BodyAtStep(frame, start, files, order);
      CursorRecovers(frame, next, files, order[1..]);
      FirstBuffer(frame, start, files, order);
      HoldsOneMore(Buffers(frame, next, Metas(files, order[1..])), order, files);
    }
  }

  /** The announced length is the number of bytes written exactly when that number fits in 32 bits. */
  lemma AnnouncedLength(json: seq<byte>, body: seq<byte>)
    ensures ReadLE32(RunBytes(json, body), 0) == |RunBytes(json, body)| <==> |json| + |body| + 8 < TwoTo32
  {
    hide LE32, ReadLE32;
    var bytes := RunBytes(json, body);
    var n := |json| + |body| + 8;
    ReadWrite(n, [], LE32(|json|) + json + body);
    assert bytes == [] + LE32(n) + (LE32(|json|) + json + body);
    if n < TwoTo32 { SmallMod(n); }
  }

  lemma FourParts(a: seq<byte>, b: seq<byte>, c: seq<byte>, d: seq<byte>)
    ensures var all, i := a + b + c + d, |a| + |b|;
            && |all| == i + |c| + |d|
            && Slice(all, i, i + |c|) == c && all[i + |c|..i + |c| + |d|] == d && all == a + b + (c + d)
  {
    var all, i := a + b + c + d, |a| + |b|;
    assert all[i..i + |c|] == c;
  }

  lemma RunLayout(json: seq<byte>, body: seq<byte>)
    requires |json| < TwoTo32
    ensures var bytes := RunBytes(json, body);
            && |bytes| == 8 + |json| + |body|
            && ReadLE32(bytes, 4) == |json|
            && Slice(bytes, 8, 8 + |json|) == json
            && bytes[8 + |json|..8 + |json| + |body|] == body
  {
    hide LE32, ReadLE32, Slice;
    var total, size := LE32(|json| + |body| + 8), LE32(|json|);
    FourParts(total, size, json, body);
    ReadWrite(|json|, total, json + body);
    SmallMod(|json|);
  }

  lemma SmallMod(n: nat)
    requires n < TwoTo32
    ensures n % TwoTo32 == n
  {
  }

  /** Nothing is sliced off beyond the end. */
  lemma SliceToEnd(s: seq<byte>, lo: nat, n: nat)
    requires lo <= |s| <= n
    ensures Slice(s, lo, lo + n) == Slice(s, lo, |s|)
  {
  }

  lemma AllRecovered(frame: seq<byte>, start: nat, files: map<string, File>, order: seq<string>)
    requires IterationOf(order, files) && BodyAt(frame, start, files, order)
    ensures Buffers(frame, start, Metas(files, order)) == files
  {
    CursorRecovers(frame, start, files, order);
    hide Buffers, Metas, BodyAt;
  }

  /**
   For any files in any iteration order whose packet fits in 32 bits, the wrapper decodes the context that
   was sent and every file's exact bytes, name and type, and no others.
   */
  lemma RunRoundTrip(codec: Codec<ScriptContext>, c: ScriptContext, files: map<string, File>, order: seq<string>)
    requires Inverse(codec) && IterationOf(order, files)
    requires |codec.stringify(c.(files := Metas(files, order)))| + |Body(files, order)| + 8 < TwoTo32
    ensures var context := c.(files := Metas(files, order));
            var bytes := RunBytes(codec.stringify(context), Body(files, order));
            && ReadLE32(bytes, 0) == |bytes|
            && DecodeRun(codec, bytes) == Some(Invocation(context, files))
  {
    var context := c.(files := Metas(files, order));
    var json, body := codec.stringify(context), Body(files, order);
    var bytes := RunBytes(json, body);
    assert codec.parse(json) == Some(context);
    assert forall n :: n in order <==> n in files;
    hide Slice, Buffers, Metas, Body, RunBytes, ReadLE32, Inverse, LE32, IterationOf;
    AnnouncedLength(json, body);
    RunLayout(json, body);
    AllRecovered(bytes, 8 + |json|, files, order);
  }

  /** The wrapper reads the setup that was written. */
  lemma SetupRoundTrip(codec: Codec<ScriptSetup>, setup: ScriptSetup)
    requires Inverse(codec) && |codec.stringify(setup)| + 4 < TwoTo32
    ensures var bytes := SetupBytes(codec.stringify(setup));
            ReadLE32(bytes, 0) == |bytes| && DecodeSetup(codec, bytes) == Some(setup)
  {
    hide LE32, ReadLE32, Slice;
    var json := codec.stringify(setup);
    var bytes := SetupBytes(json);
    FourParts([], LE32(|json| + 4), json, []);
    assert bytes == [] + LE32(|json| + 4) + json + [];
    assert |bytes| == 4 + |json| && Slice(bytes, 4, 4 + |json|) == json;
    ReadWrite(|json| + 4, [], json);
    assert bytes == [] + LE32(|json| + 4) + json;
    SmallMod(|json| + 4);
    SliceToEnd(bytes, 4, |bytes|);
    assert codec.parse(json) == Some(setup);
  }

  /** The wrapper's packet handler: the first packet must be a setup, the others runs. */
  function Accepts(setups: Codec<ScriptSetup>, runs: Codec<ScriptContext>): Handler {
    (handled: seq<seq<byte>>, frame: seq<byte>) =>
      if handled == [] then DecodeSetup(setups, frame).Some? else DecodeRun(runs, frame).Some?
  }

  /**
   A fresh container: setup and first run are written to one connection, which may break inside the run packet, and
   delivered in any pieces that cut no length.  The setup decodes to what was sent; the run does too if all of it was
   written, and otherwise nothing runs.
   */
  lemma ConnectionRoundTrip(setups: Codec<ScriptSetup>, runs: Codec<ScriptContext>, setup: ScriptSetup,
                            c: ScriptContext, files: map<string, File>, order: seq<string>, room: nat,
                            chunks: seq<seq<byte>>)
    requires Inverse(setups) && Inverse(runs) && IterationOf(order, files)
    requires |setups.stringify(setup)| + 4 < TwoTo32
    requires |runs.stringify(c.(files := Metas(files, order)))| + |Body(files, order)| + 8 < TwoTo32
    requires var s := SetupBytes(setups.stringify(setup));
             var r := RunBytes(runs.stringify(c.(files := Metas(files, order))), Body(files, order));
             Concat(chunks) == s + Cut(r, room) && !CutsHeader([s, r], chunks, 0)
    ensures var got := FeedAll(Accepts(setups, runs), [], Nothing, chunks);
            var r := RunBytes(runs.stringify(c.(files := Metas(files, order))), Body(files, order));
            && !got.threw && |got.delivered| == (if |r| <= room then 2 else 1)
            && DecodeSetup(setups, got.delivered[0]) == Some(setup)
            && (|r| <= room ==>
                  && got.pending == Nothing
                  && DecodeRun(runs, got.delivered[1]) == Some(Invocation(c.(files := Metas(files, order)), files)))
  {
    var s := SetupBytes(setups.stringify(setup));
    var r := RunBytes(runs.stringify(c.(files := Metas(files, order))), Body(files, order));
    SetupRoundTrip(setups, setup);
    RunRoundTrip(runs, c, files, order);
    assert |r| <= room ==> Cut(r, room) == r;
    assert |r| > room ==> Cut(r, room) == r[..room];
    hide Concat, CutsHeader, DecodeRun, DecodeSetup, RunBytes, SetupBytes, Metas, Body, Inverse, Cut;
    if |r| <= room {
      TwoFrames(Accepts(setups, runs), s, r, chunks);
    } else {
      OneFrameOnly(Accepts(setups, runs), s, r, room, chunks);
    }
  }

  lemma TwoFramed(accepts: Handler, s: seq<byte>, r: seq<byte>)
    requires WellFramed(accepts, [], s) && WellFramed(accepts, [s], r)
    ensures AllFramed(accepts, [], [s, r]) && Concat([s, r]) == s + r
  {
    forall i: nat | i < 2 ensures WellFramed(accepts, [] + [s, r][..i], [s, r][i]) {
      assert [] + [s, r][..i] == if i == 0 then [] else [s];
    }
    assert [s, r][1..] == [r];
    assert Concat([s, r]) == s + Concat([r]) && Concat([r]) == r + Concat([r][1..]);
    assert s + (r + []) == s + r;
  }

  lemma TwoFrames(accepts: Handler, s: seq<byte>, r: seq<byte>, chunks: seq<seq<byte>>)
    requires WellFramed(accepts, [], s) && WellFramed(accepts, [s], r)
    requires Concat(chunks) == s + r && !CutsHeader([s, r], chunks, 0)
    ensures FeedAll(accepts, [], Nothing, chunks) == Fed(Nothing, [s, r], false)
  {
    TwoFramed(accepts, s, r);
    FragmentationIndependence(accepts, [], [s, r], chunks);
  }

  lemma OneFrameOnly(accepts: Handler, s: seq<byte>, r: seq<byte>, n: nat, chunks: seq<seq<byte>>)
    requires WellFramed(accepts, [], s) && WellFramed(accepts, [s], r) && n < |r|
    requires Concat(chunks) == s + r[..n] && !CutsHeader([s, r], chunks, 0)
    ensures var got := FeedAll(accepts, [], Nothing, chunks); !got.threw && got.delivered == [s]
  {
    TwoFramed(accepts, s, r);
    assert s + r[..n] + r[n..] == s + r;
    var k := BrokenStream(accepts, [], [s, r], chunks, r[n..]);
    assert [s, r][..0] == [] && [s, r][..1] == [s] && [s, r][..2] == [s, r];
    assert [s][1..] == [] && Concat([s]) == s;
  }
}
