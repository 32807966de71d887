/**
 The fill the code has, at the read end, against the meant fill, at the write end: when a pass
 and a whole run are the same under both, and that they are the same only then.
 */
module StreamFill {
  import opened Common
  import opened LoopModel
  import opened Buffers
  import opened StreamModel
  import opened StreamProofs
  import opened StreamReads

  /** At most one read() of the pass returns bytes. */
  predicate OneChunk(input: Input) {
    input.Bytes? && input.data != "" ==>
      |input.data| <= READ_CHUNK && !(input.next.Bytes? && input.next.data != "")
  }

  /** On an empty buffer, a pass of at most one chunk is the same under both fills. */
  lemma PassesAgree(b: Window, input: Input)
    requires Readable(b) == 0 && OneChunk(input)
    ensures ReadPass(AtReadEnd, b, input) == ReadPass(AtWriteEnd, b, input)
  {
    if Room(b) >= READ_CHUNK && input.Bytes? && input.data != "" {
      var e := Ensured(b, READ_CHUNK);
      FillsAgreeWhenEmpty(e, input.data);
      var f := Filled(AtWriteEnd, e, input.data);
      assert ReadChunk(input.data) == input.data;
      assert ReadPass(AtReadEnd, f, input.next) == ReadPass(AtWriteEnd, f, input.next);
    }
  }

  // ------------------------------------------------------------- the exact condition

  /** A pass that reads these chunks, one per read(), and then ends so. */
  function Chunks(parts: seq<string>, end: Input): Input {
    if parts == [] then end else Bytes(parts[0], Chunks(parts[1..], end))
  }

  ghost predicate SameShape(parts: seq<string>, others: seq<string>) {
    |parts| == |others| && forall i :: 0 <= i < |parts| ==> |parts[i]| == |others[i]|
  }

  ghost predicate ChunkSized(parts: seq<string>) {
    forall i :: 0 <= i < |parts| ==> 0 < |parts[i]| <= READ_CHUNK
  }

  /** There is a chunk of room before each read: the pass does get to read them all. */
  ghost predicate RoomFor(held: nat, size: nat, parts: seq<string>)
    decreases |parts|
  {
    parts == [] || (held + READ_CHUNK <= size && RoomFor(held + |parts[0]|, size, parts[1..]))
  }

  ghost predicate KeepsOrder(b: Window, parts: seq<string>, end: Input) {
    Contents(ReadPass(AtReadEnd, b, Chunks(parts, end)).buf) == Contents(b) + Flatten(parts)
  }

  lemma RestSized(parts: seq<string>)
    requires ChunkSized(parts) && parts != []
    ensures ChunkSized(parts[1..]) && ReadChunk(parts[0]) == parts[0]
  {
    forall i | 0 <= i < |parts[1..]| ensures 0 < |parts[1..][i]| <= READ_CHUNK { assert parts[i + 1] == parts[1..][i]; }
  }

  /** The end of a pass, whatever it is, leaves the unread bytes alone. */
  lemma EndOfPass(fill: Fill, b: Window, end: Input)
    requires !end.Bytes?
    ensures var p := ReadPass(fill, b, end); p.bytes == "" && Contents(p.buf) == Contents(b)
  {
    EnsuringKeepsContents(b, READ_CHUNK);
  }

  lemma {:induction false} ChunksAreRead(fill: Fill, b: Window, parts: seq<string>, end: Input)
    requires ChunkSized(parts) && RoomFor(Readable(b), |b.bytes|, parts) && !end.Bytes?
    ensures ReadPass(fill, b, Chunks(parts, end)).bytes == Flatten(parts)
    decreases |parts|
  {
    if parts == [] {
      EndOfPass(fill, b, end);
    } else {
      RestSized(parts);
      ChunksAreRead(fill, Filled(fill, Ensured(b, READ_CHUNK), parts[0]), parts[1..], end);
    }
  }

  /** Under the code's fill the unread bytes end up starting with the last chunk read. */
  lemma {:induction false} LastChunkComesFirst(b: Window, parts: seq<string>, end: Input)
    requires ChunkSized(parts) && parts != [] && !end.Bytes?
    requires RoomFor(Readable(b), |b.bytes|, parts)
    ensures var c, last := Contents(ReadPass(AtReadEnd, b, Chunks(parts, end)).buf), parts[|parts| - 1];
      |last| <= |c| && c[..|last|] == last && c[0] == last[0]
    decreases |parts|
  {
    var e := Ensured(b, READ_CHUNK);
    EnsuringKeepsContents(b, READ_CHUNK);
    RestSized(parts);
    var f := Filled(AtReadEnd, e, parts[0]);
    CodedFillOverlays(e, parts[0]);
    var rest := parts[1..];
    assert ReadPass(AtReadEnd, b, Chunks(parts, end)).buf == ReadPass(AtReadEnd, f, Chunks(rest, end)).buf;
    if rest == [] {
      EndOfPass(AtReadEnd, f, end);
      assert Contents(f)[..|parts[0]|][0] == parts[0][0];
    } else {
      LastChunkComesFirst(f, rest, end);
      assert rest[|rest| - 1] == parts[|parts| - 1];
    }
  }

  /** On an empty buffer a single chunk, or none on any, keeps the order. */
  lemma ShortPassKeepsOrder(b: Window, parts: seq<string>, end: Input)
    requires ChunkSized(parts) && RoomFor(Readable(b), |b.bytes|, parts) && !end.Bytes?
    requires |parts| == 0 || (|parts| == 1 && Readable(b) == 0)
    ensures KeepsOrder(b, parts, end)
  {
    if |parts| == 0 {
      EndOfPass(AtReadEnd, b, end);
    } else {
      assert parts == [parts[0]] && parts[1..] == [];
      PassesAgree(b, Chunks(parts, end));
      MeantPassIsFifo(b, Chunks(parts, end));
      ChunksAreRead(AtWriteEnd, b, parts, end);
    }
  }

  /**
   For every shape of a pass, however it ends (blocking, at the end of the stream, in an error, or
   for lack of room): the code keeps the byte order for all payloads of that shape if and only if
   nothing was read, or one chunk on an empty buffer.
   */
  lemma CodedPassIsFifoIff(b: Window, parts: seq<string>, end: Input)
    requires ChunkSized(parts) && RoomFor(Readable(b), |b.bytes|, parts) && !end.Bytes?
    ensures (forall others :: SameShape(parts, others) ==> KeepsOrder(b, others, end))
            <==> |parts| == 0 || (|parts| == 1 && Readable(b) == 0)
  {
    if |parts| == 0 || (|parts| == 1 && Readable(b) == 0) {
      forall others | SameShape(parts, others) ensures KeepsOrder(b, others, end) {
        SameRoom(Readable(b), |b.bytes|, parts, others);
        ShortPassKeepsOrder(b, others, end);
      }
    } else {
      var others := Clashing(DueFirst(b), parts);
      SameRoom(Readable(b), |b.bytes|, parts, others);
      LastChunkComesFirst(b, others, end);
      FirstWanted(b, parts);
      assert !KeepsOrder(b, others, end);
    }
  }

  lemma {:induction false} SameRoom(held: nat, size: nat, parts: seq<string>, others: seq<string>)
    requires SameShape(parts, others) && ChunkSized(parts) && RoomFor(held, size, parts)
    ensures RoomFor(held, size, others) && ChunkSized(others)
    decreases |parts|
  {
    if parts != [] {
      forall i | 0 <= i < |parts[1..]| ensures |parts[1..][i]| == |others[1..][i]| {
        assert |parts[i + 1]| == |others[i + 1]|;
      }
      RestSized(parts);
      SameRoom(held + |parts[0]|, size, parts[1..], others[1..]);
    }
    forall i | 0 <= i < |others| ensures 0 < |others[i]| <= READ_CHUNK { assert |parts[i]| == |others[i]|; }
  }

  /** A payload of the same shape whose last chunk starts unlike the byte due first. */
  function Clashing(due: char, parts: seq<string>): (others: seq<string>)
    requires ChunkSized(parts) && |parts| > 0
    ensures SameShape(parts, others) && ChunkSized(others)
    ensures others[|parts| - 1][0] != due && (|parts| > 1 ==> others[0][0] == 'a')
  {
    var last := if due == 'a' then 'b' else 'a';
    seq(|parts|, i requires 0 <= i < |parts| =>
      seq(|parts[i]|, _ => if i == |parts| - 1 then last else 'a'))
  }

  /** The byte due first: the oldest one unread or, with none unread, the first to come. */
  function DueFirst(b: Window): char { if Readable(b) > 0 then Contents(b)[0] else 'a' }

  lemma FirstWanted(b: Window, parts: seq<string>)
    requires ChunkSized(parts) && |parts| > 0 && (|parts| > 1 || Readable(b) > 0)
    ensures var others := Clashing(DueFirst(b), parts); var due := Contents(b) + Flatten(others);
      |due| > 0 && due[0] != others[|others| - 1][0]
  {
    var others := Clashing(DueFirst(b), parts);
    assert Flatten(others) == others[0] + Flatten(others[1..]);
  }

  lemma TwoChunksPass(b: Window, end: Input)
    requires Readable(b) == 0 && |b.bytes| == DEFAULT_SIZE && !end.Bytes?
    ensures var p := ReadPass(AtReadEnd, b, Bytes("a", Bytes("b", end)));
      (p.ok <==> end.WouldBlock?) && p.bytes == "ab" && |Contents(p.buf)| == 2 && Contents(p.buf)[0] == 'b'
  {
    var parts := ["a", "b"];
    assert parts[1..] == ["b"] && ["b"][1..] == [];
    assert Chunks(["b"], end) == Bytes("b", Chunks([], end));
    assert Chunks(parts, end) == Bytes("a", Bytes("b", end));
    assert Flatten(["b"]) == "b" + Flatten([]);
    assert Flatten(parts) == "ab";
    assert RoomFor(1, DEFAULT_SIZE, ["b"]);
    LastChunkComesFirst(b, parts, end);
    ChunksAreRead(AtReadEnd, b, parts, end);
    TwoChunksEnd(b, end);
  }

  lemma TwoChunksEnd(b: Window, end: Input)
    requires Readable(b) == 0 && |b.bytes| == DEFAULT_SIZE && !end.Bytes?
    ensures var p := ReadPass(AtReadEnd, b, Bytes("a", Bytes("b", end)));
      (p.ok <==> end.WouldBlock?) && Readable(p.buf) == |p.bytes|
  {
    var input := Bytes("a", Bytes("b", end));
    ReadPassTakesAll(AtReadEnd, b, input);
    assert Incoming(end) == "" && Incoming(Bytes("b", end)) == "b" + "" && Incoming(input) == "a" + Incoming(Bytes("b", end));
    assert Blocks(input) <==> end.WouldBlock?;
  }

  /** A concrete failure: a fresh stream that reads "a", then "b", delivers something else. */
  lemma CodedReadCanBeMisordered(s: Stream, cb: Option<Script>)
    requires Fresh(s)
    ensures var s' := Step(s, AtReadEnd, OpReadBytes(2, cb, Bytes("a", Bytes("b", WouldBlock))));
      && s'.log.received == "ab" && |s'.log.consumed| == 1
      && s'.log.consumed[0].data != "ab"
  {
    TwoChunksPass(s.readBuf, WouldBlock);
    var p := ReadPass(AtReadEnd, s.readBuf, Bytes("a", Bytes("b", WouldBlock)));
    assert Contents(p.buf)[..2][0] == 'b';
  }

  // ------------------------------------------------------------- read until close

  function Delivered(s: Stream): string { Flatten(Datas(s.log.consumed)) }

  lemma DeliverDelivers(s: Stream, cb: Option<Script>)
    ensures Delivered(Deliver(s, Readable(s.readBuf), cb)) == Delivered(s) + Contents(s.readBuf)
    ensures Contents(Deliver(s, Readable(s.readBuf), cb).readBuf) == ""
  {
    var c := Contents(s.readBuf);
    assert c[..Readable(s.readBuf)] == c;
    DatasAppend(s.log.consumed, Chunk(c, cb));
    FlattenPush(Datas(s.log.consumed), c);
  }

  /** One pass of a read-until-close, with the flush of close() if it fails. */
  function PassOrClose(s: Stream, fill: Fill, input: Input): Stream {
    var (s1, failed) := HandleRead(s, fill, input);
    if failed then Close(s1) else s1
  }

  ghost predicate UntilClose(s: Stream) { !s.closed && s.readUntilClose && s.readBytes == 0 && s.readDelimiter == "" }

  /** Whether the pass succeeds or fails, all that is then buffered is delivered, as it lies. */
  lemma UntilCloseDelivers(s: Stream, fill: Fill, input: Input)
    requires UntilClose(s)
    ensures var s' := PassOrClose(s, fill, input);
      && Delivered(s') == Delivered(s) + Contents(ReadPass(fill, s.readBuf, input).buf)
      && Contents(s'.readBuf) == ""
  {
    var s1 := Receive(s, ReadPass(fill, s.readBuf, input));
    DeliverDelivers(s1, s1.readCb);
    assert Readable(s1.readBuf) == 0 ==> Contents(s1.readBuf) == "";
    assert Delivered(s) + "" == Delivered(s);
  }

  /** The delivery of a whole pass, under the code's fill, is what was buffered, then what came. */
  ghost predicate DeliversInOrder(s: Stream, parts: seq<string>, end: Input) {
    Delivered(PassOrClose(s, AtReadEnd, Chunks(parts, end))) == Delivered(s) + (Contents(s.readBuf) + Flatten(parts))
  }

  lemma DeliversIff(s: Stream, parts: seq<string>, end: Input)
    requires UntilClose(s)
    ensures DeliversInOrder(s, parts, end) <==> KeepsOrder(s.readBuf, parts, end)
  {
    UntilCloseDelivers(s, AtReadEnd, Chunks(parts, end));
    var d, x, y := Delivered(s), Contents(ReadPass(AtReadEnd, s.readBuf, Chunks(parts, end)).buf),
                   Contents(s.readBuf) + Flatten(parts);
    assert (d + x)[|d|..] == x && (d + y)[|d|..] == y;
  }

  /**
   So a read-until-close, with what close() flushes after an end of stream or an error, delivers
   the buffered bytes and then the received ones in order, for all payloads of a shape, exactly
   when nothing was read, or one chunk on an empty buffer.
   */
  lemma CodedFlushIsFifoIff(s: Stream, parts: seq<string>, end: Input)
    requires UntilClose(s) && ChunkSized(parts) && !end.Bytes?
    requires RoomFor(Readable(s.readBuf), |s.readBuf.bytes|, parts)
    ensures (forall others :: SameShape(parts, others) ==> DeliversInOrder(s, others, end))
            <==> |parts| == 0 || (|parts| == 1 && Readable(s.readBuf) == 0)
  {
    forall others ensures DeliversInOrder(s, others, end) <==> KeepsOrder(s.readBuf, others, end) {
      DeliversIff(s, others, end);
    }
    CodedPassIsFifoIff(s.readBuf, parts, end);
  }

  /** Both places a pass is made from deliver what PassOrClose does. */
  lemma PassOrCloseIsMade(s: Stream, fill: Fill, cb: Option<Script>, input: Input)
    requires !s.closed && Idle(s)
    ensures var asked := Requested(s, ToClose, cb).(readUntilClose := true, readCb := cb);
      && UntilClose(asked) && Delivered(asked) == Delivered(s)
      && Delivered(Step(s, fill, OpReadUntilClose(cb, input))) == Delivered(PassOrClose(asked, fill, input))
  {
    hide ReadPass, Find;
  }

  lemma FinishDeliversNoMore(s: Stream, events: Mask, output: Output)
    requires Readable(s.readBuf) == 0
    ensures Delivered(FinishEvents(s, events, output)) == Delivered(s)
  {
  }

  lemma PassOrCloseIsServed(s: Stream, fill: Fill, events: Mask, input: Input, output: Output)
    requires UntilClose(s) && !s.connecting && events.read
    ensures Delivered(HandleEvents(s, fill, events, None, input, output)) == Delivered(PassOrClose(s, fill, input))
  {
    UntilCloseDelivers(s, fill, input);
    var s1 := HandleRead(s, fill, input).0;
    if !HandleRead(s, fill, input).1 {
      assert |Contents(s1.readBuf)| == Readable(s1.readBuf);
      FinishDeliversNoMore(s1, events, output);
    }
  }

  /** A concrete failure: "a", then "b", then the end of the stream. */
  lemma CodedFlushCanBeMisordered(s: Stream, cb: Option<Script>)
    requires Fresh(s)
    ensures var s' := Step(s, AtReadEnd, OpReadUntilClose(cb, Bytes("a", Bytes("b", EndOfStream))));
      && s'.closed && s'.log.received == "ab" && |s'.log.consumed| == 1
      && s'.log.consumed[0].data != "ab"
  {
    hide ReadPass, Find;
    TwoChunksPass(s.readBuf, EndOfStream);
    var p := ReadPass(AtReadEnd, s.readBuf, Bytes("a", Bytes("b", EndOfStream)));
    assert Contents(p.buf)[..2][0] == 'b';
  }

  // ----------------------------------------------------------------------- whole runs

  /** The read pass the operation makes, if it gets to one. */
  function InputOf(op: Op): Input {
    match op
    case OpReadBytes(_, _, input) => input
    case OpReadUntil(_, _, input) => input
    case OpReadUntilClose(_, input) => input
    case OpEvents(events, _, input, _) => if events.read then input else WouldBlock
    case _ => WouldBlock
  }

  /** A pass that reads nothing, or one chunk into an empty buffer. */
  predicate GentlePass(b: Window, input: Input) {
    !(input.Bytes? && input.data != "") || (Readable(b) == 0 && OneChunk(input))
  }

  /** An operation whose pass, if it makes one, is such. */
  predicate Gentle(s: Stream, op: Op) { GentlePass(s.readBuf, InputOf(op)) }

  lemma HandleReadAgrees(s: Stream, input: Input)
    requires GentlePass(s.readBuf, input)
    ensures HandleRead(s, AtReadEnd, input) == HandleRead(s, AtWriteEnd, input)
  {
    if input.Bytes? && input.data != "" { PassesAgree(s.readBuf, input); }
  }

  lemma EventsAgree(s: Stream, events: Mask, failure: Option<int>, input: Input, output: Output)
    requires Gentle(s, OpEvents(events, failure, input, output))
    ensures HandleEvents(s, AtReadEnd, events, failure, input, output) ==
            HandleEvents(s, AtWriteEnd, events, failure, input, output)
  {
    var s1 := if s.connecting then HandleConnect(s, failure) else s;
    if !s1.closed && events.read { HandleReadAgrees(s1, input); }
  }

  lemma StepAgrees(s: Stream, op: Op)
    requires Gentle(s, op)
    ensures Step(s, AtReadEnd, op) == Step(s, AtWriteEnd, op)
  {
    match op
    case OpReadBytes(n, cb, input) =>
      if n > 0 { HandleReadAgrees(Requested(s, Count(n), cb).(readBytes := n, readCb := cb), input); }
    case OpReadUntil(d, cb, input) =>
      HandleReadAgrees(Requested(s, Until(d), cb).(readDelimiter := d, readCb := cb), input);
    case OpReadUntilClose(cb, input) =>
      HandleReadAgrees(Requested(s, ToClose, cb).(readUntilClose := true, readCb := cb), input);
    case OpEvents(events, failure, input, output) => EventsAgree(s, events, failure, input, output);
    case _ =>
  }

  ghost predicate GentleRun(s: Stream, ops: seq<Op>)
    decreases |ops|
  {
    ops == [] || (Gentle(s, ops[0]) && GentleRun(Step(s, AtReadEnd, ops[0]), ops[1..]))
  }

  /** Over a run that always reads one chunk into an empty buffer, the code does what was meant. */
  lemma {:induction false} CodedRunIsMeantRun(s: Stream, ops: seq<Op>)
    requires GentleRun(s, ops)
    ensures Run(s, AtReadEnd, ops) == Run(s, AtWriteEnd, ops)
    ensures Runnable(s, AtReadEnd, ops) == Runnable(s, AtWriteEnd, ops)
    decreases |ops|
  {
    if ops != [] {
      StepAgrees(s, ops[0]);
      CodedRunIsMeantRun(Step(s, AtReadEnd, ops[0]), ops[1..]);
    }
  }
}
