/**
 What one buffered socket stream does, on values: its three read modes, its two buffers, its
 interest mask and loop slot, the callbacks it posts, and a log of the bytes that passed.
 */
module StreamModel {
  import opened Common
  import opened LoopModel
  import opened Buffers

  const READ_CHUNK: nat := 1024
  const WRITE_CHUNK: nat := 2048

  /**
   What successive calls of read() answer: bytes (handed out at most a chunk at a time; none
   at all is the end of the stream), until one of the other answers stops the pass.
   */
  datatype Input = WouldBlock | EndOfStream | ReadError | Bytes(data: string, next: Input)

  /** What successive calls of write() answer: how many bytes it would take, or a stop. */
  datatype Output = Refuses | Breaks | Takes(n: nat, next: Output)

  datatype Request = Count(n: nat) | Until(delimiter: string) | ToClose
  datatype Chunk = Chunk(data: string, callback: Option<Script>)

  datatype Log = Log(
    requests: seq<Request>, callers: seq<Option<Script>>, received: string, consumed: seq<Chunk>,
    accepted: string, sent: string)

  datatype Stream = Stream(
    reachable: bool,
    connecting: bool, closed: bool,
    state: Mask, slot: Option<Mask>,
    connectCb: Option<Script>, readCb: Option<Script>, writeCb: Option<Script>, closeCb: Option<Script>,
    readBuf: Window, writeBuf: Window,
    readBytes: nat, readDelimiter: string, readUntilClose: bool,
    posted: seq<Task>, log: Log)

  // -------------------------------------------------------------------- socket passes

  datatype Pass = Pass(ok: bool, buf: Window, bytes: string)

  function ReadChunk(data: string): string { data[..Min(|data|, READ_CHUNK)] }

  /** What is left to answer after one read() has taken its chunk. */
  function AfterRead(data: string, next: Input): Input {
    if |data| <= READ_CHUNK then next else Bytes(data[READ_CHUNK..], next)
  }

  /** readToBufferLoop: read chunks until the socket would block; anything else fails. */
  function ReadPass(fill: Fill, b: Window, input: Input): (p: Pass)
    ensures |p.buf.bytes| == |b.bytes|
    decreases Room(b)
  {
    if Room(b) < READ_CHUNK then Pass(false, b, "")
    else
      var e := Ensured(b, READ_CHUNK);
      match input
      case WouldBlock => Pass(true, e, "")
      case EndOfStream => Pass(false, e, "")
      case ReadError => Pass(false, e, "")
      case Bytes(data, next) =>
        if data == "" then Pass(false, e, "")
        else
          var p := ReadPass(fill, Filled(fill, e, ReadChunk(data)), AfterRead(data, next));
          p.(bytes := ReadChunk(data) + p.bytes)
  }

  function WriteSize(n: nat, b: Window): nat { Min(n, Min(WRITE_CHUNK, Readable(b))) }

  /** The write loop: hand chunks over until drained, refused or failed. */
  function WritePass(b: Window, output: Output): (p: Pass)
    ensures |p.buf.bytes| == |b.bytes|
    decreases output
  {
    if Readable(b) == 0 then Pass(true, b, "")
    else
      match output
      case Refuses => Pass(true, b, "")
      case Breaks => Pass(false, b, "")
      case Takes(n, next) =>
        var k := WriteSize(n, b);
        if k == 0 then Pass(true, b, "")
        else
          var p := WritePass(Taken(b, k), next);
          p.(bytes := Contents(b)[..k] + p.bytes)
  }

  /** The pass, begun with some bytes already handed over. */
  function WriteOn(sent: string, b: Window, output: Output): Pass {
    var p := WritePass(b, output);
    p.(bytes := sent + p.bytes)
  }

  lemma WriteOnTakes(sent: string, b: Window, n: nat, next: Output)
    requires Readable(b) > 0 && WriteSize(n, b) > 0
    ensures WriteOn(sent, b, Takes(n, next)) ==
            WriteOn(sent + Contents(b)[..WriteSize(n, b)], Taken(b, WriteSize(n, b)), next)
  {
    var k := WriteSize(n, b);
    ConcatAssoc(sent, Contents(b)[..k], WritePass(Taken(b, k), next).bytes);
  }

  lemma WriteOnStops(sent: string, b: Window, output: Output)
    requires Readable(b) > 0 && output.Takes? ==> WriteSize(output.n, b) == 0
    ensures WriteOn(sent, b, output) == Pass(Readable(b) == 0 || !output.Breaks?, b, sent)
  {
    assert sent + "" == sent;
  }

  // ------------------------------------------------------------------------- pieces

  /** The task a stored callback gives rise to, if there is a callback. */
  function Notice(kind: Kind, cb: Option<Script>): seq<Task> {
    if cb.None? then [] else [Task(kind, cb.value)]
  }

  /** Moves the first bytes out of the read buffer and posts them to the callback, if any. */
  function Deliver(s: Stream, len: nat, cb: Option<Script>): Stream
    requires len <= Readable(s.readBuf)
  {
    var data := Contents(s.readBuf)[..len];
    s.(readBuf := Taken(s.readBuf, len),
       posted := s.posted + Notice(ReadDone(data), cb),
       log := s.log.(consumed := s.log.consumed + [Chunk(data, cb)]))
  }

  /** The part of close() that hands a read-until-close its last bytes. */
  function FlushOnClose(s: Stream): Stream {
    if s.readUntilClose && Readable(s.readBuf) > 0 then Deliver(s, Readable(s.readBuf), s.readCb) else s
  }

  function Close(s: Stream): Stream {
    if s.closed then s
    else
      var s := FlushOnClose(s);
      s.(closed := true, readUntilClose := false,
         state := NONE, slot := if s.state.Empty() then s.slot else None,
         posted := s.posted + Notice(CloseDone, s.closeCb),
         connectCb := None, readCb := None, writeCb := None, closeCb := None)
  }

  function Updated(s: Stream, state: Mask): Stream {
    s.(state := state, slot := if s.slot.None? then None else Some(state.Union(ERROR)))
  }

  function AddState(s: Stream, m: Mask): Stream {
    if s.closed then s
    else if s.state.Empty() then
      var state := ERROR.Union(m);
      s.(state := state, slot := if s.reachable then Some(state.Union(ERROR)) else s.slot)
    else Updated(s, s.state.Union(m))
  }

  /** What a successful pass hands to the pending request. */
  function Extract(s: Stream): Stream {
    if s.readBytes > 0 && Readable(s.readBuf) >= s.readBytes then
      Deliver(s, s.readBytes, s.readCb).(readBytes := 0, readCb := None)
    else if s.readDelimiter != "" then
      var i := Find(Contents(s.readBuf), s.readDelimiter);
      if i < 0 then s
      else Deliver(s, i + |s.readDelimiter|, s.readCb).(readDelimiter := "", readCb := None)
    else if s.readUntilClose && Readable(s.readBuf) > 0 then
      Deliver(s, Readable(s.readBuf), s.readCb)
    else s
  }

  function Receive(s: Stream, p: Pass): Stream {
    s.(readBuf := p.buf, log := s.log.(received := s.log.received + p.bytes))
  }

  /** handleRead; the flag reports failure. */
  function HandleRead(s: Stream, fill: Fill, input: Input): (Stream, bool) {
    var p := ReadPass(fill, s.readBuf, input);
    if p.ok then (Extract(Receive(s, p)), false) else (Receive(s, p), true)
  }

  /** handleWrite; the flag reports failure. */
  function HandleWrite(s: Stream, output: Output): (Stream, bool) {
    var p := WritePass(s.writeBuf, output);
    var drained := p.ok && Readable(p.buf) == 0;
    (s.(writeBuf := p.buf, log := s.log.(sent := s.log.sent + p.bytes),
        posted := if drained then s.posted + Notice(WriteDone, s.writeCb) else s.posted,
        writeCb := if drained then None else s.writeCb), !p.ok)
  }

  /** handleConnect; `failure` is what errno holds, if the socket reports an error. */
  function HandleConnect(s: Stream, failure: Option<int>): Stream {
    var err := if failure.Some? then failure.value else 0;
    var s := s.(posted := s.posted + Notice(ConnectDone(err), s.connectCb), connectCb := None,
                connecting := failure.Some?);
    if failure.Some? then Close(s) else s
  }

  // -------------------------------------------------------------------- operations

  function Connect(s: Stream, ok: bool): (Stream, bool) {
    var s := s.(connecting := true);
    if ok then (AddState(s, WRITE), true) else (Close(s), false)
  }

  function ConnectWith(s: Stream, ok: bool, cb: Option<Script>): (Stream, bool) {
    var (s, connected) := Connect(s, ok);
    (if connected then s.(connectCb := cb) else s, connected)
  }

  function JustWrite(s: Stream, data: string): (Stream, int) {
    if s.closed then (s, -1)
    else if |data| <= 0 then (s, -2)
    else if Room(s.writeBuf) < |data| then (Close(s), -3)
    else (s.(writeBuf := Appended(s.writeBuf, data),
             log := s.log.(accepted := s.log.accepted + data)), 0)
  }

  /** The half of writeBytes after the bytes are accepted, on a connected stream. */
  function Send(s: Stream, output: Output): (Stream, bool) {
    var (s, failed) := HandleWrite(s, output);
    if failed then (Close(s), true)
    else (if Readable(s.writeBuf) > 0 then AddState(s, WRITE) else s, false)
  }

  function WriteBytes(s: Stream, data: string, output: Output): (Stream, int) {
    var (s, ret) := JustWrite(s, data);
    if ret != 0 || s.connecting then (s, ret)
    else
      var (s, failed) := Send(s, output);
      (s, if failed then -4 else 0)
  }

  function WriteBytesWith(s: Stream, data: string, output: Output, cb: Option<Script>): (Stream, int) {
    var (s, ret) := WriteBytes(s.(writeCb := cb), data, output);
    (if ret != 0 then s.(writeCb := None) else s, ret)
  }

  /** The shared tail of the three read calls: read now, then wait for more. */
  function StartRead(s: Stream, fill: Fill, input: Input, failure: int): (Stream, int) {
    var (s, failed) := HandleRead(s, fill, input);
    if failed then (Close(s), failure) else (AddState(s, READ), 0)
  }

  function Requested(s: Stream, r: Request, cb: Option<Script>): Stream {
    s.(log := s.log.(requests := s.log.requests + [r], callers := s.log.callers + [cb]))
  }

  /** A counted request once issued: served from the buffer, or stored and read for. */
  function SeekCount(s: Stream, fill: Fill, n: nat, cb: Option<Script>, input: Input): (Stream, int) {
    if Readable(s.readBuf) >= n then (Deliver(s, n, cb), 0)
    else StartRead(s.(readBytes := n, readCb := cb), fill, input, -2)
  }

  function ReadBytes(s: Stream, fill: Fill, n: int, cb: Option<Script>, input: Input): (Stream, int) {
    if n <= 0 then (s, -1) else SeekCount(Requested(s, Count(n), cb), fill, n, cb, input)
  }

  /** A delimiter request once issued: served from the buffer, or stored and read for. */
  function SeekDelimiter(s: Stream, fill: Fill, d: string, cb: Option<Script>, input: Input): (Stream, int) {
    var i := Find(Contents(s.readBuf), d);
    if i >= 0 then (Deliver(s, i + |d|, cb), 0)
    else StartRead(s.(readDelimiter := d, readCb := cb), fill, input, -2)
  }

  function ReadUntil(s: Stream, fill: Fill, d: string, cb: Option<Script>, input: Input): (Stream, int) {
    if d == "" then (s, -1) else SeekDelimiter(Requested(s, Until(d), cb), fill, d, cb, input)
  }

  function ReadUntilClose(s: Stream, fill: Fill, cb: Option<Script>, input: Input): (Stream, int) {
    StartRead(Requested(s, ToClose, cb).(readUntilClose := true, readCb := cb), fill, input, -1)
  }

  /** The interest mask handleEvents leaves behind. */
  function NextState(s: Stream): Mask {
    var reading, writing := s.readBytes > 0, Readable(s.writeBuf) > 0;
    Mask(reading || !writing, writing, true)
  }

  /** handleEvents after its read step. */
  function FinishEvents(s: Stream, events: Mask, output: Output): Stream {
    var (s, failed) := if events.write then HandleWrite(s, output) else (s, false);
    if failed || events.error then Close(s) else
    if NextState(s) == s.state then s else Updated(s, NextState(s))
  }

  /** handleEvents after its connect step. */
  function ServeEvents(s: Stream, fill: Fill, events: Mask, input: Input, output: Output): Stream {
    var (s, failed) := if events.read then HandleRead(s, fill, input) else (s, false);
    if failed then Close(s) else FinishEvents(s, events, output)
  }

  function HandleEvents(s: Stream, fill: Fill, events: Mask, failure: Option<int>, input: Input, output: Output): Stream {
    if s.closed then s else
    var s := if s.connecting then HandleConnect(s, failure) else s;
    if s.closed then s else ServeEvents(s, fill, events, input, output)
  }

  // --------------------------------------------------------------------------- runs

  datatype Op =
    | OpConnect(ok: bool, cb: Option<Script>)
    | OpSetCloseCallback(cb: Option<Script>)
    | OpClose
    | OpJustWrite(data: string)
    | OpWrite(data: string, output: Output)
    | OpWriteWith(data: string, output: Output, cb: Option<Script>)
    | OpReadBytes(n: int, cb: Option<Script>, input: Input)
    | OpReadUntil(delimiter: string, cb: Option<Script>, input: Input)
    | OpReadUntilClose(cb: Option<Script>, input: Input)
    | OpEvents(events: Mask, failure: Option<int>, input: Input, output: Output)

  predicate Idle(s: Stream) {
    s.readCb.None? && s.readBytes == 0 && s.readDelimiter == "" && !s.readUntilClose
  }

  /**
   What the assertions of the stream ask of a caller; events come from the loop, so only to a
   stream that registered (or that has closed since).
   */
  predicate Permitted(s: Stream, op: Op) {
    match op
    case OpWriteWith(_, _, _) => s.writeCb.None?
    case OpReadBytes(n, _, _) => n > 0 ==> Idle(s)
    case OpReadUntil(d, _, _) => d != "" ==> Idle(s)
    case OpReadUntilClose(_, _) => Idle(s)
    case OpEvents(_, _, _, _) => s.closed || s.state != NONE
    case _ => true
  }

  /** A read call that gets as far as reading. */
  predicate Reads(op: Op) {
    (op.OpReadBytes? && op.n > 0) || (op.OpReadUntil? && op.delimiter != "") || op.OpReadUntilClose?
  }

  /** And, what the code does not check, that a read, a connect or a close callback finds it open. */
  predicate Allowed(s: Stream, op: Op) {
    Permitted(s, op) && (s.closed ==> !Reads(op) && !op.OpConnect? && !op.OpSetCloseCallback?)
  }

  function Step(s: Stream, fill: Fill, op: Op): Stream {
    match op
    case OpConnect(ok, cb) => ConnectWith(s, ok, cb).0
    case OpSetCloseCallback(cb) => s.(closeCb := cb)
    case OpClose => Close(s)
    case OpJustWrite(data) => JustWrite(s, data).0
    case OpWrite(data, output) => WriteBytes(s, data, output).0
    case OpWriteWith(data, output, cb) => WriteBytesWith(s, data, output, cb).0
    case OpReadBytes(n, cb, input) => ReadBytes(s, fill, n, cb, input).0
    case OpReadUntil(d, cb, input) => ReadUntil(s, fill, d, cb, input).0
    case OpReadUntilClose(cb, input) => ReadUntilClose(s, fill, cb, input).0
    case OpEvents(events, failure, input, output) => HandleEvents(s, fill, events, failure, input, output)
  }

  predicate Runnable(s: Stream, fill: Fill, ops: seq<Op>)
    decreases |ops|
  {
    ops == [] || (Allowed(s, ops[0]) && Runnable(Step(s, fill, ops[0]), fill, ops[1..]))
  }

  predicate Permits(s: Stream, fill: Fill, ops: seq<Op>)
    decreases |ops|
  {
    ops == [] || (Permitted(s, ops[0]) && Permits(Step(s, fill, ops[0]), fill, ops[1..]))
  }

  function Run(s: Stream, fill: Fill, ops: seq<Op>): Stream
    decreases |ops|
  {
    if ops == [] then s else Run(Step(s, fill, ops[0]), fill, ops[1..])
  }

  /** A stream just constructed over a descriptor. */
  predicate Fresh(s: Stream) {
    && !s.connecting && !s.closed && s.state == NONE && s.slot == None
    && s.connectCb.None? && s.writeCb.None? && s.closeCb.None? && Idle(s)
    && Contents(s.readBuf) == "" && Contents(s.writeBuf) == ""
    && |s.readBuf.bytes| == |s.writeBuf.bytes| == DEFAULT_SIZE
    && s.posted == [] && s.log == Log([], [], "", [], "", "")
  }
}
