/** Where the bytes of a stream go, over whole runs. */
module StreamBytes {
  import opened Common
  import opened LoopModel
  import opened Buffers
  import opened StreamModel
  import opened StreamProofs

  // ---------------------------------------------------------------- the write side

  /** The bytes accepted for writing are those sent, then those waiting. */
  ghost predicate WriteFifo(s: Stream) {
    s.log.accepted == s.log.sent + Contents(s.writeBuf)
  }

  /** What one operation may do to the write side. */
  ghost predicate WritesForward(s: Stream, s': Stream) {
    && WriteFifo(s')
    && s.log.accepted <= s'.log.accepted && s.log.sent <= s'.log.sent
    && (s.closed || s'.connecting ==> s'.log.sent == s.log.sent)
    && (s.closed ==> s'.log.accepted == s.log.accepted)
  }

  lemma HandleWriteForward(s: Stream, output: Output)
    requires WriteFifo(s)
    ensures var s' := HandleWrite(s, output).0;
      && WriteFifo(s') && s'.log.accepted == s.log.accepted && s.log.sent <= s'.log.sent
      && s'.connecting == s.connecting
  {
    var p := WritePass(s.writeBuf, output);
    WritePassIsFifo(s.writeBuf, output);
    ConcatAssoc(s.log.sent, p.bytes, Contents(p.buf));
  }

  /** A refused append leaves no partial payload; an accepted one is taken whole. */
  lemma JustWriteForward(s: Stream, data: string)
    requires WriteFifo(s)
    ensures var (s', ret) := JustWrite(s, data);
      && WriteFifo(s') && s'.log.sent == s.log.sent
      && s'.log.accepted == (if ret == 0 then s.log.accepted + data else s.log.accepted)
  {
    if |data| <= Room(s.writeBuf) {
      AppendIsFifo(s.writeBuf, data);
      ConcatAssoc(s.log.sent, Contents(s.writeBuf), data);
    }
  }

  lemma SendForward(s: Stream, output: Output)
    requires WriteFifo(s)
    ensures var s' := Send(s, output).0;
      && WriteFifo(s') && s'.log.accepted == s.log.accepted && s.log.sent <= s'.log.sent
      && s'.connecting == s.connecting
  {
    HandleWriteForward(s, output);
    CloseWrites(HandleWrite(s, output).0);
  }

  lemma WriteForward(s: Stream, data: string, output: Output)
    requires WriteFifo(s)
    ensures var (s', ret) := WriteBytes(s, data, output);
      && WritesForward(s, s')
      && s'.log.accepted == (if ret == 0 || ret == -4 then s.log.accepted + data else s.log.accepted)
  {
    JustWriteForward(s, data);
    var (s1, ret) := JustWrite(s, data);
    if ret == 0 && !s1.connecting { SendForward(s1, output); }
  }

  /** The steps that leave the write side alone. */
  ghost predicate SameWrites(s: Stream, s': Stream) {
    s'.writeBuf == s.writeBuf && s'.log.accepted == s.log.accepted && s'.log.sent == s.log.sent
  }

  lemma CloseWrites(s: Stream)
    ensures SameWrites(s, Close(s)) && Close(s).connecting == s.connecting
  {
  }

  lemma HandleReadWrites(s: Stream, fill: Fill, input: Input)
    ensures SameWrites(s, HandleRead(s, fill, input).0) && HandleRead(s, fill, input).0.connecting == s.connecting
  {
    hide ReadPass, Find;
  }

  lemma HandleConnectWrites(s: Stream, failure: Option<int>)
    ensures SameWrites(s, HandleConnect(s, failure))
    ensures HandleConnect(s, failure).closed || !HandleConnect(s, failure).connecting
  {
    if failure.Some? {
      CloseWrites(s.(posted := s.posted + Notice(ConnectDone(failure.value), s.connectCb), connectCb := None,
                     connecting := true));
    }
  }

  lemma StartReadWrites(s: Stream, fill: Fill, input: Input, failure: int)
    ensures SameWrites(s, StartRead(s, fill, input, failure).0)
  {
    HandleReadWrites(s, fill, input);
    CloseWrites(HandleRead(s, fill, input).0);
  }

  lemma ReadBytesWrites(s: Stream, fill: Fill, n: int, cb: Option<Script>, input: Input)
    ensures SameWrites(s, ReadBytes(s, fill, n, cb, input).0)
  {
    if n > 0 && Readable(s.readBuf) < n {
      StartReadWrites(Requested(s, Count(n), cb).(readBytes := n, readCb := cb), fill, input, -2);
    }
  }

  lemma ReadUntilWrites(s: Stream, fill: Fill, d: string, cb: Option<Script>, input: Input)
    ensures SameWrites(s, ReadUntil(s, fill, d, cb, input).0)
  {
    if d != "" && Find(Contents(s.readBuf), d) < 0 {
      StartReadWrites(Requested(s, Until(d), cb).(readDelimiter := d, readCb := cb), fill, input, -2);
    }
  }

  lemma ReadsLeaveWrites(s: Stream, fill: Fill, op: Op)
    requires op.OpReadBytes? || op.OpReadUntil? || op.OpReadUntilClose?
    ensures SameWrites(s, Step(s, fill, op))
  {
    match op
    case OpReadBytes(n, cb, input) => ReadBytesWrites(s, fill, n, cb, input);
    case OpReadUntil(d, cb, input) => ReadUntilWrites(s, fill, d, cb, input);
    case OpReadUntilClose(cb, input) =>
      StartReadWrites(Requested(s, ToClose, cb).(readUntilClose := true, readCb := cb), fill, input, -1);
  }

  lemma FinishEventsForward(s: Stream, events: Mask, output: Output)
    requires WriteFifo(s)
    ensures var s' := FinishEvents(s, events, output);
      && WriteFifo(s') && s'.log.accepted == s.log.accepted && s.log.sent <= s'.log.sent
      && s'.connecting == s.connecting
  {
    hide HandleWrite, Close;
    HandleWriteForward(s, output);
    CloseWrites(if events.write then HandleWrite(s, output).0 else s);
  }

  lemma ServeEventsForward(s: Stream, fill: Fill, events: Mask, input: Input, output: Output)
    requires WriteFifo(s)
    ensures var s' := ServeEvents(s, fill, events, input, output);
      && WriteFifo(s') && s'.log.accepted == s.log.accepted && s.log.sent <= s'.log.sent
      && s'.connecting == s.connecting
  {
    HandleReadWrites(s, fill, input);
    var s1 := if events.read then HandleRead(s, fill, input).0 else s;
    CloseWrites(s1);
    FinishEventsForward(s1, events, output);
  }

  /** handleEvents writes nothing while the connect is outstanding. */
  lemma EventsForward(s: Stream, fill: Fill, events: Mask, failure: Option<int>, input: Input, output: Output)
    requires WriteFifo(s)
    ensures WritesForward(s, HandleEvents(s, fill, events, failure, input, output))
  {
    if !s.closed {
      HandleConnectWrites(s, failure);
      var s1 := if s.connecting then HandleConnect(s, failure) else s;
      if !s1.closed { ServeEventsForward(s1, fill, events, input, output); }
    }
  }

  lemma StepForward(s: Stream, fill: Fill, op: Op)
    requires WriteFifo(s)
    ensures WritesForward(s, Step(s, fill, op))
  {
    match op
    case OpConnect(ok, cb) => CloseWrites(s.(connecting := true));
    case OpSetCloseCallback(cb) =>
    case OpClose => CloseWrites(s);
    case OpJustWrite(data) => JustWriteForward(s, data);
    case OpWrite(data, output) => WriteForward(s, data, output);
    case OpWriteWith(data, output, cb) => WriteForward(s.(writeCb := cb), data, output);
    case OpEvents(events, failure, input, output) => EventsForward(s, fill, events, failure, input, output);
    case _ => ReadsLeaveWrites(s, fill, op);
  }

  /** Over any run, what was sent is a prefix of what was accepted, and nothing sent is unsaid. */
  lemma {:induction false} WritesAreFifo(s: Stream, fill: Fill, ops: seq<Op>)
    requires WriteFifo(s)
    ensures WriteFifo(Run(s, fill, ops))
    ensures s.log.sent <= Run(s, fill, ops).log.sent && s.log.accepted <= Run(s, fill, ops).log.accepted
    decreases |ops|
  {
    if ops != [] {
      StepForward(s, fill, ops[0]);
      WritesAreFifo(Step(s, fill, ops[0]), fill, ops[1..]);
    }
  }
}
