/** Which callbacks a stream posts for what it consumed, and the read it can never serve. */
module StreamNotices {
  import opened Common
  import opened LoopModel
  import opened Buffers
  import opened StreamModel
  import opened StreamProofs

  /** The read notices among the first `n` posted tasks. */
  function ReadTasks(posted: seq<Task>, n: nat): seq<Task>
    requires n <= |posted|
  {
    if n == 0 then []
    else ReadTasks(posted, n - 1) + (if posted[n - 1].kind.ReadDone? then [posted[n - 1]] else [])
  }

  /** The read notices the first `n` consumed chunks call for. */
  function OwedTasks(consumed: seq<Chunk>, n: nat): seq<Task>
    requires n <= |consumed|
  {
    if n == 0 then []
    else OwedTasks(consumed, n - 1) + Notice(ReadDone(consumed[n - 1].data), consumed[n - 1].callback)
  }

  /** Every consumed chunk that had a callback was posted to it, once, in order; nothing else was. */
  ghost predicate Paid(posted: seq<Task>, consumed: seq<Chunk>) {
    ReadTasks(posted, |posted|) == OwedTasks(consumed, |consumed|)
  }

  ghost predicate PaidUp(s: Stream) {
    Paid(s.posted, s.log.consumed)
  }

  lemma {:induction false} ReadTasksPrefix(posted: seq<Task>, more: seq<Task>, n: nat)
    requires n <= |posted|
    ensures ReadTasks(posted + more, n) == ReadTasks(posted, n)
  {
    if n > 0 { ReadTasksPrefix(posted, more, n - 1); }
  }

  lemma {:induction false} OwedTasksPrefix(consumed: seq<Chunk>, more: seq<Chunk>, n: nat)
    requires n <= |consumed|
    ensures OwedTasks(consumed + more, n) == OwedTasks(consumed, n)
  {
    if n > 0 { OwedTasksPrefix(consumed, more, n - 1); }
  }

  lemma NoticeReads(posted: seq<Task>, kind: Kind, cb: Option<Script>, consumed: seq<Chunk>)
    requires Paid(posted, consumed) && !kind.ReadDone?
    ensures Paid(posted + Notice(kind, cb), consumed)
  {
    ReadTasksPrefix(posted, Notice(kind, cb), |posted|);
    if cb.None? { assert posted + Notice(kind, cb) == posted; }
  }

  lemma ChunkReads(posted: seq<Task>, consumed: seq<Chunk>, c: Chunk)
    requires Paid(posted, consumed)
    ensures Paid(posted + Notice(ReadDone(c.data), c.callback), consumed + [c])
  {
    ReadTasksPrefix(posted, Notice(ReadDone(c.data), c.callback), |posted|);
    OwedTasksPrefix(consumed, [c], |consumed|);
    if c.callback.None? { assert posted + Notice(ReadDone(c.data), c.callback) == posted; }
  }

  lemma DeliverPays(s: Stream, len: nat, cb: Option<Script>)
    requires PaidUp(s) && len <= Readable(s.readBuf)
    ensures PaidUp(Deliver(s, len, cb))
  {
    ChunkReads(s.posted, s.log.consumed, Chunk(Contents(s.readBuf)[..len], cb));
  }

  lemma ClosePays(s: Stream)
    requires PaidUp(s)
    ensures PaidUp(Close(s))
  {
    if s.readUntilClose && Readable(s.readBuf) > 0 { DeliverPays(s, Readable(s.readBuf), s.readCb); }
    NoticeReads(FlushOnClose(s).posted, CloseDone, s.closeCb, FlushOnClose(s).log.consumed);
  }

  /** How many bytes the pending request takes from the buffer, zero if it has to wait. */
  function Extractable(s: Stream): nat {
    if s.readBytes > 0 && Readable(s.readBuf) >= s.readBytes then s.readBytes
    else if s.readDelimiter != "" then
      var i := Find(Contents(s.readBuf), s.readDelimiter);
      if i < 0 then 0 else i + |s.readDelimiter|
    else if s.readUntilClose then Readable(s.readBuf)
    else 0
  }

  lemma HandleReadPays(s: Stream, fill: Fill, input: Input)
    requires PaidUp(s)
    ensures PaidUp(HandleRead(s, fill, input).0)
  {
    var s1 := Receive(s, ReadPass(fill, s.readBuf, input));
    if Extractable(s1) > 0 { DeliverPays(s1, Extractable(s1), s1.readCb); }
  }

  lemma HandleWritePays(s: Stream, output: Output)
    requires PaidUp(s)
    ensures PaidUp(HandleWrite(s, output).0)
  {
    NoticeReads(s.posted, WriteDone, s.writeCb, s.log.consumed);
    assert s.posted + [] == s.posted;
  }

  lemma AddStatePays(s: Stream, m: Mask)
    requires PaidUp(s)
    ensures PaidUp(AddState(s, m))
  {
  }

  lemma JustWritePays(s: Stream, data: string)
    requires PaidUp(s)
    ensures PaidUp(JustWrite(s, data).0)
  {
    if Room(s.writeBuf) < |data| { ClosePays(s); }
  }

  lemma SendPays(s: Stream, output: Output)
    requires PaidUp(s)
    ensures PaidUp(Send(s, output).0)
  {
    var (s1, failed) := HandleWrite(s, output);
    HandleWritePays(s, output);
    if failed { ClosePays(s1); } else { AddStatePays(s1, WRITE); }
  }

  lemma WritePays(s: Stream, data: string, output: Output)
    requires PaidUp(s)
    ensures PaidUp(WriteBytes(s, data, output).0)
  {
    JustWritePays(s, data);
    SendPays(JustWrite(s, data).0, output);
  }

  lemma StartReadPays(s: Stream, fill: Fill, input: Input, failure: int)
    requires PaidUp(s)
    ensures PaidUp(StartRead(s, fill, input, failure).0)
  {
    var (s1, failed) := HandleRead(s, fill, input);
    HandleReadPays(s, fill, input);
    if failed { ClosePays(s1); } else { AddStatePays(s1, READ); }
  }

  lemma HandleConnectPays(s: Stream, failure: Option<int>)
    requires PaidUp(s)
    ensures PaidUp(HandleConnect(s, failure))
  {
    var err := if failure.Some? then failure.value else 0;
    NoticeReads(s.posted, ConnectDone(err), s.connectCb, s.log.consumed);
    ClosePays(s.(posted := s.posted + Notice(ConnectDone(err), s.connectCb), connectCb := None,
                 connecting := failure.Some?));
  }

  lemma FinishEventsPays(s: Stream, events: Mask, output: Output)
    requires PaidUp(s)
    ensures PaidUp(FinishEvents(s, events, output))
  {
    HandleWritePays(s, output);
    var (s1, failed) := if events.write then HandleWrite(s, output) else (s, false);
    assert PaidUp(s1);
    if failed || events.error { ClosePays(s1); }
    else { assert PaidUp(Updated(s1, NextState(s1))); }
  }

  lemma ServeEventsPays(s: Stream, fill: Fill, events: Mask, input: Input, output: Output)
    requires PaidUp(s)
    ensures PaidUp(ServeEvents(s, fill, events, input, output))
  {
    HandleReadPays(s, fill, input);
    var (s1, failed) := if events.read then HandleRead(s, fill, input) else (s, false);
    assert PaidUp(s1);
    if failed { ClosePays(s1); } else { FinishEventsPays(s1, events, output); }
  }

  /** A request the buffer can serve at once. */
  lemma ServedPays(s: Stream, r: Request, len: nat, cb: Option<Script>)
    requires PaidUp(s) && len <= Readable(s.readBuf)
    ensures PaidUp(Deliver(Requested(s, r, cb), len, cb))
  {
    assert PaidUp(Requested(s, r, cb));
    DeliverPays(Requested(s, r, cb), len, cb);
  }

  lemma ReadBytesPays(s: Stream, fill: Fill, n: int, cb: Option<Script>, input: Input)
    requires PaidUp(s)
    ensures PaidUp(Step(s, fill, OpReadBytes(n, cb, input)))
  {
    if n > 0 {
      var asked := Requested(s, Count(n), cb).(readBytes := n, readCb := cb);
      if Readable(s.readBuf) >= n { ServedPays(s, Count(n), n, cb); }
      else { StartReadPays(asked, fill, input, -2); }
    }
  }

  lemma ReadUntilPays(s: Stream, fill: Fill, d: string, cb: Option<Script>, input: Input)
    requires PaidUp(s)
    ensures PaidUp(Step(s, fill, OpReadUntil(d, cb, input)))
  {
    if d != "" {
      var i := Find(Contents(s.readBuf), d);
      var asked := Requested(s, Until(d), cb).(readDelimiter := d, readCb := cb);
      if i >= 0 {
        ServedPays(s, Until(d), i + |d|, cb);
        assert Step(s, fill, OpReadUntil(d, cb, input)) == Deliver(Requested(s, Until(d), cb), i + |d|, cb);
      } else {
        StartReadPays(asked, fill, input, -2);
        assert Step(s, fill, OpReadUntil(d, cb, input)) == StartRead(asked, fill, input, -2).0;
      }
    }
  }

  lemma ConnectPays(s: Stream, fill: Fill, ok: bool, cb: Option<Script>)
    requires PaidUp(s)
    ensures PaidUp(Step(s, fill, OpConnect(ok, cb)))
  {
    var s1 := s.(connecting := true);
    if ok { AddStatePays(s1, WRITE); } else { ClosePays(s1); }
  }

  lemma EventsPay(s: Stream, fill: Fill, events: Mask, failure: Option<int>, input: Input, output: Output)
    requires PaidUp(s)
    ensures PaidUp(Step(s, fill, OpEvents(events, failure, input, output)))
  {
    hide ServeEvents, HandleConnect, Paid;
    HandleConnectPays(s, failure);
    ServeEventsPays(if s.connecting then HandleConnect(s, failure) else s, fill, events, input, output);
  }

  lemma ReadUntilClosePays(s: Stream, fill: Fill, cb: Option<Script>, input: Input)
    requires PaidUp(s)
    ensures PaidUp(Step(s, fill, OpReadUntilClose(cb, input)))
  {
    var asked := Requested(s, ToClose, cb).(readUntilClose := true, readCb := cb);
    assert asked.posted == s.posted && asked.log.consumed == s.log.consumed;
    StartReadPays(asked, fill, input, -1);
  }

  lemma WriteWithPays(s: Stream, fill: Fill, data: string, output: Output, cb: Option<Script>)
    requires PaidUp(s)
    ensures PaidUp(Step(s, fill, OpWriteWith(data, output, cb)))
  {
    WritePays(s.(writeCb := cb), data, output);
  }

  lemma StepPays(s: Stream, fill: Fill, op: Op)
    requires PaidUp(s)
    ensures PaidUp(Step(s, fill, op))
  {
    match op
    case OpConnect(ok, cb) => ConnectPays(s, fill, ok, cb);
    case OpSetCloseCallback(cb) =>
    case OpClose => ClosePays(s);
    case OpJustWrite(data) => JustWritePays(s, data);
    case OpWrite(data, output) => WritePays(s, data, output);
    case OpWriteWith(data, output, cb) => WriteWithPays(s, fill, data, output, cb);
    case OpReadBytes(n, cb, input) => ReadBytesPays(s, fill, n, cb, input);
    case OpReadUntil(d, cb, input) => ReadUntilPays(s, fill, d, cb, input);
    case OpReadUntilClose(cb, input) => ReadUntilClosePays(s, fill, cb, input);
    case OpEvents(events, failure, input, output) => EventsPay(s, fill, events, failure, input, output);
  }

  /** In every reachable state the read notices are exactly those the consumed chunks call for. */
  lemma {:induction false} ReadsReachTheirCallbacks(s: Stream, fill: Fill, ops: seq<Op>)
    requires PaidUp(s)
    ensures PaidUp(Run(s, fill, ops))
    decreases |ops|
  {
    if ops != [] {
      StepPays(s, fill, ops[0]);
      ReadsReachTheirCallbacks(Step(s, fill, ops[0]), fill, ops[1..]);
    }
  }

  // ------------------------------------------------- a counted read that cannot complete

  /** A pending counted read for more than a pass can leave in the buffer. */
  ghost predicate Starved(s: Stream) {
    && ReadBounded(s) && s.readBytes > DEFAULT_SIZE - READ_CHUNK
    && s.readDelimiter == "" && !s.readUntilClose
  }

  lemma StarvedRead(s: Stream, fill: Fill, input: Input)
    requires Starved(s)
    ensures var (s', failed) := HandleRead(s, fill, input);
      && s'.log.consumed == s.log.consumed && s'.readBytes == s.readBytes && s'.closed == s.closed
      && s'.readDelimiter == "" && !s'.readUntilClose
      && |s'.readBuf.bytes| == DEFAULT_SIZE && (!failed || s.closed ==> Starved(s'))
  {
    ReadPassTakesAll(fill, s.readBuf, input);
  }

  lemma StarvedClose(s: Stream)
    requires s.readBytes > DEFAULT_SIZE - READ_CHUNK && |s.readBuf.bytes| == DEFAULT_SIZE
    requires s.readDelimiter == "" && !s.readUntilClose
    ensures (!s.closed || Starved(s) ==> Starved(Close(s))) && Close(s).log.consumed == s.log.consumed
  {
  }

  lemma StarvedWrite(s: Stream, data: string, output: Output)
    requires Starved(s)
    ensures Starved(JustWrite(s, data).0) && JustWrite(s, data).0.log.consumed == s.log.consumed
    ensures Starved(WriteBytes(s, data, output).0) && WriteBytes(s, data, output).0.log.consumed == s.log.consumed
  {
    StarvedClose(s);
    var (s1, ret) := JustWrite(s, data);
    StarvedClose(HandleWrite(s1, output).0);
  }

  lemma StarvedFinish(s: Stream, events: Mask, output: Output)
    requires Starved(s) && !s.closed
    ensures var s' := FinishEvents(s, events, output); Starved(s') && s'.log.consumed == s.log.consumed
  {
    var (s1, failed) := if events.write then HandleWrite(s, output) else (s, false);
    assert Starved(s1) && s1.log.consumed == s.log.consumed && !s1.closed;
    if failed || events.error { StarvedClose(s1); }
  }

  lemma StarvedServe(s: Stream, fill: Fill, events: Mask, input: Input, output: Output)
    requires Starved(s) && !s.closed
    ensures var s' := ServeEvents(s, fill, events, input, output);
      Starved(s') && s'.log.consumed == s.log.consumed
  {
    StarvedRead(s, fill, input);
    var (s1, failed) := if events.read then HandleRead(s, fill, input) else (s, false);
    if failed { StarvedClose(s1); } else { StarvedFinish(s1, events, output); }
  }

  lemma StarvedEvents(s: Stream, fill: Fill, events: Mask, failure: Option<int>, input: Input, output: Output)
    requires Starved(s)
    ensures var s' := HandleEvents(s, fill, events, failure, input, output);
      Starved(s') && s'.log.consumed == s.log.consumed
  {
    if !s.closed {
      var err := if failure.Some? then failure.value else 0;
      StarvedClose(s.(posted := s.posted + Notice(ConnectDone(err), s.connectCb), connectCb := None,
                      connecting := failure.Some?));
      var s1 := if s.connecting then HandleConnect(s, failure) else s;
      if !s1.closed { StarvedServe(s1, fill, events, input, output); }
    }
  }

  lemma StarvedStep(s: Stream, fill: Fill, op: Op)
    requires Starved(s) && Allowed(s, op)
    ensures Starved(Step(s, fill, op)) && Step(s, fill, op).log.consumed == s.log.consumed
  {
    match op
    case OpConnect(ok, cb) => StarvedClose(s.(connecting := true));
    case OpClose => StarvedClose(s);
    case OpJustWrite(data) => StarvedWrite(s, data, Refuses);
    case OpWrite(data, output) => StarvedWrite(s, data, output);
    case OpWriteWith(data, output, cb) => StarvedWrite(s.(writeCb := cb), data, output);
    case OpEvents(events, failure, input, output) => StarvedEvents(s, fill, events, failure, input, output);
    case _ =>
  }

  /**
   A counted read for more than the capacity less one chunk (101376 bytes) is never served,
   whatever arrives: over any run from where it is pending nothing more is consumed.
   */
  lemma {:induction false} OversizedReadNeverCompletes(s: Stream, fill: Fill, ops: seq<Op>)
    requires Starved(s) && Runnable(s, fill, ops)
    ensures var s' := Run(s, fill, ops);
      s'.log.consumed == s.log.consumed && s'.readBytes > DEFAULT_SIZE - READ_CHUNK
    decreases |ops|
  {
    if ops != [] {
      StarvedStep(s, fill, ops[0]);
      OversizedReadNeverCompletes(Step(s, fill, ops[0]), fill, ops[1..]);
    }
  }

  /** And every such request starts out starved. */
  lemma OversizedReadStarves(s: Stream, fill: Fill, n: int, cb: Option<Script>, input: Input)
    requires ReadBounded(s) && Idle(s) && DEFAULT_SIZE - READ_CHUNK < n
    requires s.closed ==> Readable(s.readBuf) < n
    ensures var s' := Step(s, fill, OpReadBytes(n, cb, input));
      Starved(s') && s'.log.consumed == s.log.consumed
  {
    hide ReadPass;
    var s1 := Requested(s, Count(n), cb).(readBytes := n, readCb := cb);
    StarvedRead(s1, fill, input);
    StarvedClose(HandleRead(s1, fill, input).0);
  }

  /** Any bytes that make up the rest of a short enough request complete it. */
  lemma ReadCompletes(s: Stream, fill: Fill, n: int, cb: Option<Script>, data: string)
    requires ReadBounded(s) && Idle(s) && !s.closed && 0 < n <= DEFAULT_SIZE - READ_CHUNK
    requires Readable(s.readBuf) < n ==> |data| == n - Readable(s.readBuf)
    ensures var s' := Step(s, fill, OpReadBytes(n, cb, Bytes(data, WouldBlock)));
      && !s'.closed && |s'.log.consumed| == |s.log.consumed| + 1
      && s.log.consumed <= s'.log.consumed
      && |s'.log.consumed[|s.log.consumed|].data| == n && s'.log.consumed[|s.log.consumed|].callback == cb
  {
    if Readable(s.readBuf) < n {
      var asked := Requested(s, Count(n), cb).(readBytes := n, readCb := cb);
      assert Incoming(Bytes(data, WouldBlock)) == data + "";
      ReadPassTakesAll(fill, s.readBuf, Bytes(data, WouldBlock));
      var p := ReadPass(fill, s.readBuf, Bytes(data, WouldBlock));
      assert Readable(p.buf) == n;
      assert HandleRead(asked, fill, Bytes(data, WouldBlock)) == (Extract(Receive(asked, p)), false);
    }
  }

  /** Something is consumed for the request, at once or over a run from there. */
  ghost predicate Completes(s: Stream, fill: Fill, n: int, cb: Option<Script>, input: Input, ops: seq<Op>) {
    var s1 := Step(s, fill, OpReadBytes(n, cb, input));
    Runnable(s1, fill, ops) && |Run(s1, fill, ops).log.consumed| > |s.log.consumed|
  }

  /**
   The exact bound: some socket and some run complete a counted read if and only if it asks for
   no more than the capacity less one chunk.
   */
  lemma CountedReadCompletesIff(s: Stream, fill: Fill, n: int, cb: Option<Script>)
    requires ReadBounded(s) && Idle(s) && !s.closed && n > 0
    ensures (exists input, ops :: Completes(s, fill, n, cb, input, ops)) <==> n <= DEFAULT_SIZE - READ_CHUNK
  {
    if n <= DEFAULT_SIZE - READ_CHUNK {
      var data := seq(if Readable(s.readBuf) < n then n - Readable(s.readBuf) else 0, _ => 'x');
      ReadCompletes(s, fill, n, cb, data);
      assert Completes(s, fill, n, cb, Bytes(data, WouldBlock), []);
    } else {
      forall input, ops ensures !Completes(s, fill, n, cb, input, ops) {
        OversizedReadStarves(s, fill, n, cb, input);
        var s1 := Step(s, fill, OpReadBytes(n, cb, input));
        if Runnable(s1, fill, ops) { OversizedReadNeverCompletes(s1, fill, ops); }
      }
    }
  }
}
