/** What every run of a stream keeps: wake-ups, callback discipline, write order, bounds. */
module StreamProofs {
  import opened Common
  import opened LoopModel
  import opened Buffers
  import opened StreamModel

  // ------------------------------------------------------------------- socket passes

  /** The bytes the socket offers before it blocks, ends or fails. */
  function Incoming(input: Input): string {
    if input.Bytes? && input.data != "" then input.data + Incoming(input.next) else ""
  }

  /** Whether what stops them is would-block. */
  predicate Blocks(input: Input) {
    if input.Bytes? then input.data != "" && Blocks(input.next) else input.WouldBlock?
  }

  lemma AfterReadContinues(data: string, next: Input)
    requires data != ""
    ensures data + Incoming(next) == ReadChunk(data) + Incoming(AfterRead(data, next))
    ensures Blocks(AfterRead(data, next)) == Blocks(next)
  {
    if |data| > READ_CHUNK {
      assert data[..READ_CHUNK] + (data[READ_CHUNK..] + Incoming(next)) == data + Incoming(next);
    }
  }

  lemma ChunkHolds(fill: Fill, b: Window, data: string)
    requires |data| <= READ_CHUNK <= Room(b)
    ensures |data| <= Writable(Ensured(b, READ_CHUNK))
    ensures var f := Filled(fill, Ensured(b, READ_CHUNK), data);
      Readable(f) == Readable(b) + |data| && |f.bytes| == |b.bytes|
  {
  }

  /**
   One read pass, without its chunks: it succeeds exactly when the socket ends by blocking and
   everything it offered leaves a chunk of room; it then took in all of that, and never more
   than that.
   */
  lemma {:induction false} ReadPassTakesAll(fill: Fill, b: Window, input: Input)
    ensures var p := ReadPass(fill, b, input);
      && Readable(p.buf) == Readable(b) + |p.bytes|
      && p.bytes <= Incoming(input)
      && (p.ok <==> Blocks(input) && Readable(b) + |Incoming(input)| + READ_CHUNK <= |b.bytes|)
      && (p.ok ==> p.bytes == Incoming(input))
    decreases Room(b)
  {
    if Room(b) >= READ_CHUNK && input.Bytes? && input.data != "" {
      ChunkHolds(fill, b, ReadChunk(input.data));
      hide Ensured, Filled, Overwrite;
      AfterReadContinues(input.data, input.next);
      ReadPassTakesAll(fill, Filled(fill, Ensured(b, READ_CHUNK), ReadChunk(input.data)),
                       AfterRead(input.data, input.next));
    }
  }

  /** Filling at the write end, a pass appends what it received. */
  lemma {:induction false} MeantPassIsFifo(b: Window, input: Input)
    ensures var p := ReadPass(AtWriteEnd, b, input); Contents(p.buf) == Contents(b) + p.bytes
    decreases Room(b)
  {
    if Room(b) >= READ_CHUNK {
      var e := Ensured(b, READ_CHUNK);
      EnsuringKeepsContents(b, READ_CHUNK);
      if input.Bytes? && input.data != "" {
        var chunk, next := ReadChunk(input.data), AfterRead(input.data, input.next);
        MeantFillIsFifo(e, chunk);
        MeantPassIsFifo(Filled(AtWriteEnd, e, chunk), next);
        var rest := ReadPass(AtWriteEnd, Filled(AtWriteEnd, e, chunk), next).bytes;
        ConcatAssoc(Contents(b), chunk, rest);
      }
    }
  }

  lemma {:induction false} WritePassIsFifo(b: Window, output: Output)
    ensures var p := WritePass(b, output); p.bytes + Contents(p.buf) == Contents(b)
    decreases output
  {
    if Readable(b) > 0 && output.Takes? && WriteSize(output.n, b) > 0 {
      TakeIsFifo(b, WriteSize(output.n, b));
      WritePassIsFifo(Taken(b, WriteSize(output.n, b)), output.next);
    }
  }

  // ---------------------------------------------------------------------- invariants

  /**
   No lost wake-up. While open, the loop slot is registered exactly when the state is non-zero
   (and the descriptor fits the handler table), with that very mask; a registered mask always
   waits for reading or writing; a counted read waits for reading; any pending read is
   registered; and a connect or a write callback waits for writing.
   */
  ghost predicate Wakeful(s: Stream) {
    if s.closed then s.state == NONE && s.slot == None
    else
      && s.slot == (if s.state == NONE || !s.reachable then None else Some(s.state))
      && (s.state != NONE ==> s.state.error && (s.state.read || s.state.write))
      && (s.readBytes > 0 ==> s.state.read)
      && (s.readDelimiter != "" || s.readUntilClose ==> s.state != NONE)
      && (s.connecting ==> s.state.write)
      && (s.writeCb.Some? ==> s.state.write && Readable(s.writeBuf) > 0)
  }

  /** At most one read mode; a stored read callback has one; closed streams retain nothing. */
  ghost predicate Disciplined(s: Stream) {
    if s.closed then
      s.connectCb.None? && s.readCb.None? && s.writeCb.None? && s.closeCb.None? && !s.readUntilClose
    else
      && (s.readBytes > 0 ==> s.readDelimiter == "" && !s.readUntilClose)
      && (s.readDelimiter != "" ==> !s.readUntilClose)
      && (s.readCb.Some? ==> s.readBytes > 0 || s.readDelimiter != "" || s.readUntilClose)
  }

  /** The close notice is posted once, last of all, and only by a closed stream. */
  ghost predicate CloseIsLast(s: Stream) {
    forall i :: 0 <= i < |s.posted| - (if s.closed then 1 else 0) ==> !s.posted[i].kind.CloseDone?
  }

  /** An open stream never holds more than the capacity less one read chunk. */
  ghost predicate ReadBounded(s: Stream) {
    |s.readBuf.bytes| == DEFAULT_SIZE && (!s.closed ==> Readable(s.readBuf) + READ_CHUNK <= DEFAULT_SIZE)
  }

  ghost predicate Sound(s: Stream) {
    Wakeful(s) && Disciplined(s) && CloseIsLast(s) && ReadBounded(s)
  }

  /** What is kept in the middle of an operation, before the wake-up mask is settled. */
  ghost predicate Half(s: Stream) {
    && !s.closed && Disciplined(s) && CloseIsLast(s)
    && |s.readBuf.bytes| == DEFAULT_SIZE
    && s.slot == (if s.state == NONE || !s.reachable then None else Some(s.state))
    && (s.state != NONE ==> s.state.error && (s.state.read || s.state.write))
  }

  // -------------------------------------------------------------------------- pieces

  /** Closing leaves a sound, silent stream. */
  lemma CloseKeeps(s: Stream)
    requires Half(s)
    ensures Sound(Close(s)) && Close(s).closed
  {
  }

  lemma ExtractPosts(s: Stream)
    requires !s.closed && CloseIsLast(s)
    ensures CloseIsLast(Extract(s)) && Readable(Extract(s).readBuf) <= Readable(s.readBuf)
  {
  }

  lemma ExtractKeeps(s: Stream)
    requires Half(s)
    ensures var s' := Extract(s);
      && Half(s') && Readable(s'.readBuf) <= Readable(s.readBuf)
      && s'.readBytes <= s.readBytes && (s'.readDelimiter != "" ==> s.readDelimiter != "")
      && s'.readUntilClose == s.readUntilClose
      && s'.state == s.state && s'.writeBuf == s.writeBuf && s'.writeCb == s.writeCb
      && s'.connecting == s.connecting
  {
    ExtractPosts(s);
  }

  lemma HandleReadKeeps(s: Stream, fill: Fill, input: Input)
    requires Half(s)
    ensures var (s', failed) := HandleRead(s, fill, input);
      && Half(s')
      && (!failed ==> Readable(s'.readBuf) + READ_CHUNK <= DEFAULT_SIZE)
      && s'.state == s.state && s'.writeBuf == s.writeBuf && s'.writeCb == s.writeCb
      && s'.readBytes <= s.readBytes && (s'.readDelimiter != "" ==> s.readDelimiter != "")
      && s'.readUntilClose == s.readUntilClose && s'.connecting == s.connecting
  {
    var p := ReadPass(fill, s.readBuf, input);
    ReadPassTakesAll(fill, s.readBuf, input);
    if p.ok { ExtractKeeps(Receive(s, p)); }
  }

  lemma HandleWriteKeeps(s: Stream, output: Output)
    requires Half(s)
    ensures var (s', failed) := HandleWrite(s, output);
      && Half(s')
      && (!failed && s'.writeCb.Some? ==> Readable(s'.writeBuf) > 0)
      && (s'.writeCb.Some? ==> s.writeCb.Some?)
      && s'.state == s.state && s'.readBuf == s.readBuf && s'.readBytes == s.readBytes
      && s'.readDelimiter == s.readDelimiter && s'.readUntilClose == s.readUntilClose
      && s'.connecting == s.connecting
  {
  }

  lemma AddStateKeeps(s: Stream, m: Mask)
    requires Half(s) && !m.error && (m.read || m.write)
    ensures var s' := AddState(s, m);
      && Half(s') && s' == s.(state := s'.state, slot := s'.slot)
      && s'.state == s.state.Union(m).Union(ERROR)
  {
  }

  // ---------------------------------------------------------------------- operations

  lemma ConnectKeeps(s: Stream, ok: bool, cb: Option<Script>)
    requires Sound(s) && !s.closed
    ensures Sound(ConnectWith(s, ok, cb).0)
  {
    var s1 := s.(connecting := true);
    if ok { AddStateKeeps(s1, WRITE); } else { CloseKeeps(s1); }
  }

  lemma JustWriteKeeps(s: Stream, data: string)
    requires Sound(s)
    ensures var (s', ret) := JustWrite(s, data);
      && Sound(s')
      && (ret == 0 <==> !s.closed && 0 < |data| <= Room(s.writeBuf))
      && (ret == -1 || ret == -2 ==> s' == s)
      && (ret == 0 ==> !s'.closed && s' == s.(writeBuf := s'.writeBuf, log := s'.log))
  {
    if !s.closed && |data| > 0 && Room(s.writeBuf) < |data| { CloseKeeps(s); }
  }

  /** The half of writeBytes after the bytes are accepted. */
  lemma SendKeeps(s: Stream, output: Output)
    requires Half(s) && ReadBounded(s) && !s.connecting
    requires s.readBytes > 0 ==> s.state.read
    requires s.readDelimiter != "" || s.readUntilClose ==> s.state != NONE
    ensures var (s', failed) := Send(s, output);
      && Sound(s')
      && (!failed ==> !s'.closed && (Readable(s'.writeBuf) > 0 ==> s'.state.write))
  {
    HandleWriteKeeps(s, output);
    var (s1, failed) := HandleWrite(s, output);
    if failed { CloseKeeps(s1); } else { AddStateKeeps(s1, WRITE); }
  }

  lemma AcceptedKeeps(s: Stream, cb: Option<Script>, data: string, output: Output)
    requires Sound(s) && (cb == s.writeCb || s.writeCb.None?) && JustWrite(s.(writeCb := cb), data).1 == 0
    ensures var (s', ret) := WriteBytes(s.(writeCb := cb), data, output);
      && Sound(s') && (ret == 0 || ret == -4) && (ret == 0 <==> !s'.closed) && (ret != 0 ==> s'.writeCb.None?)
      && (ret == 0 && Readable(s'.writeBuf) > 0 && !s'.connecting ==> s'.state.write)
  {
    var s1 := JustWrite(s.(writeCb := cb), data).0;
    if !s1.connecting { SendKeeps(s1, output); }
  }

  /** writeBytes, with the callback of its second overload already stored. */
  lemma WriteKeeps(s: Stream, cb: Option<Script>, data: string, output: Output)
    requires Sound(s) && (cb == s.writeCb || s.writeCb.None?)
    ensures var (s', ret) := WriteBytes(s.(writeCb := cb), data, output);
      && (ret == 0 || cb == s.writeCb ==> Sound(s')) && Sound(if ret != 0 then s'.(writeCb := None) else s')
      && (ret == 0 ==> !s'.closed)
      && (ret == -1 || ret == -2 ==> s' == s.(writeCb := cb))
      && (ret == 0 && Readable(s'.writeBuf) > 0 && !s'.connecting ==> s'.state.write)
  {
    var s0 := s.(writeCb := cb);
    var ret := JustWrite(s0, data).1;
    if ret == 0 {
      AcceptedKeeps(s, cb, data, output);
      var s' := WriteBytes(s0, data, output).0;
      assert s'.writeCb.None? ==> s'.(writeCb := None) == s';
    } else if ret == -3 {
      CloseKeeps(s0);
    }
  }

  /** The shared tail of the read calls: it settles the mask for whatever is still pending. */
  lemma StartReadKeeps(s: Stream, fill: Fill, input: Input, failure: int)
    requires Half(s) && failure != 0 && (s.connecting ==> s.state.write)
    requires s.writeCb.Some? ==> s.state.write && Readable(s.writeBuf) > 0
    ensures var (s', ret) := StartRead(s, fill, input, failure);
      Sound(s') && (ret == 0 <==> !s'.closed) && (ret == 0 ==> s'.state.read)
  {
    HandleReadKeeps(s, fill, input);
    var (s1, failed) := HandleRead(s, fill, input);
    if failed { CloseKeeps(s1); } else { AddStateKeeps(s1, READ); }
  }

  lemma SeekKeeps(s: Stream, fill: Fill, d: string, cb: Option<Script>, input: Input)
    requires Sound(s) && !s.closed && Idle(s) && d != ""
    ensures Sound(SeekDelimiter(s, fill, d, cb, input).0)
  {
    if Find(Contents(s.readBuf), d) < 0 { StartReadKeeps(s.(readDelimiter := d, readCb := cb), fill, input, -2); }
  }

  lemma ReadsKeep(s: Stream, fill: Fill, op: Op)
    requires Sound(s) && Allowed(s, op) && (op.OpReadBytes? || op.OpReadUntil? || op.OpReadUntilClose?)
    ensures Sound(Step(s, fill, op))
  {
    match op
    case OpReadBytes(n, cb, input) =>
      if n > 0 && Readable(s.readBuf) < n {
        StartReadKeeps(Requested(s, Count(n), cb).(readBytes := n, readCb := cb), fill, input, -2);
      }
    case OpReadUntil(d, cb, input) => if d != "" { SeekKeeps(Requested(s, Until(d), cb), fill, d, cb, input); }
    case OpReadUntilClose(cb, input) =>
      StartReadKeeps(Requested(s, ToClose, cb).(readUntilClose := true, readCb := cb), fill, input, -1);
  }

  lemma HandleConnectKeeps(s: Stream, failure: Option<int>)
    requires Half(s)
    ensures var s' := HandleConnect(s, failure);
      if s'.closed then Sound(s')
      else Half(s') && s' == s.(connecting := false, connectCb := None, posted := s'.posted)
  {
    var err := if failure.Some? then failure.value else 0;
    var s1 := s.(posted := s.posted + Notice(ConnectDone(err), s.connectCb), connectCb := None,
                 connecting := failure.Some?);
    if failure.Some? { CloseKeeps(s1); }
  }

  /** What holds between the steps of handleEvents, on a registered stream. */
  ghost predicate Serving(s: Stream) {
    && Half(s) && ReadBounded(s) && !s.connecting && s.state != NONE
    && (s.writeCb.Some? ==> Readable(s.writeBuf) > 0)
  }

  /** Sound, and if still open, waiting for exactly what the pending work calls for. */
  ghost predicate Settled(s: Stream) {
    && Sound(s)
    && (!s.closed ==>
          && !s.connecting
          && (s.state.write <==> Readable(s.writeBuf) > 0)
          && (s.state.read <==> s.readBytes > 0 || Readable(s.writeBuf) == 0))
  }

  lemma FinishEventsKeeps(s: Stream, events: Mask, output: Output)
    requires Serving(s)
    ensures Settled(FinishEvents(s, events, output))
  {
    var (s1, failed) := if events.write then HandleWrite(s, output) else (s, false);
    if events.write { HandleWriteKeeps(s, output); }
    if failed || events.error { CloseKeeps(s1); }
  }

  lemma ServeEventsKeeps(s: Stream, fill: Fill, events: Mask, input: Input, output: Output)
    requires Serving(s)
    ensures Settled(ServeEvents(s, fill, events, input, output))
  {
    var (s1, failed) := if events.read then HandleRead(s, fill, input) else (s, false);
    if events.read { HandleReadKeeps(s, fill, input); }
    if failed { CloseKeeps(s1); } else { FinishEventsKeeps(s1, events, output); }
  }

  /**
   handleEvents leaves exactly the mask the pending work calls for. In particular a delimiter
   or until-close read that gave way to writing waits for reading again once nothing is left
   to write.
   */
  lemma EventsSettleTheMask(s: Stream, fill: Fill, events: Mask, failure: Option<int>, input: Input, output: Output)
    requires Sound(s) && (s.closed || s.state != NONE)
    ensures Settled(HandleEvents(s, fill, events, failure, input, output))
  {
    if !s.closed {
      if s.connecting { HandleConnectKeeps(s, failure); }
      var s1 := if s.connecting then HandleConnect(s, failure) else s;
      if !s1.closed { ServeEventsKeeps(s1, fill, events, input, output); }
    }
  }

  lemma StepKeeps(s: Stream, fill: Fill, op: Op)
    requires Sound(s) && Allowed(s, op)
    ensures Sound(Step(s, fill, op))
  {
    match op
    case OpConnect(ok, cb) => ConnectKeeps(s, ok, cb);
    case OpSetCloseCallback(cb) =>
    case OpClose => if !s.closed { CloseKeeps(s); }
    case OpJustWrite(data) => JustWriteKeeps(s, data);
    case OpWrite(data, output) => WriteKeeps(s, s.writeCb, data, output);
    case OpWriteWith(data, output, cb) => WriteKeeps(s, cb, data, output);
    case OpEvents(events, failure, input, output) => EventsSettleTheMask(s, fill, events, failure, input, output);
    case _ => ReadsKeep(s, fill, op);
  }

  lemma {:induction false} RunKeeps(s: Stream, fill: Fill, ops: seq<Op>)
    requires Sound(s) && Runnable(s, fill, ops)
    ensures Sound(Run(s, fill, ops))
    decreases |ops|
  {
    if ops != [] {
      StepKeeps(s, fill, ops[0]);
      RunKeeps(Step(s, fill, ops[0]), fill, ops[1..]);
    }
  }

  /** No lost wake-up and callback discipline, in every reachable state of either fill. */
  lemma ReachableIsSound(s: Stream, fill: Fill, ops: seq<Op>)
    requires Fresh(s) && Runnable(s, fill, ops)
    ensures Sound(Run(s, fill, ops))
  {
    RunKeeps(s, fill, ops);
  }
}
