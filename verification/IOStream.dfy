/** The buffered socket stream object, over its two buffers and the event loop. */
module IOStreams {
  import opened Common
  import opened LoopModel
  import opened Buffers
  import opened StreamModel
  import opened IOLoops
  import opened LoopProofs
  import opened Timers

  class IOStream {
    const socket: int
    const fill: Fill
    const loop: IOLoop
    const readBuffer: Buffer
    const writeBuffer: Buffer
    var connecting: bool
    var closed: bool
    var state: Mask
    var connectCallback: Option<Script>
    var readCallback: Option<Script>
    var writeCallback: Option<Script>
    var closeCallback: Option<Script>
    var readBytes: nat
    var readDelimiter: string
    var readUntilClose: bool
    ghost var posted: seq<Task>
    ghost var log: Log

    /** What the loop has registered for this stream. */
    ghost function Slot(): Option<Mask>
      reads this, loop.handlers
    {
      if closed || !InRange(socket, loop.handlers.Length) || loop.handlers[socket].None? then None
      else Some(loop.handlers[socket].value.interest)
    }

    ghost predicate Valid()
      reads this, loop, loop.timeouts, loop.handlers, readBuffer, writeBuffer
    {
      && loop.Valid() && readBuffer.Valid() && writeBuffer.Valid()
      && readBuffer != writeBuffer && readBuffer.buff != writeBuffer.buff
      && readBuffer.buff.Length == writeBuffer.buff.Length == DEFAULT_SIZE
      && (!closed ==>
            Slot() == if state == NONE || !InRange(socket, loop.handlers.Length) then None else Some(state))
      && (state != NONE ==> state.error)
    }

    ghost function Value(): Stream
      requires readBuffer.Valid() && writeBuffer.Valid()
      reads this, loop.handlers, readBuffer, writeBuffer, readBuffer.buff, writeBuffer.buff
    {
      Stream(InRange(socket, loop.handlers.Length), connecting, closed, state, Slot(),
             connectCallback, readCallback, writeCallback, closeCallback,
             readBuffer.Value(), writeBuffer.Value(),
             readBytes, readDelimiter, readUntilClose, posted, log)
    }

    ghost function Footprint(): set<object> {
      {this, loop, loop.handlers, readBuffer, readBuffer.buff, writeBuffer, writeBuffer.buff}
    }

    /** Whether the loop counts a handler at this descriptor. */
    ghost function Held(): int
      reads loop.handlers
    {
      if InRange(socket, loop.handlers.Length) && loop.handlers[socket].Some? then 1 else 0
    }

    /** What close does to the loop's own table: the slot is emptied, and never touched again. */
    twostate predicate LeavesLoopOnClose()
      reads this, loop.handlers
    {
      InRange(socket, loop.handlers.Length) ==>
        && (!old(closed) && closed ==> loop.handlers[socket].None?)
        && (old(closed) ==> closed && loop.handlers[socket] == old(loop.handlers[socket]))
    }

    /** All a stream does to its loop: post the tasks it records, and use its own slot. */
    twostate predicate TouchesOnlyItsOwn()
      reads this, loop, loop.handlers
    {
      && old(posted) <= posted
      && (var more := posted[|old(posted)|..];
          && loop.callbacks == old(loop.callbacks) + more
          && loop.trace == old(loop.trace).(posted := old(loop.trace.posted) + more))
      && loop.handleNum - Held() == old(loop.handleNum - Held())
      && loop.running == old(loop.running) && loop.aborted == old(loop.aborted)
      && LeavesLoopOnClose()
      && forall fd :: 0 <= fd < loop.handlers.Length && fd != socket ==>
           loop.handlers[fd] == old(loop.handlers[fd])
    }

    /** So every operation of a stream keeps the accounts of its loop, whatever the loop is running. */
    twostate lemma KeepsLoopAccounts(rest: seq<Task>, batch: seq<Event<Script>>)
      requires old(loop.Valid()) && loop.Valid() && unchanged(loop.timeouts) && socket >= MIN_FD
      requires TouchesOnlyItsOwn() && old(Accounted(loop.Value(), rest, batch))
      ensures Accounted(loop.Value(), rest, batch)
    {
      PostsAndHoldsKeeps(old(loop.Value()), loop.Value(), socket, posted[|old(posted)|..], rest, batch);
    }

    /**
     And leaves every other stream of the loop as it was: one with buffers of its own, and at another
     descriptor or closed (so that its descriptor may have been reused), keeps its validity and its
     value under whatever the other does to what is its own.
     */
    twostate lemma OthersKeep(other: IOStream)
      requires other.loop == loop && (other.socket != socket || (old(closed) && closed))
      requires Footprint() * other.Footprint() <= {loop, loop.handlers}
      requires old(Valid()) && old(other.Valid()) && other.Valid() && other.TouchesOnlyItsOwn()
      requires unchanged(Footprint() - other.Footprint())
      ensures Valid() && Value() == old(Value())
    {
      var shared: set<object> := {loop, loop.handlers};
      forall o <- Footprint() | o !in shared ensures o !in other.Footprint() {
        assert o !in Footprint() * other.Footprint();
      }
    }

    constructor (socket: int, fill: Fill, loop: IOLoop)
      requires loop.Valid() && socket >= MIN_FD
      requires InRange(socket, loop.handlers.Length) ==> loop.handlers[socket].None?
      ensures Valid() && Fresh(Value()) && Value().readBuf.read == 0 && fresh(readBuffer) && fresh(writeBuffer)
      ensures fresh(readBuffer.buff) && fresh(writeBuffer.buff)
      ensures this.socket == socket && this.fill == fill && this.loop == loop
    {
      this.socket, this.fill, this.loop := socket, fill, loop;
      readBuffer := new Buffer(DEFAULT_SIZE);
      writeBuffer := new Buffer(DEFAULT_SIZE);
      connecting, closed, state := false, false, NONE;
      connectCallback, readCallback, writeCallback, closeCallback := None, None, None, None;
      readBytes, readDelimiter, readUntilClose := 0, "", false;
      posted, log := [], Log([], [], "", [], "", "");
    }

    /** Posts a stored callback to the loop, if there is one. */
    method Notify(kind: Kind, callback: Option<Script>)
      requires Valid()
      modifies this`posted, loop
      ensures Valid() && TouchesOnlyItsOwn()
      ensures posted == old(posted) + Notice(kind, callback)
    {
      if callback.Some? {
        loop.AddCallback(Task(kind, callback.value));
        posted := posted + [Task(kind, callback.value)];
      }
      assert posted[|old(posted)|..] == Notice(kind, callback);
    }

    /** Takes bytes from the read buffer and posts them. */
    method Consume(len: nat, callback: Option<Script>)
      requires Valid() && len <= Readable(readBuffer.Value())
      modifies this`posted, this`log, loop, readBuffer`readIndex
      ensures Valid() && TouchesOnlyItsOwn()
      ensures Value() == Deliver(old(Value()), len, callback)
    {
      var _, result := readBuffer.ReadBytesToString(len);
      log := log.(consumed := log.consumed + [Chunk(result, callback)]);
      Notify(ReadDone(result), callback);
    }

    method AddIOState(m: Mask)
      requires Valid()
      modifies this`state, loop, loop.handlers
      ensures Valid() && TouchesOnlyItsOwn() && Value() == AddState(old(Value()), m)
    {
      if closed {
        return;
      }
      if state.Empty() {
        Register(m);
      } else {
        state := state.Union(m);
        var epoll: int := *;
        var _ := loop.UpdateHandler(socket, state, epoll);
      }
    }

    /** The first interest of a stream: its handler goes into the loop. */
    method Register(m: Mask)
      requires Valid() && !closed && state.Empty()
      modifies this`state, loop, loop.handlers
      ensures Valid() && TouchesOnlyItsOwn() && Value() == AddState(old(Value()), m)
    {
      state := ERROR.Union(m);
      var epoll: int := *;
      var _ := loop.AddHandler(socket, Script([Enter(HandleEventsEntry)]), state, epoll);
    }

    /** The part of close() that hands a read-until-close its last bytes. */
    method Flush()
      requires Valid()
      modifies this`posted, this`log, loop, readBuffer`readIndex
      ensures Valid() && TouchesOnlyItsOwn() && Value() == FlushOnClose(old(Value()))
    {
      if readUntilClose {
        var buffsize := readBuffer.ReadableBytes();
        if buffsize > 0 {
          Consume(buffsize, readCallback);
        }
      }
    }

    method Unregister()
      requires Valid() && !closed
      modifies this`closed, this`state, loop, loop.handlers
      ensures Valid() && closed && state == NONE
      ensures InRange(socket, loop.handlers.Length) ==> loop.handlers[socket].None?
      ensures loop.callbacks == old(loop.callbacks) && loop.trace == old(loop.trace)
      ensures loop.handleNum - Held() == old(loop.handleNum - Held())
      ensures loop.running == old(loop.running) && loop.aborted == old(loop.aborted)
      ensures forall fd :: 0 <= fd < loop.handlers.Length && fd != socket ==>
                loop.handlers[fd] == old(loop.handlers[fd])
    {
      closed := true;
      if !state.Empty() {
        var epoll: int := *;
        var _ := loop.RemoveHandler(socket, epoll);
        state := NONE;
      }
    }

    /** Tells the close callback, then forgets every callback. */
    method Silence()
      requires Valid() && closed
      modifies this, loop
      ensures Valid() && TouchesOnlyItsOwn()
      ensures Value() == old(Value()).(posted := old(posted) + Notice(CloseDone, old(closeCallback)),
                                       connectCb := None, readCb := None, writeCb := None, closeCb := None)
    {
      Notify(CloseDone, closeCallback);
      connectCallback, readCallback, writeCallback, closeCallback := None, None, None, None;
    }

    /** What close() does after its flush: it leaves the loop, then tells and forgets the callbacks. */
    method Retire()
      requires Valid() && !closed
      modifies this, loop, loop.handlers
      ensures Valid() && TouchesOnlyItsOwn()
      ensures InRange(socket, loop.handlers.Length) ==> loop.handlers[socket].None?
      ensures Value() == old(Value()).(
        closed := true, state := NONE, slot := if old(state).Empty() then old(Slot()) else None,
        posted := old(posted) + Notice(CloseDone, old(closeCallback)),
        connectCb := None, readCb := None, writeCb := None, closeCb := None)
    {
      Unregister();
      Silence();
    }

    method Close()
      requires Valid()
      modifies this, loop, loop.handlers, readBuffer`readIndex
      ensures Valid() && TouchesOnlyItsOwn() && Value() == StreamModel.Close(old(Value()))
      ensures closed && (!old(closed) && InRange(socket, loop.handlers.Length) ==> loop.handlers[socket].None?)
    {
      if closed {
        return;
      }
      Flush();
      ghost var flushed := posted;
      readUntilClose := false;
      Retire();
      ExtensionsCompose(old(posted), flushed, posted, old(loop.callbacks), old(loop.trace.posted));
    }

    predicate Reading()
      reads this
    {
      readBytes > 0
    }

    predicate Writing()
      reads writeBuffer
    {
      writeBuffer.ReadableBytes() > 0
    }

    // ---------------------------------------------------------------- socket passes

    /** The bytes land in the buffer, where `fill` says, and the write end grows. */
    method ReceiveChunk(chunk: string)
      requires Valid() && |chunk| <= Writable(readBuffer.Value())
      modifies this`log, readBuffer`writeIndex, readBuffer.buff
      ensures Valid() && log == old(log).(received := old(log).received + chunk)
      ensures readBuffer.Value() == Filled(fill, old(readBuffer.Value()), chunk)
    {
      var at := if fill == AtReadEnd then readBuffer.readIndex else readBuffer.writeIndex;
      readBuffer.Store(at, chunk);
      log := log.(received := log.received + chunk);
      var extended := readBuffer.ExtendReadBytes(|chunk|);
    }

    /** One read(); `input` is what the socket answers from here on. */
    method ReadToBuffer(input: Input) returns (ret: int, rest: Input)
      requires Valid()
      modifies this`log, readBuffer`readIndex, readBuffer`writeIndex, readBuffer.buff
      ensures Valid()
      ensures log == old(log).(received := log.received)
      ensures ret <= 0 ==>
        ReadPass(fill, old(readBuffer.Value()), input) == Pass(ret == 0, readBuffer.Value(), "")
        && log == old(log)
      ensures ret > 0 ==>
        && input.Bytes? && log.received == old(log.received) + ReadChunk(input.data)
        && ret == |ReadChunk(input.data)| && rest == AfterRead(input.data, input.next)
        && Room(readBuffer.Value()) == Room(old(readBuffer.Value())) - ret
        && (var p := ReadPass(fill, readBuffer.Value(), rest);
            ReadPass(fill, old(readBuffer.Value()), input) == p.(bytes := ReadChunk(input.data) + p.bytes))
    {
      rest := input;
      var ok := readBuffer.EnsureWritableBytes(READ_CHUNK);
      if !ok {
        return -1, rest;
      }
      match input {
        case WouldBlock => return 0, rest;
        case EndOfStream => return -2, rest;
        case ReadError => return -3, rest;
        case Bytes(data, next) =>
          if data == "" {
            return -2, rest;
          }
          rest := AfterRead(data, next);
          ReceiveChunk(ReadChunk(data));
          return |ReadChunk(data)|, rest;
      }
    }

    method ReadToBufferLoop(input: Input) returns (ret: int)
      requires Valid()
      modifies this`log, readBuffer`readIndex, readBuffer`writeIndex, readBuffer.buff
      ensures Valid()
      ensures var p := ReadPass(fill, old(readBuffer.Value()), input);
        && readBuffer.Value() == p.buf && (ret == 0 <==> p.ok)
        && log == old(log).(received := old(log).received + p.bytes)
    {
      var rest := input;
      ret := 1;
      ghost var got := "";
      while ret > 0
        invariant Valid()
        invariant log == old(log).(received := old(log).received + got)
        invariant ret > 0 ==>
          (var p := ReadPass(fill, readBuffer.Value(), rest);
           ReadPass(fill, old(readBuffer.Value()), input) == p.(bytes := got + p.bytes))
        invariant ret <= 0 ==>
          ReadPass(fill, old(readBuffer.Value()), input) == Pass(ret == 0, readBuffer.Value(), got)
        decreases ret > 0, Room(readBuffer.Value())
      {
        ghost var before, asked := readBuffer.Value(), rest;
        ret, rest := ReadToBuffer(rest);
        if ret > 0 {
          ghost var chunk := ReadChunk(asked.data);
          ConcatAssoc(got, chunk, ReadPass(fill, readBuffer.Value(), rest).bytes);
          ConcatAssoc(old(log).received, got, chunk);
          got := got + chunk;
        }
      }
      ret := if ret < 0 then -1 else 0;
    }

    /** Looks the delimiter up and, when it is there, delivers everything up to its end. */
    method ConsumeThrough(delimiter: string, callback: Option<Script>) returns (found: bool)
      requires Valid()
      modifies this`posted, this`log, loop, readBuffer`readIndex
      ensures Valid() && TouchesOnlyItsOwn()
      ensures var i := Find(Contents(old(readBuffer.Value())), delimiter);
        && (found <==> i >= 0)
        && Value() == if i >= 0 then Deliver(old(Value()), i + |delimiter|, callback) else old(Value())
    {
      var index := readBuffer.Search(delimiter);
      found := index >= 0;
      if found {
        Consume(index + |delimiter|, callback);
      }
    }

    method ExtractDelimited()
      requires Valid()
      modifies this`posted, this`log, this`readBytes, this`readDelimiter, this`readCallback
      modifies loop, readBuffer`readIndex
      ensures Valid() && TouchesOnlyItsOwn()
      ensures var i := Find(Contents(old(readBuffer.Value())), old(readDelimiter));
        Value() == if i < 0 then old(Value())
                   else Deliver(old(Value()), i + |old(readDelimiter)|, old(readCallback))
                        .(readDelimiter := "", readCb := None)
    {
      var found := ConsumeThrough(readDelimiter, readCallback);
      if found {
        readDelimiter := "";
        readCallback := None;
      }
    }

    method ExtractCounted()
      requires Valid() && 0 < readBytes <= readBuffer.ReadableBytes()
      modifies this`posted, this`log, this`readBytes, this`readDelimiter, this`readCallback
      modifies loop, readBuffer`readIndex
      ensures Valid() && TouchesOnlyItsOwn()
      ensures Value() == Deliver(old(Value()), old(readBytes), old(readCallback)).(readBytes := 0, readCb := None)
    {
      Consume(readBytes, readCallback);
      readBytes := 0;
      readCallback := None;
    }

    /** What a successful pass hands to the pending request. */
    method ExtractPending()
      requires Valid()
      modifies this`posted, this`log, this`readBytes, this`readDelimiter, this`readCallback
      modifies loop, readBuffer`readIndex
      ensures Valid() && TouchesOnlyItsOwn() && Value() == Extract(old(Value()))
    {
      hide Find;
      ghost var before := Value();
      if readBytes > 0 && readBuffer.ReadableBytes() >= readBytes {
        ExtractCounted();
      } else if readDelimiter != "" {
        ExtractDelimited();
      } else if readUntilClose {
        Flush();
      }
      assert Value() == Extract(before);
    }

    /** The pass handleRead begins with: its outcome, and what it leaves in the stream. */
    method Pull(input: Input) returns (ret: int)
      requires Valid()
      modifies this`log, readBuffer`readIndex, readBuffer`writeIndex, readBuffer.buff
      ensures Valid() && TouchesOnlyItsOwn()
      ensures var p := ReadPass(fill, old(readBuffer.Value()), input);
        (ret == 0 <==> p.ok) && Value() == Receive(old(Value()), p)
    {
      hide ReadPass;
      ret := ReadToBufferLoop(input);
    }

    method HandleRead(input: Input) returns (ret: int)
      requires Valid()
      modifies this`posted, this`log, this`readBytes, this`readDelimiter, this`readCallback
      modifies loop, readBuffer`readIndex, readBuffer`writeIndex, readBuffer.buff
      ensures Valid() && TouchesOnlyItsOwn()
      ensures (Value(), ret != 0) == StreamModel.HandleRead(old(Value()), fill, input)
    {
      hide ReadPass, Extract, Receive;
      ret := Pull(input);
      if ret != 0 {
        return -1;
      }
      ExtractPending();
    }

    /** The write loop; `output` is what the socket answers. */
    method WriteLoop(output: Output) returns (ret: int)
      requires Valid()
      modifies this`log, writeBuffer`readIndex
      ensures Valid()
      ensures var p := WritePass(old(writeBuffer.Value()), output);
        && writeBuffer.Value() == p.buf && (ret == 0 <==> p.ok)
        && log == old(log).(sent := old(log).sent + p.bytes)
    {
      ghost var start := writeBuffer.Value();
      ghost var sent := "";
      var answers := output;
      var writebytes := writeBuffer.ReadableBytes();
      ret := 0;
      assert "" + WritePass(start, output).bytes == WritePass(start, output).bytes;
      while writebytes > 0
        invariant Valid() && writebytes == writeBuffer.ReadableBytes()
        invariant log == old(log).(sent := old(log).sent + sent)
        invariant WritePass(start, output) == WriteOn(sent, writeBuffer.Value(), answers)
        decreases answers
      {
        if answers.Refuses? {
          break;
        } else if answers.Breaks? {
          ret := -1;
          break;
        }
        var numBytes := Min(answers.n, Min(WRITE_CHUNK, writebytes));
        if numBytes == 0 {
          break;
        }
        WriteOnTakes(sent, writeBuffer.Value(), answers.n, answers.next);
        ghost var piece := Contents(writeBuffer.Value())[..numBytes];
        ConcatAssoc(old(log).sent, sent, piece);
        var ok := writeBuffer.ReadBytes(numBytes);
        sent := sent + piece;
        log := log.(sent := log.sent + piece);
        writebytes := writeBuffer.ReadableBytes();
        answers := answers.next;
      }
      WriteOnStops(sent, writeBuffer.Value(), answers);
    }

    method HandleWrite(output: Output) returns (ret: int)
      requires Valid()
      modifies this`log, this`posted, this`writeCallback, loop, writeBuffer`readIndex
      ensures Valid() && TouchesOnlyItsOwn()
      ensures (Value(), ret != 0) == StreamModel.HandleWrite(old(Value()), output)
    {
      hide WritePass;
      ret := WriteLoop(output);
      ghost var p := WritePass(old(writeBuffer.Value()), output);
      assert Value() == old(Value()).(writeBuf := p.buf, log := log);
      if ret == 0 && writeBuffer.ReadableBytes() == 0 {
        TellWritten();
      }
    }

    method TellWritten()
      requires Valid()
      modifies this`posted, this`writeCallback, loop
      ensures Valid() && TouchesOnlyItsOwn()
      ensures Value() == old(Value()).(posted := old(posted) + Notice(WriteDone, old(writeCallback)), writeCb := None)
    {
      Notify(WriteDone, writeCallback);
      writeCallback := None;
    }

    method TellConnected(err: int)
      requires Valid()
      modifies this`posted, this`connectCallback, loop
      ensures Valid() && TouchesOnlyItsOwn()
      ensures Value() ==
        old(Value()).(posted := old(posted) + Notice(ConnectDone(err), old(connectCallback)), connectCb := None)
    {
      Notify(ConnectDone(err), connectCallback);
      connectCallback := None;
    }

    method HandleConnect(failure: Option<int>)
      requires Valid() && connecting
      modifies this, loop, loop.handlers, readBuffer`readIndex
      ensures Valid() && TouchesOnlyItsOwn()
      ensures Value() == StreamModel.HandleConnect(old(Value()), failure)
      ensures !closed ==> state == old(state)
    {
      hide StreamModel.Close;
      if failure.Some? {
        TellConnected(failure.value);
        ghost var told := posted;
        Close();
        ExtensionsCompose(old(posted), told, posted, old(loop.callbacks), old(loop.trace.posted));
        return;
      }
      TellConnected(0);
      connecting := false;
    }

    // ------------------------------------------------------------------- operations

    method Connect(ok: bool) returns (connected: bool)
      requires Valid()
      modifies this, loop, loop.handlers, readBuffer`readIndex
      ensures Valid() && TouchesOnlyItsOwn()
      ensures (Value(), connected) == StreamModel.Connect(old(Value()), ok)
    {
      connecting := true;
      if !ok {
        Close();
        return false;
      }
      AddIOState(WRITE);
      return true;
    }

    method ConnectWith(ok: bool, callback: Option<Script>) returns (connected: bool)
      requires Valid()
      modifies this, loop, loop.handlers, readBuffer`readIndex
      ensures Valid() && TouchesOnlyItsOwn()
      ensures (Value(), connected) == StreamModel.ConnectWith(old(Value()), ok, callback)
    {
      connected := Connect(ok);
      if connected {
        connectCallback := callback;
      }
    }

    method SetCloseCallback(callback: Option<Script>)
      requires Valid()
      modifies this`closeCallback
      ensures Valid() && Value() == old(Value()).(closeCb := callback)
    {
      closeCallback := callback;
    }

    method JustWriteBytesToBuff(data: string) returns (ret: int)
      requires Valid()
      modifies this, loop, loop.handlers, readBuffer`readIndex
      modifies writeBuffer`readIndex, writeBuffer`writeIndex, writeBuffer.buff
      ensures Valid() && TouchesOnlyItsOwn()
      ensures (Value(), ret) == JustWrite(old(Value()), data)
    {
      if closed {
        return -1;
      }
      if |data| <= 0 {
        return -2;
      }
      var appended := writeBuffer.Append(data);
      if !appended {
        Close();
        return -3;
      }
      log := log.(accepted := log.accepted + data);
      return 0;
    }

    /** The half of writeBytes after the bytes are accepted, on a connected stream. */
    method Send(output: Output) returns (ret: int)
      requires Valid()
      modifies this, loop, loop.handlers, readBuffer`readIndex, writeBuffer`readIndex
      ensures Valid() && TouchesOnlyItsOwn()
      ensures (Value(), ret != 0) == StreamModel.Send(old(Value()), output)
      ensures ret == 0 || ret == -4
    {
      hide StreamModel.HandleWrite, StreamModel.Close;
      var failed := HandleWrite(output);
      ghost var written := posted;
      if failed != 0 {
        Close();
        ExtensionsCompose(old(posted), written, posted, old(loop.callbacks), old(loop.trace.posted));
        return -4;
      }
      if Writing() {
        AddIOState(WRITE);
        ExtensionsCompose(old(posted), written, posted, old(loop.callbacks), old(loop.trace.posted));
      }
      return 0;
    }

    method WriteBytes(data: string, output: Output) returns (ret: int)
      requires Valid()
      modifies this, loop, loop.handlers, readBuffer`readIndex
      modifies writeBuffer`readIndex, writeBuffer`writeIndex, writeBuffer.buff
      ensures Valid() && TouchesOnlyItsOwn()
      ensures (Value(), ret) == StreamModel.WriteBytes(old(Value()), data, output)
    {
      hide StreamModel.Send, JustWrite;
      ret := JustWriteBytesToBuff(data);
      ghost var accepted := posted;
      if ret != 0 || connecting {
        return;
      }
      ret := Send(output);
      ExtensionsCompose(old(posted), accepted, posted, old(loop.callbacks), old(loop.trace.posted));
    }

    method KeepWriteCallback(callback: Option<Script>)
      requires Valid()
      modifies this`writeCallback
      ensures Valid() && Value() == old(Value()).(writeCb := callback)
    {
      writeCallback := callback;
    }

    method WriteBytesWith(data: string, output: Output, callback: Option<Script>) returns (ret: int)
      requires Valid() && writeCallback.None?
      modifies this, loop, loop.handlers, readBuffer`readIndex
      modifies writeBuffer`readIndex, writeBuffer`writeIndex, writeBuffer.buff
      ensures Valid() && TouchesOnlyItsOwn()
      ensures (Value(), ret) == StreamModel.WriteBytesWith(old(Value()), data, output, callback)
    {
      hide StreamModel.WriteBytes;
      KeepWriteCallback(callback);
      ret := WriteBytes(data, output);
      if ret != 0 {
        KeepWriteCallback(None);
      }
    }

    /** The shared tail of the three read calls. */
    method StartRead(input: Input, failure: int) returns (ret: int)
      requires Valid()
      modifies this, loop, loop.handlers
      modifies readBuffer`readIndex, readBuffer`writeIndex, readBuffer.buff
      ensures Valid() && TouchesOnlyItsOwn()
      ensures (Value(), ret) == StreamModel.StartRead(old(Value()), fill, input, failure)
    {
      hide StreamModel.HandleRead, StreamModel.Close;
      var failed := HandleRead(input);
      ghost var got := posted;
      if failed != 0 {
        Close();
        ExtensionsCompose(old(posted), got, posted, old(loop.callbacks), old(loop.trace.posted));
        return failure;
      }
      AddIOState(READ);
      ExtensionsCompose(old(posted), got, posted, old(loop.callbacks), old(loop.trace.posted));
      return 0;
    }

    /** Stores a counted request and makes its first pass. */
    method AwaitBytes(n: nat, callback: Option<Script>, input: Input) returns (ret: int)
      requires Valid()
      modifies this, loop, loop.handlers
      modifies readBuffer`readIndex, readBuffer`writeIndex, readBuffer.buff
      ensures Valid() && TouchesOnlyItsOwn()
      ensures var s := old(Value()).(readBytes := n, readCb := callback);
        (Value(), ret) == StreamModel.StartRead(s, fill, input, -2)
    {
      hide StreamModel.StartRead;
      readBytes := n;
      readCallback := callback;
      ret := StartRead(input, -2);
    }

    /** A counted request once issued: served from the buffer, or stored and read for. */
    method SeekCount(n: nat, callback: Option<Script>, input: Input) returns (ret: int)
      requires Valid()
      modifies this, loop, loop.handlers
      modifies readBuffer`readIndex, readBuffer`writeIndex, readBuffer.buff
      ensures Valid() && TouchesOnlyItsOwn()
      ensures (Value(), ret) == StreamModel.SeekCount(old(Value()), fill, n, callback, input)
    {
      hide StreamModel.StartRead, Deliver;
      if readBuffer.ReadableBytes() >= n {
        Consume(n, callback);
        return 0;
      }
      ret := AwaitBytes(n, callback, input);
    }

    method ReadBytes(n: int, callback: Option<Script>, input: Input) returns (ret: int)
      requires Valid() && (n > 0 ==> Idle(Value()))
      modifies this, loop, loop.handlers
      modifies readBuffer`readIndex, readBuffer`writeIndex, readBuffer.buff
      ensures Valid() && TouchesOnlyItsOwn()
      ensures (Value(), ret) == StreamModel.ReadBytes(old(Value()), fill, n, callback, input)
    {
      hide StreamModel.SeekCount;
      if n <= 0 {
        return -1;
      }
      log := log.(requests := log.requests + [Count(n)], callers := log.callers + [callback]);
      assert Value() == Requested(old(Value()), Count(n), callback);
      ret := SeekCount(n, callback, input);
    }

    /** Stores a delimiter request and makes its first pass. */
    method AwaitDelimiter(delimiter: string, callback: Option<Script>, input: Input) returns (ret: int)
      requires Valid()
      modifies this, loop, loop.handlers
      modifies readBuffer`readIndex, readBuffer`writeIndex, readBuffer.buff
      ensures Valid() && TouchesOnlyItsOwn()
      ensures var s := old(Value()).(readDelimiter := delimiter, readCb := callback);
        (Value(), ret) == StreamModel.StartRead(s, fill, input, -2)
    {
      hide StreamModel.StartRead;
      readDelimiter := delimiter;
      readCallback := callback;
      ret := StartRead(input, -2);
    }

    /** A delimiter request once issued: served from the buffer, or stored and read for. */
    method SeekDelimiter(delimiter: string, callback: Option<Script>, input: Input) returns (ret: int)
      requires Valid()
      modifies this, loop, loop.handlers
      modifies readBuffer`readIndex, readBuffer`writeIndex, readBuffer.buff
      ensures Valid() && TouchesOnlyItsOwn()
      ensures (Value(), ret) == StreamModel.SeekDelimiter(old(Value()), fill, delimiter, callback, input)
    {
      hide StreamModel.StartRead, Deliver;
      var found := ConsumeThrough(delimiter, callback);
      if found {
        return 0;
      }
      ghost var looked := posted;
      ret := AwaitDelimiter(delimiter, callback, input);
      ExtensionsCompose(old(posted), looked, posted, old(loop.callbacks), old(loop.trace.posted));
    }

    method ReadUntil(delimiter: string, callback: Option<Script>, input: Input) returns (ret: int)
      requires Valid() && (delimiter != "" ==> Idle(Value()))
      modifies this, loop, loop.handlers
      modifies readBuffer`readIndex, readBuffer`writeIndex, readBuffer.buff
      ensures Valid() && TouchesOnlyItsOwn()
      ensures (Value(), ret) == StreamModel.ReadUntil(old(Value()), fill, delimiter, callback, input)
    {
      hide StreamModel.SeekDelimiter;
      if delimiter == "" {
        return -1;
      }
      log := log.(requests := log.requests + [Until(delimiter)], callers := log.callers + [callback]);
      assert Value() == Requested(old(Value()), Until(delimiter), callback);
      ret := SeekDelimiter(delimiter, callback, input);
    }

    method ReadUntilClose(callback: Option<Script>, input: Input) returns (ret: int)
      requires Valid() && Idle(Value())
      modifies this, loop, loop.handlers
      modifies readBuffer`readIndex, readBuffer`writeIndex, readBuffer.buff
      ensures Valid() && TouchesOnlyItsOwn()
      ensures (Value(), ret) == StreamModel.ReadUntilClose(old(Value()), fill, callback, input)
    {
      hide StreamModel.StartRead;
      log := log.(requests := log.requests + [ToClose], callers := log.callers + [callback]);
      readUntilClose := true;
      readCallback := callback;
      assert Value() == Requested(old(Value()), ToClose, callback).(readUntilClose := true, readCb := callback);
      ret := StartRead(input, -1);
    }

    /** The mask handleEvents leaves behind, put in force. */
    method SettleState()
      requires Valid() && !closed && state != NONE
      modifies this`state, loop.handlers
      ensures Valid() && TouchesOnlyItsOwn()
      ensures Value() == if NextState(old(Value())) == old(state) then old(Value())
                         else Updated(old(Value()), NextState(old(Value())))
    {
      var next := ERROR;
      if Reading() {
        next := next.Union(READ);
      }
      if Writing() {
        next := next.Union(WRITE);
      }
      if next == ERROR {
        next := next.Union(READ);
      }
      if next != state {
        state := next;
        var epoll: int := *;
        var _ := loop.UpdateHandler(socket, state, epoll);
      }
    }

    method FinishEvents(events: Mask, output: Output)
      requires Valid() && !closed && state != NONE
      modifies this, loop, loop.handlers, readBuffer`readIndex, writeBuffer`readIndex
      ensures Valid() && TouchesOnlyItsOwn()
      ensures Value() == StreamModel.FinishEvents(old(Value()), events, output)
    {
      hide StreamModel.HandleWrite, StreamModel.Close;
      ghost var written := posted;
      if events.write {
        var failed := HandleWrite(output);
        written := posted;
        if failed != 0 {
          Close();
          ExtensionsCompose(old(posted), written, posted, old(loop.callbacks), old(loop.trace.posted));
          return;
        }
      }
      if events.error {
        Close();
        ExtensionsCompose(old(posted), written, posted, old(loop.callbacks), old(loop.trace.posted));
        return;
      }
      SettleState();
    }

    method ServeEvents(events: Mask, input: Input, output: Output)
      requires Valid() && !closed && state != NONE
      modifies this, loop, loop.handlers
      modifies readBuffer`readIndex, readBuffer`writeIndex, readBuffer.buff, writeBuffer`readIndex
      ensures Valid() && TouchesOnlyItsOwn()
      ensures Value() == StreamModel.ServeEvents(old(Value()), fill, events, input, output)
    {
      hide StreamModel.HandleRead, StreamModel.FinishEvents, StreamModel.Close;
      ghost var got := posted;
      if events.read {
        var failed := HandleRead(input);
        got := posted;
        if failed != 0 {
          Close();
          ExtensionsCompose(old(posted), got, posted, old(loop.callbacks), old(loop.trace.posted));
          return;
        }
      }
      FinishEvents(events, output);
      ExtensionsCompose(old(posted), got, posted, old(loop.callbacks), old(loop.trace.posted));
    }

    /** The first step of handleEvents: an outstanding connect is settled. */
    method SettleConnect(failure: Option<int>)
      requires Valid()
      modifies this, loop, loop.handlers, readBuffer`readIndex
      ensures Valid() && TouchesOnlyItsOwn()
      ensures Value() ==
        if old(connecting) then StreamModel.HandleConnect(old(Value()), failure) else old(Value())
      ensures !closed ==> state == old(state)
    {
      hide StreamModel.HandleConnect;
      if connecting {
        HandleConnect(failure);
      }
    }

    /** The handler the stream registers; the loop calls it for a registered stream. */
    method HandleEvents(events: Mask, failure: Option<int>, input: Input, output: Output)
      requires Valid() && (closed || state != NONE)
      modifies this, loop, loop.handlers
      modifies readBuffer`readIndex, readBuffer`writeIndex, readBuffer.buff, writeBuffer`readIndex
      ensures Valid() && TouchesOnlyItsOwn()
      ensures Value() == StreamModel.HandleEvents(old(Value()), fill, events, failure, input, output)
    {
      hide StreamModel.HandleConnect, StreamModel.ServeEvents;
      if closed {
        return;
      }
      SettleConnect(failure);
      if closed {
        return;
      }
      ghost var connected := posted;
      ServeEvents(events, input, output);
      ExtensionsCompose(old(posted), connected, posted, old(loop.callbacks), old(loop.trace.posted));
    }
  }
}
