/** When an operation closes a stream, exactly, and what the calls return. */
module StreamCloses {
  import opened Common
  import opened LoopModel
  import opened Buffers
  import opened StreamModel
  import opened StreamProofs

  /** The socket breaks before it has taken n bytes. */
  predicate BreaksWithin(n: nat, output: Output)
    decreases output
  {
    n > 0 &&
    match output
    case Refuses => false
    case Breaks => true
    case Takes(k, next) =>
      var m := Min(k, Min(WRITE_CHUNK, n));
      m > 0 && BreaksWithin(n - m, next)
  }

  lemma {:induction false} WritePassFailsIff(b: Window, output: Output)
    ensures WritePass(b, output).ok <==> !BreaksWithin(Readable(b), output)
    decreases output
  {
    if Readable(b) > 0 && output.Takes? && WriteSize(output.n, b) > 0 {
      WritePassFailsIff(Taken(b, WriteSize(output.n, b)), output.next);
    }
  }

  /** A socket that answers with bytes until it would block, and a buffer they leave a chunk of room in. */
  predicate TakesIn(b: Window, input: Input) {
    Blocks(input) && Readable(b) + |Incoming(input)| + READ_CHUNK <= |b.bytes|
  }

  lemma ReadFailsIff(s: Stream, fill: Fill, input: Input)
    ensures var (s', failed) := HandleRead(s, fill, input);
      (failed <==> !TakesIn(s.readBuf, input)) && s'.closed == s.closed && s'.writeBuf == s.writeBuf
  {
    ReadPassTakesAll(fill, s.readBuf, input);
    ExtractLeaves(Receive(s, ReadPass(fill, s.readBuf, input)));
    hide ReadPass, Extract;
  }

  lemma ExtractLeaves(s: Stream)
    ensures var s' := Extract(s); s'.closed == s.closed && s'.writeBuf == s.writeBuf
  {
    FoundFits(s.readBuf, s.readDelimiter);
    hide Find, Contents;
  }

  lemma WriteFailsIff(s: Stream, output: Output)
    ensures var (s', failed) := HandleWrite(s, output);
      (failed <==> BreaksWithin(Readable(s.writeBuf), output)) && s'.closed == s.closed
  {
    WritePassFailsIff(s.writeBuf, output);
    hide WritePass;
  }

  lemma CloseDoesClose(s: Stream)
    ensures Close(s).closed
  {
  }

  lemma FinishClosesIff(s: Stream, events: Mask, output: Output)
    requires !s.closed
    ensures FinishEvents(s, events, output).closed <==>
      (events.write && BreaksWithin(Readable(s.writeBuf), output)) || events.error
  {
    hide HandleWrite, Close, BreaksWithin;
    WriteFailsIff(s, output);
    CloseDoesClose(if events.write then HandleWrite(s, output).0 else s);
  }

  lemma ServeClosesIff(s: Stream, fill: Fill, events: Mask, input: Input, output: Output)
    requires !s.closed
    ensures ServeEvents(s, fill, events, input, output).closed <==>
      || (events.read && !TakesIn(s.readBuf, input))
      || (events.write && BreaksWithin(Readable(s.writeBuf), output)) || events.error
  {
    hide HandleRead, FinishEvents, Close, BreaksWithin, TakesIn;
    ReadFailsIff(s, fill, input);
    var s1 := if events.read then HandleRead(s, fill, input).0 else s;
    CloseDoesClose(s1);
    FinishClosesIff(s1, events, output);
  }

  /**
   An event closes an open stream exactly on a socket error while it connects, on a read that ends other
   than by blocking or leaves no room, on a write that breaks, or when the event itself reports an error.
   */
  lemma EventsCloseIff(s: Stream, fill: Fill, events: Mask, failure: Option<int>, input: Input, output: Output)
    requires !s.closed
    ensures HandleEvents(s, fill, events, failure, input, output).closed <==>
      || (s.connecting && failure.Some?)
      || (events.read && !TakesIn(s.readBuf, input))
      || (events.write && BreaksWithin(Readable(s.writeBuf), output)) || events.error
  {
    hide ServeEvents, Close, BreaksWithin, TakesIn;
    var err := if failure.Some? then failure.value else 0;
    var s1 := s.(posted := s.posted + Notice(ConnectDone(err), s.connectCb), connectCb := None,
                 connecting := failure.Some?);
    CloseDoesClose(s1);
    ServeClosesIff(s, fill, events, input, output);
    ServeClosesIff(s1, fill, events, input, output);
  }

  lemma StartClosesIff(s: Stream, fill: Fill, input: Input, failure: int)
    ensures var (s', ret) := StartRead(s, fill, input, failure);
      ret == (if TakesIn(s.readBuf, input) then 0 else failure)
      && (s'.closed <==> s.closed || !TakesIn(s.readBuf, input))
  {
    hide HandleRead, Close, TakesIn;
    ReadFailsIff(s, fill, input);
    CloseDoesClose(HandleRead(s, fill, input).0);
  }

  /** What is buffered already serves the request. */
  predicate ServedAtOnce(s: Stream, op: Op) {
    match op
    case OpReadBytes(n, _, _) => Readable(s.readBuf) >= n
    case OpReadUntil(d, _, _) => Find(Contents(s.readBuf), d) >= 0
    case _ => false
  }

  /** The read calls: refused for nothing to ask, served at once, begun, or failed, when they close. */
  lemma ReadsAnswer(s: Stream, fill: Fill, op: Op)
    requires op.OpReadBytes? || op.OpReadUntil? || op.OpReadUntilClose?
    ensures var (s', ret) := match op
        case OpReadBytes(n, cb, input) => ReadBytes(s, fill, n, cb, input)
        case OpReadUntil(d, cb, input) => ReadUntil(s, fill, d, cb, input)
        case OpReadUntilClose(cb, input) => ReadUntilClose(s, fill, cb, input);
      var fails := Reads(op) && !ServedAtOnce(s, op) && !TakesIn(s.readBuf, op.input);
      && ret == (if !Reads(op) then -1 else if !fails then 0 else if op.OpReadUntilClose? then -1 else -2)
      && (s'.closed <==> s.closed || fails)
  {
    hide StartRead, TakesIn, Deliver, Find;
    match op
    case OpReadBytes(n, cb, input) =>
      if n > 0 {
        StartClosesIff(Requested(s, Count(n), cb).(readBytes := n, readCb := cb), fill, input, -2);
        DeliveredStays(s, op);
      }
    case OpReadUntil(d, cb, input) =>
      StartClosesIff(Requested(s, Until(d), cb).(readDelimiter := d, readCb := cb), fill, input, -2);
      DeliveredStays(s, op);
    case OpReadUntilClose(cb, input) =>
      StartClosesIff(Requested(s, ToClose, cb).(readUntilClose := true, readCb := cb), fill, input, -1);
  }

  lemma DeliveredStays(s: Stream, op: Op)
    requires (op.OpReadBytes? && op.n > 0) || op.OpReadUntil?
    ensures match op
      case OpReadBytes(n, cb, _) =>
        Readable(s.readBuf) >= n ==> Deliver(Requested(s, Count(n), cb), n, cb).closed == s.closed
      case OpReadUntil(d, cb, _) =>
        var i := Find(Contents(s.readBuf), d);
        i >= 0 ==> Deliver(Requested(s, Until(d), cb), i + |d|, cb).closed == s.closed
  {
    if op.OpReadUntil? { FoundFits(s.readBuf, op.delimiter); }
    hide Find, Contents;
  }

  /** The write calls: refused on a closed stream, for nothing, for want of room, or broken, and closed then. */
  lemma WritesAnswer(s: Stream, data: string, output: Output)
    ensures var (s', ret) := WriteBytes(s, data, output);
      && ret == (if s.closed then -1 else if data == "" then -2 else if Room(s.writeBuf) < |data| then -3
                 else if !s.connecting && BreaksWithin(Readable(s.writeBuf) + |data|, output) then -4 else 0)
      && (s'.closed <==> s.closed || ret == -3 || ret == -4)
  {
    hide HandleWrite, Close, BreaksWithin, Overwrite;
    CloseDoesClose(s);
    if !s.closed && 0 < |data| <= Room(s.writeBuf) {
      var s1 := JustWrite(s, data).0;
      WriteFailsIff(s1, output);
      CloseDoesClose(HandleWrite(s1, output).0);
    }
  }
}
