/** What only ever grows in a stream: its notices, its requests, what it received and consumed. */
module StreamGrows {
  import opened Common
  import opened LoopModel
  import opened Buffers
  import opened StreamModel

  /** Takes nothing back; whether it asks for more is not said. */
  ghost predicate Grows(s: Stream, s': Stream) {
    && s'.reachable == s.reachable && (s.closed ==> s'.closed)
    && s.posted <= s'.posted && s.log.requests <= s'.log.requests
    && s.log.received <= s'.log.received && s.log.consumed <= s'.log.consumed
  }

  /** And asks for nothing more. */
  ghost predicate GoesOn(s: Stream, s': Stream) {
    Grows(s, s') && s'.log.requests == s.log.requests && s'.log.callers == s.log.callers
  }

  lemma GrowsOn(a: Stream, b: Stream, c: Stream)
    requires Grows(a, b) && Grows(b, c)
    ensures Grows(a, c)
  {
  }

  lemma GoesFurther(a: Stream, b: Stream, c: Stream)
    requires GoesOn(a, b) && GoesOn(b, c)
    ensures GoesOn(a, c)
  {
  }

  lemma CloseGrows(s: Stream)
    ensures GoesOn(s, Close(s))
  {
  }

  lemma DeliverGrows(s: Stream, len: nat, cb: Option<Script>)
    requires len <= Readable(s.readBuf)
    ensures GoesOn(s, Deliver(s, len, cb))
  {
    hide Contents;
  }

  lemma ExtractGrows(s: Stream)
    ensures GoesOn(s, Extract(s))
  {
    hide Find, Deliver;
    if s.readBytes > 0 && Readable(s.readBuf) >= s.readBytes {
      DeliverGrows(s, s.readBytes, s.readCb);
    } else if s.readDelimiter != "" {
      var i := Find(Contents(s.readBuf), s.readDelimiter);
      if i >= 0 { DeliverGrows(s, i + |s.readDelimiter|, s.readCb); }
    } else {
      DeliverGrows(s, Readable(s.readBuf), s.readCb);
    }
  }

  lemma ReadGrows(s: Stream, fill: Fill, input: Input)
    ensures GoesOn(s, HandleRead(s, fill, input).0)
  {
    hide ReadPass, Extract;
    var s1 := Receive(s, ReadPass(fill, s.readBuf, input));
    ExtractGrows(s1);
    GoesFurther(s, s1, HandleRead(s, fill, input).0);
  }

  lemma WriteGrows(s: Stream, output: Output)
    ensures GoesOn(s, HandleWrite(s, output).0)
  {
  }

  lemma StartReadGrows(s: Stream, fill: Fill, input: Input, failure: int)
    ensures GoesOn(s, StartRead(s, fill, input, failure).0)
  {
    hide HandleRead, Close;
    var s1 := HandleRead(s, fill, input).0;
    ReadGrows(s, fill, input);
    CloseGrows(s1);
    GoesFurther(s, s1, StartRead(s, fill, input, failure).0);
  }

  lemma SeekGrows(s: Stream, fill: Fill, d: string, cb: Option<Script>, input: Input)
    ensures GoesOn(s, SeekDelimiter(s, fill, d, cb, input).0)
  {
    hide StartRead, Find;
    StartReadGrows(s.(readDelimiter := d, readCb := cb), fill, input, -2);
  }

  lemma SendGrows(s: Stream, output: Output)
    ensures GoesOn(s, Send(s, output).0)
  {
    hide HandleWrite, Close;
    var s1 := HandleWrite(s, output).0;
    WriteGrows(s, output);
    CloseGrows(s1);
    GoesFurther(s, s1, Send(s, output).0);
  }

  lemma BytesGrow(s: Stream, data: string, output: Output)
    ensures GoesOn(s, WriteBytes(s, data, output).0) && GoesOn(s, JustWrite(s, data).0)
  {
    hide Send, Close;
    var s1 := JustWrite(s, data).0;
    CloseGrows(s);
    SendGrows(s1, output);
    GoesFurther(s, s1, WriteBytes(s, data, output).0);
  }

  lemma FinishGrows(s: Stream, events: Mask, output: Output)
    ensures GoesOn(s, FinishEvents(s, events, output))
  {
    hide HandleWrite, Close;
    WriteGrows(s, output);
    var (s1, failed) := if events.write then HandleWrite(s, output) else (s, false);
    CloseGrows(s1);
    GoesFurther(s, s1, FinishEvents(s, events, output));
  }

  lemma ConnectedGrows(s: Stream, failure: Option<int>)
    ensures GoesOn(s, HandleConnect(s, failure))
  {
    hide Close;
    var err := if failure.Some? then failure.value else 0;
    var s1 := s.(posted := s.posted + Notice(ConnectDone(err), s.connectCb), connectCb := None,
                 connecting := failure.Some?);
    CloseGrows(s1);
    GoesFurther(s, s1, HandleConnect(s, failure));
  }

  lemma ServeGrowsOn(s: Stream, fill: Fill, events: Mask, input: Input, output: Output)
    ensures GoesOn(s, ServeEvents(s, fill, events, input, output))
  {
    hide HandleRead, Close, FinishEvents;
    ReadGrows(s, fill, input);
    var (s1, failed) := if events.read then HandleRead(s, fill, input) else (s, false);
    CloseGrows(s1);
    FinishGrows(s1, events, output);
    GoesFurther(s, s1, ServeEvents(s, fill, events, input, output));
  }

  lemma EventsGrow(s: Stream, fill: Fill, events: Mask, failure: Option<int>, input: Input, output: Output)
    ensures GoesOn(s, HandleEvents(s, fill, events, failure, input, output))
  {
    hide HandleConnect, ServeEvents;
    ConnectedGrows(s, failure);
    var s1 := if s.connecting then HandleConnect(s, failure) else s;
    ServeGrowsOn(s1, fill, events, input, output);
    if !s.closed { GoesFurther(s, s1, HandleEvents(s, fill, events, failure, input, output)); }
  }

  /** What a read call that gets as far as reading asks for. */
  function RequestOf(op: Op): Request
    requires Reads(op)
  {
    match op
    case OpReadBytes(n, _, _) => Count(n)
    case OpReadUntil(d, _, _) => Until(d)
    case OpReadUntilClose(_, _) => ToClose
  }

  lemma ReadsGrow(s: Stream, fill: Fill, op: Op)
    requires Reads(op)
    ensures GoesOn(Requested(s, RequestOf(op), op.cb), Step(s, fill, op))
  {
    hide StartRead, SeekDelimiter, Find;
    match op
    case OpReadBytes(n, cb, input) =>
      StartReadGrows(Requested(s, Count(n), cb).(readBytes := n, readCb := cb), fill, input, -2);
    case OpReadUntil(d, cb, input) => SeekGrows(Requested(s, Until(d), cb), fill, d, cb, input);
    case OpReadUntilClose(cb, input) =>
      StartReadGrows(Requested(s, ToClose, cb).(readUntilClose := true, readCb := cb), fill, input, -1);
  }

  lemma OthersGrow(s: Stream, fill: Fill, op: Op)
    requires !Reads(op)
    ensures GoesOn(s, Step(s, fill, op))
  {
    hide WriteBytes, JustWrite, HandleEvents, Close;
    match op
    case OpConnect(_, _) => CloseGrows(s.(connecting := true));
    case OpClose => CloseGrows(s);
    case OpJustWrite(data) => BytesGrow(s, data, Refuses);
    case OpWrite(data, output) => BytesGrow(s, data, output);
    case OpWriteWith(data, output, cb) => BytesGrow(s.(writeCb := cb), data, output);
    case OpEvents(events, failure, input, output) => EventsGrow(s, fill, events, failure, input, output);
    case _ =>
  }

  /** One operation takes nothing back, and asks for exactly what its read call asks for. */
  lemma StepGrows(s: Stream, fill: Fill, op: Op)
    ensures Grows(s, Step(s, fill, op))
    ensures Step(s, fill, op).log.requests == s.log.requests + if Reads(op) then [RequestOf(op)] else []
    ensures Step(s, fill, op).log.callers == s.log.callers + if Reads(op) then [op.cb] else []
  {
    hide Step;
    if Reads(op) { ReadsGrow(s, fill, op); } else { OthersGrow(s, fill, op); }
  }

  /** Over any run a stream takes nothing back. */
  lemma {:induction false} RunGrows(s: Stream, fill: Fill, ops: seq<Op>)
    ensures Grows(s, Run(s, fill, ops))
    decreases |ops|
  {
    hide Grows, Step;
    if ops == [] {
      GrowsSelf(s);
    } else {
      var s1 := Step(s, fill, ops[0]);
      StepGrows(s, fill, ops[0]);
      RunGrows(s1, fill, ops[1..]);
      GrowsOn(s, s1, Run(s, fill, ops));
    }
  }

  lemma {:induction false} RunSplits(s: Stream, fill: Fill, ops: seq<Op>, more: seq<Op>)
    ensures Run(s, fill, ops + more) == Run(Run(s, fill, ops), fill, more)
    ensures Runnable(s, fill, ops + more) <==> Runnable(s, fill, ops) && Runnable(Run(s, fill, ops), fill, more)
    decreases |ops|
  {
    hide Step, Allowed;
    if ops == [] {
      assert ops + more == more;
    } else {
      assert (ops + more)[1..] == ops[1..] + more;
      RunSplits(Step(s, fill, ops[0]), fill, ops[1..], more);
    }
  }

  lemma GrowsSelf(s: Stream)
    ensures Grows(s, s)
  {
  }
}
