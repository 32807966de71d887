/**
 Which request every delivered chunk answers, whatever the bytes are: each request is answered
 at most once, in the order issued, with what it asked for, and to the callback it was given.
 This holds under either fill.
 */
module StreamServed {
  import opened Common
  import opened LoopModel
  import opened Buffers
  import opened StreamModel
  import opened StreamGrows
  import opened StreamReads

  /** A chunk is what the request asked for: so many bytes, or up to the first delimiter. */
  ghost predicate Fits(r: Request, data: string) {
    match r
    case Count(n) => |data| == n
    case Until(d) => Find(data, d) >= 0 && Find(data, d) + |d| == |data|
    case ToClose => data != ""
  }

  /** The first chunks answer the requests one for one. */
  ghost predicate OneForOne(l: Log) {
    && |l.callers| == |l.requests|
    && forall i :: 0 <= i < |l.consumed| && i < |l.requests| ==>
         Fits(l.requests[i], l.consumed[i].data) && l.consumed[i].callback == l.callers[i]
  }

  /** No chunk is out of turn: an open stream is at most one request behind, the pending one. */
  ghost predicate InTurn(s: Stream)
    requires |s.log.callers| == |s.log.requests|
  {
    var l := s.log;
    && |l.consumed| <= |l.requests|
    && !s.readUntilClose
    && (!s.closed ==>
          if Pending(s).None? then |l.consumed| == |l.requests|
          else |l.consumed| + 1 == |l.requests| && l.requests[|l.consumed|] == Pending(s).value
               && s.readCb == l.callers[|l.consumed|])
  }

  /** Once a read-until-close is issued, every later chunk is its, and goes to its callback. */
  ghost predicate ToTheEnd(s: Stream)
    requires ToCloseIssued(s.log.requests) && |s.log.callers| == |s.log.requests|
  {
    var l, k := s.log, |s.log.requests| - 1;
    && k <= |l.consumed|
    && (forall i :: k <= i < |l.consumed| ==> l.consumed[i].data != "" && l.consumed[i].callback == l.callers[k])
    && (!s.closed ==> Pending(s) == Some(ToClose) && s.readCb == l.callers[k])
  }

  ghost predicate Owed(s: Stream) {
    && OneForOne(s.log) && OneMode(s)
    && if ToCloseIssued(s.log.requests) then ToTheEnd(s) else InTurn(s)
  }

  // -------------------------------------------------------------------------- pieces

  /** What the account looks at. */
  ghost predicate SameAccount(s: Stream, s': Stream) {
    && s'.closed == s.closed && s'.readBytes == s.readBytes && s'.readDelimiter == s.readDelimiter
    && s'.readUntilClose == s.readUntilClose && s'.readCb == s.readCb
    && s'.log.requests == s.log.requests && s'.log.callers == s.log.callers
    && s'.log.consumed == s.log.consumed
  }

  lemma AccountFrame(s: Stream, s': Stream)
    requires SameAccount(s, s')
    ensures Owed(s) == Owed(s')
  {
  }

  lemma FirstInPrefix(c: string, d: string)
    requires d != "" && Find(c, d) >= 0
    ensures var data := c[..Find(c, d) + |d|]; Fits(Until(d), data)
  {
    var i := Find(c, d);
    var data, more := c[..i + |d|], c[i + |d|..];
    FindFromIsFirst(c, d, 0);
    FindFromIsFirst(data, d, 0);
    assert data[i..i + |d|] == c[i..i + |d|];
    assert MatchAt(data, d, i);
    FindIsStable(data, d, more);
    assert data + more == c;
  }

  /** Answering the pending counted or delimiter request. */
  lemma AnswerOwed(s: Stream, n: nat, cb: Option<Script>)
    requires OneForOne(s.log) && !ToCloseIssued(s.log.requests) && |s.log.consumed| + 1 == |s.log.requests|
    requires n <= Readable(s.readBuf) && !s.readUntilClose && cb == s.log.callers[|s.log.consumed|]
    requires Fits(s.log.requests[|s.log.consumed|], Contents(s.readBuf)[..n])
    ensures Owed(Deliver(s, n, cb).(readBytes := 0, readDelimiter := "", readCb := None))
    ensures s.readBytes == 0 && s.readDelimiter == "" ==> Owed(Deliver(s, n, cb))
  {
  }

  /** Handing what there is to a read-until-close. */
  lemma DrainOwed(s: Stream)
    requires Owed(s) && ToCloseIssued(s.log.requests) && !s.closed && Readable(s.readBuf) > 0
    ensures Owed(Deliver(s, Readable(s.readBuf), s.readCb))
  {
  }

  lemma CloseOwed(s: Stream)
    requires Owed(s) && !s.closed
    ensures Owed(Close(s))
  {
    if s.readUntilClose && Readable(s.readBuf) > 0 { DrainOwed(s); }
    var s1 := FlushOnClose(s);
    assert Owed(s1);
    AccountFrame(s1.(closed := true, readUntilClose := false, readCb := None), Close(s));
  }

  lemma ExtractDelimitedOwed(s: Stream)
    requires Owed(s) && !s.closed && s.readDelimiter != "" && Find(Contents(s.readBuf), s.readDelimiter) >= 0
    ensures var n := Find(Contents(s.readBuf), s.readDelimiter) + |s.readDelimiter|;
      Owed(Deliver(s, n, s.readCb).(readBytes := 0, readDelimiter := "", readCb := None)) && s.readBytes == 0
  {
    FirstInPrefix(Contents(s.readBuf), s.readDelimiter);
    AnswerOwed(s, Find(Contents(s.readBuf), s.readDelimiter) + |s.readDelimiter|, s.readCb);
  }

  lemma ExtractOwed(s: Stream)
    requires Owed(s) && !s.closed
    ensures Owed(Extract(s))
  {
    hide Find, Fits;
    if s.readBytes > 0 && Readable(s.readBuf) >= s.readBytes {
      AnswerOwed(s, s.readBytes, s.readCb);
    } else if s.readDelimiter != "" {
      if Find(Contents(s.readBuf), s.readDelimiter) >= 0 { ExtractDelimitedOwed(s); }
    } else if s.readUntilClose && Readable(s.readBuf) > 0 {
      DrainOwed(s);
    }
  }

  lemma HandleReadOwed(s: Stream, fill: Fill, input: Input)
    requires Owed(s) && !s.closed
    ensures Owed(HandleRead(s, fill, input).0) && !HandleRead(s, fill, input).0.closed
  {
    var s1 := Receive(s, ReadPass(fill, s.readBuf, input));
    AccountFrame(s, s1);
    ExtractOwed(s1);
  }

  lemma StartReadOwed(s: Stream, fill: Fill, input: Input, failure: int)
    requires Owed(s) && !s.closed
    ensures Owed(StartRead(s, fill, input, failure).0)
  {
    HandleReadOwed(s, fill, input);
    var (s1, failed) := HandleRead(s, fill, input);
    if failed { CloseOwed(s1); } else { AccountFrame(s1, AddState(s1, READ)); }
  }

  // ---------------------------------------------------------------------- operations

  lemma ReadBytesOwed(s: Stream, fill: Fill, n: int, cb: Option<Script>, input: Input)
    requires Owed(s) && Idle(s) && !s.closed && n > 0
    ensures Owed(ReadBytes(s, fill, n, cb, input).0)
  {
    var asked := Requested(s, Count(n), cb);
    if Readable(s.readBuf) >= n {
      AnswerOwed(asked, n, cb);
    } else {
      StartReadOwed(asked.(readBytes := n, readCb := cb), fill, input, -2);
    }
  }

  lemma SeekOwed(s: Stream, asked: Stream, fill: Fill, d: string, cb: Option<Script>, input: Input)
    requires Owed(s) && Idle(s) && !s.closed && d != "" && asked == Requested(s, Until(d), cb)
    ensures Owed(SeekDelimiter(asked, fill, d, cb, input).0)
  {
    var i := Find(Contents(s.readBuf), d);
    if i >= 0 {
      FirstInPrefix(Contents(s.readBuf), d);
      AnswerOwed(asked, i + |d|, cb);
    } else {
      StartReadOwed(asked.(readDelimiter := d, readCb := cb), fill, input, -2);
    }
  }

  lemma ReadsOwed(s: Stream, fill: Fill, op: Op)
    requires Owed(s) && Allowed(s, op) && (op.OpReadBytes? || op.OpReadUntil? || op.OpReadUntilClose?)
    ensures Owed(Step(s, fill, op))
  {
    match op
    case OpReadBytes(n, cb, input) => if n > 0 { ReadBytesOwed(s, fill, n, cb, input); }
    case OpReadUntil(d, cb, input) => if d != "" { SeekOwed(s, Requested(s, Until(d), cb), fill, d, cb, input); }
    case OpReadUntilClose(cb, input) =>
      var asked := Requested(s, ToClose, cb).(readUntilClose := true, readCb := cb);
      assert Owed(asked);
      StartReadOwed(asked, fill, input, -1);
  }

  lemma WriteOwed(s: Stream, data: string, output: Output)
    requires Owed(s)
    ensures Owed(JustWrite(s, data).0) && Owed(WriteBytes(s, data, output).0)
  {
    var (s1, ret) := JustWrite(s, data);
    if ret == -3 {
      CloseOwed(s);
    } else {
      AccountFrame(s, s1);
      if ret == 0 { SendOwed(s1, output); }
    }
  }

  lemma SendOwed(s: Stream, output: Output)
    requires Owed(s) && !s.closed
    ensures Owed(Send(s, output).0)
  {
    var (s1, failed) := HandleWrite(s, output);
    AccountFrame(s, s1);
    if failed { CloseOwed(s1); } else { AccountFrame(s1, AddState(s1, WRITE)); }
  }

  lemma WriteWithOwed(s: Stream, data: string, output: Output, cb: Option<Script>)
    requires Owed(s)
    ensures Owed(WriteBytesWith(s, data, output, cb).0)
  {
    AccountFrame(s, s.(writeCb := cb));
    WriteOwed(s.(writeCb := cb), data, output);
    var s1 := WriteBytes(s.(writeCb := cb), data, output).0;
    AccountFrame(s1, s1.(writeCb := None));
  }

  lemma ConnectOwed(s: Stream, ok: bool, cb: Option<Script>)
    requires Owed(s) && !s.closed
    ensures Owed(ConnectWith(s, ok, cb).0)
  {
    var s1 := s.(connecting := true);
    AccountFrame(s, s1);
    CloseOwed(s1);
    AccountFrame(s1, AddState(s1, WRITE).(connectCb := cb));
  }

  lemma FinishEventsOwed(s: Stream, events: Mask, output: Output)
    requires Owed(s) && !s.closed
    ensures Owed(FinishEvents(s, events, output))
  {
    var (s1, failed) := if events.write then HandleWrite(s, output) else (s, false);
    AccountFrame(s, s1);
    if failed || events.error { CloseOwed(s1); } else { AccountFrame(s1, Updated(s1, NextState(s1))); }
  }

  lemma ServeEventsOwed(s: Stream, fill: Fill, events: Mask, input: Input, output: Output)
    requires Owed(s) && !s.closed
    ensures Owed(ServeEvents(s, fill, events, input, output))
  {
    HandleReadOwed(s, fill, input);
    var (s1, failed) := if events.read then HandleRead(s, fill, input) else (s, false);
    if failed { CloseOwed(s1); } else { FinishEventsOwed(s1, events, output); }
  }

  lemma HandleConnectOwed(s: Stream, failure: Option<int>)
    requires Owed(s) && !s.closed
    ensures Owed(HandleConnect(s, failure))
  {
    var err := if failure.Some? then failure.value else 0;
    var s1 := s.(posted := s.posted + Notice(ConnectDone(err), s.connectCb), connectCb := None,
                 connecting := failure.Some?);
    AccountFrame(s, s1);
    if failure.Some? { CloseOwed(s1); }
  }

  lemma EventsOwed(s: Stream, fill: Fill, events: Mask, failure: Option<int>, input: Input, output: Output)
    requires Owed(s)
    ensures Owed(HandleEvents(s, fill, events, failure, input, output))
  {
    if !s.closed {
      if s.connecting { HandleConnectOwed(s, failure); }
      var s1 := if s.connecting then HandleConnect(s, failure) else s;
      if !s1.closed { ServeEventsOwed(s1, fill, events, input, output); }
    }
  }

  lemma StepOwed(s: Stream, fill: Fill, op: Op)
    requires Owed(s) && Allowed(s, op)
    ensures Owed(Step(s, fill, op))
  {
    match op
    case OpConnect(ok, cb) => ConnectOwed(s, ok, cb);
    case OpSetCloseCallback(cb) => AccountFrame(s, s.(closeCb := cb));
    case OpClose => if !s.closed { CloseOwed(s); }
    case OpJustWrite(data) => WriteOwed(s, data, Refuses);
    case OpWrite(data, output) => WriteOwed(s, data, output);
    case OpWriteWith(data, output, cb) => WriteWithOwed(s, data, output, cb);
    case OpEvents(events, failure, input, output) => EventsOwed(s, fill, events, failure, input, output);
    case _ => ReadsOwed(s, fill, op);
  }

  lemma {:induction false} RunOwed(s: Stream, fill: Fill, ops: seq<Op>)
    requires Owed(s) && Runnable(s, fill, ops)
    ensures Owed(Run(s, fill, ops))
    decreases |ops|
  {
    if ops != [] {
      StepOwed(s, fill, ops[0]);
      RunOwed(Step(s, fill, ops[0]), fill, ops[1..]);
    }
  }

  /**
   Over every run, under either fill: chunk i answers request i, with what it asked for and to
   the callback it was given. Only a read-until-close, which is then the last request, is
   answered by more than one chunk, all of them to its callback; and an open stream has answered
   every request but the one pending.
   */
  lemma RequestsAreAnsweredInTurn(s: Stream, fill: Fill, ops: seq<Op>)
    requires Fresh(s) && Runnable(s, fill, ops)
    ensures var s' := Run(s, fill, ops); var l := s'.log;
      && OneForOne(l)
      && (|l.consumed| > |l.requests| ==> ToCloseIssued(l.requests))
      && (forall i :: |l.requests| <= i < |l.consumed| ==> l.consumed[i].callback == l.callers[|l.requests| - 1])
      && (!s'.closed && !ToCloseIssued(l.requests) ==>
            |l.consumed| + (if Pending(s').None? then 0 else 1) == |l.requests|)
  {
    RunOwed(s, fill, ops);
  }

  // ----------------------------------------------------------------- read until close

  lemma NoMoreAsked(s: Stream, op: Op)
    requires Faithful(s) && ToCloseIssued(s.log.requests) && Allowed(s, op)
    ensures !Reads(op)
  {
  }

  /** Once a read-until-close is asked for, nothing else is. */
  lemma {:induction false} ToCloseIsLast(s: Stream, ops: seq<Op>)
    requires Faithful(s) && ToCloseIssued(s.log.requests) && Runnable(s, AtWriteEnd, ops)
    ensures var s' := Run(s, AtWriteEnd, ops);
      Faithful(s') && s'.log.requests == s.log.requests && s'.log.callers == s.log.callers
    decreases |ops|
  {
    hide Faithful, Step, Allowed;
    if ops != [] {
      NoMoreAsked(s, ops[0]);
      StepGrows(s, AtWriteEnd, ops[0]);
      StepFaithful(s, ops[0]);
      ToCloseIsLast(Step(s, AtWriteEnd, ops[0]), ops[1..]);
    }
  }

  /** An open idle stream has answered all it was asked for. */
  lemma IdleIsEven(s: Stream)
    requires Faithful(s) && !s.closed && Idle(s)
    ensures |s.log.consumed| == |s.log.requests| && !ToCloseIssued(s.log.requests)
  {
  }

  /** The bytes of the later chunks, when all chunks make up all bytes at both points. */
  lemma LaterChunks(before: seq<Chunk>, after: seq<Chunk>, held: string, received: string, more: string)
    requires before <= after && received == Flatten(Datas(before)) + held
    requires received + more == Flatten(Datas(after))
    ensures Flatten(Datas(after[|before|..])) == held + more
  {
    var d, e := Datas(before), Datas(after[|before|..]);
    assert Datas(after) == d + e;
    FlattenAppend(d, e);
    assert Flatten(d) + (held + more) == Flatten(d) + Flatten(e);
    assert (Flatten(d) + (held + more))[|Flatten(d)|..] == held + more;
    assert (Flatten(d) + Flatten(e))[|Flatten(d)|..] == Flatten(e);
  }

  /**
   A read-until-close gets the rest: over any run, the chunks that follow its call are what the
   buffer held then and every byte received since, up to the flush of close(); and all of them go
   to its callback.
   */
  lemma ReadUntilCloseGetsTheRest(s: Stream, before: seq<Op>, cb: Option<Script>, input: Input, after: seq<Op>)
    requires Fresh(s) && Runnable(s, AtWriteEnd, before + ([OpReadUntilClose(cb, input)] + after))
    ensures var s0 := Run(s, AtWriteEnd, before);
      var s' := Run(s, AtWriteEnd, before + ([OpReadUntilClose(cb, input)] + after));
      && s0.log.consumed <= s'.log.consumed && s0.log.received <= s'.log.received
      && Flatten(Datas(s'.log.consumed[|s0.log.consumed|..]))
         == Contents(s0.readBuf) + s'.log.received[|s0.log.received|..]
      && (forall i :: |s0.log.consumed| <= i < |s'.log.consumed| ==> s'.log.consumed[i].callback == cb)
  {
    hide Step, Faithful, Owed;
    var op := OpReadUntilClose(cb, input);
    var s0, rest := Run(s, AtWriteEnd, before), [op] + after;
    RunSplits(s, AtWriteEnd, before, rest);
    assert rest[1..] == after;
    var s1, s' := Step(s0, AtWriteEnd, op), Run(s0, AtWriteEnd, rest);
    FreshAccounts(s);
    RunFaithful(s, before);
    IdleIsEven(s0);
    StepFaithful(s0, op);
    StepGrows(s0, AtWriteEnd, op);
    ToCloseIsLast(s1, after);
    RunGrows(s0, AtWriteEnd, rest);
    NothingReceivedIsLost(s, before);
    NothingReceivedIsLost(s, before + rest);
    LaterChunks(s0.log.consumed, s'.log.consumed, Contents(s0.readBuf), s0.log.received,
                s'.log.received[|s0.log.received|..]);
    RunOwed(s, AtWriteEnd, before + rest);
    AllToOne(s', |s0.log.consumed|, cb);
  }

  lemma FreshAccounts(s: Stream)
    requires Fresh(s)
    ensures Faithful(s) && Owed(s)
  {
  }

  lemma AllToOne(s: Stream, k: nat, cb: Option<Script>)
    requires Owed(s) && ToCloseIssued(s.log.requests) && k == |s.log.requests| - 1
    requires s.log.callers != [] && s.log.callers[|s.log.callers| - 1] == cb
    ensures forall i :: k <= i < |s.log.consumed| ==> s.log.consumed[i].callback == cb
  {
  }
}
