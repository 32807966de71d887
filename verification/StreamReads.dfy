/**
 What the reads of a stream deliver, over whole runs. These byte order laws are for the meant
 fill, at the write end of the read buffer; StreamFill says exactly when the fill the code has,
 at the read end, meets them.
 */
module StreamReads {
  import opened Common
  import opened LoopModel
  import opened Buffers
  import opened StreamModel
  import opened StreamProofs

  // ------------------------------------------------------------ the sequential reading

  /** How many bytes of the input a request takes, if it can be served from it. */
  function ServeOne(r: Request, input: string): (n: Option<nat>)
    ensures n.Some? ==> n.value <= |input|
  {
    match r
    case Count(n) => if n <= |input| then Some(n) else None
    case Until(d) => if Find(input, d) >= 0 then Some(Find(input, d) + |d|) else None
    case ToClose => None
  }

  datatype Served = Served(out: seq<string>, rest: string)

  /** Serving requests one after the other from a byte string, stopping at the first that must wait. */
  function Serve(rs: seq<Request>, input: string): (s: Served)
    ensures |s.out| <= |rs|
    decreases |rs|
  {
    if rs == [] then Served([], input)
    else
      var p := Serve(rs[..|rs| - 1], input);
      var n := ServeOne(rs[|rs| - 1], p.rest);
      if |p.out| < |rs| - 1 || n.None? then p
      else Served(p.out + [p.rest[..n.value]], p.rest[n.value..])
  }

  lemma ServeAnother(rs: seq<Request>, r: Request, input: string)
    requires |Serve(rs, input).out| == |rs|
    ensures var p := Serve(rs, input); var n := ServeOne(r, p.rest);
      Serve(rs + [r], input) ==
        if n.None? then p else Served(p.out + [p.rest[..n.value]], p.rest[n.value..])
  {
    assert (rs + [r])[..|rs|] == rs;
  }

  lemma ServeOneGrows(r: Request, input: string, more: string)
    requires ServeOne(r, input).Some? && (r.Until? ==> r.delimiter != "")
    ensures ServeOne(r, input + more) == ServeOne(r, input)
  {
    if r.Until? { FindIsStable(input, r.delimiter, more); }
  }

  ghost predicate RealRequests(rs: seq<Request>) {
    forall r <- rs :: r.Until? ==> r.delimiter != ""
  }

  /** More input never changes what has been served. */
  lemma {:induction false} ServeGrows(rs: seq<Request>, input: string, more: string)
    requires RealRequests(rs) && |Serve(rs, input).out| == |rs|
    ensures Serve(rs, input + more) == Served(Serve(rs, input).out, Serve(rs, input).rest + more)
    decreases |rs|
  {
    if rs != [] {
      var init, r := rs[..|rs| - 1], rs[|rs| - 1];
      ServeGrows(init, input, more);
      var p := Serve(init, input);
      ServeOneGrows(r, p.rest, more);
      var n := ServeOne(r, p.rest).value;
      assert (p.rest + more)[..n] == p.rest[..n];
      assert (p.rest + more)[n..] == p.rest[n..] + more;
    }
  }

  lemma {:induction false} ServeConserves(rs: seq<Request>, input: string)
    ensures Flatten(Serve(rs, input).out) + Serve(rs, input).rest == input
    decreases |rs|
  {
    if rs != [] {
      var p := Serve(rs[..|rs| - 1], input);
      ServeConserves(rs[..|rs| - 1], input);
      var n := ServeOne(rs[|rs| - 1], p.rest);
      if |p.out| == |rs| - 1 && n.Some? { PieceConserves(p.out, p.rest, n.value); }
    }
  }

  lemma PieceConserves(out: seq<string>, rest: string, n: nat)
    requires n <= |rest|
    ensures Flatten(out + [rest[..n]]) + rest[n..] == Flatten(out) + rest
  {
    FlattenPush(out, rest[..n]);
    ConcatAssoc(Flatten(out), rest[..n], rest[n..]);
    assert rest[..n] + rest[n..] == rest;
  }

  lemma {:induction false} ServePrefix(rs: seq<Request>, k: nat, input: string)
    requires k <= |rs|
    ensures Serve(rs[..k], input).out <= Serve(rs, input).out
    decreases |rs|
  {
    if k < |rs| {
      assert rs[..|rs| - 1][..k] == rs[..k];
      ServePrefix(rs[..|rs| - 1], k, input);
    } else {
      assert rs[..k] == rs;
    }
  }

  // --------------------------------------------------------- what a stream has served

  function Datas(consumed: seq<Chunk>): (d: seq<string>)
    ensures |d| == |consumed|
  {
    seq(|consumed|, i requires 0 <= i < |consumed| => consumed[i].data)
  }

  lemma DatasAppend(consumed: seq<Chunk>, c: Chunk)
    ensures Datas(consumed + [c]) == Datas(consumed) + [c.data]
  {
  }

  predicate ToCloseIssued(rs: seq<Request>) { rs != [] && rs[|rs| - 1].ToClose? }

  /** The request the mode fields describe. */
  function Pending(s: Stream): Option<Request> {
    if s.readBytes > 0 then Some(Count(s.readBytes))
    else if s.readDelimiter != "" then Some(Until(s.readDelimiter))
    else if s.readUntilClose then Some(ToClose)
    else None
  }

  /** The fields the read side lives in. */
  ghost predicate SameReads(s: Stream, s': Stream) {
    && s'.readBuf == s.readBuf && s'.closed == s.closed
    && s'.readBytes == s.readBytes && s'.readDelimiter == s.readDelimiter
    && s'.readUntilClose == s.readUntilClose
    && s'.log.requests == s.log.requests && s'.log.received == s.log.received
    && s'.log.consumed == s.log.consumed
  }

  ghost predicate OneMode(s: Stream) {
    && (s.readBytes > 0 ==> s.readDelimiter == "" && !s.readUntilClose)
    && (s.readDelimiter != "" ==> !s.readUntilClose)
  }

  /**
   Before a read-until-close: the chunks consumed are what sequential serving of the same
   number of requests yields, the buffer is what it leaves, and an open stream is at most one
   request behind, the one its mode fields describe.
   */
  ghost predicate InStep(s: Stream) {
    var rs, d := s.log.requests, Datas(s.log.consumed);
    && |d| <= |rs|
    && Serve(rs[..|d|], s.log.received) == Served(d, Contents(s.readBuf))
    && !s.readUntilClose
    && (!s.closed ==>
          if Pending(s).None? then |d| == |rs| else |d| + 1 == |rs| && rs[|d|] == Pending(s).value)
  }

  /** After it: everything left over by the earlier requests goes into its chunks. */
  ghost predicate Draining(s: Stream)
    requires ToCloseIssued(s.log.requests)
  {
    var rs, d := s.log.requests, Datas(s.log.consumed);
    var k := |rs| - 1;
    var p := Serve(rs[..k], s.log.received);
    && |p.out| == k <= |d| && d[..k] == p.out
    && Flatten(d[k..]) + Contents(s.readBuf) == p.rest
    && (!s.closed ==> Pending(s) == Some(ToClose))
  }

  ghost predicate Loose(s: Stream) {
    && RealRequests(s.log.requests) && OneMode(s)
    && if ToCloseIssued(s.log.requests) then Draining(s) else InStep(s)
  }

  /** Loose, with nothing deliverable held back. */
  ghost predicate Faithful(s: Stream) {
    && Loose(s)
    && (ToCloseIssued(s.log.requests) ==> Contents(s.readBuf) == "")
    && (!s.closed && Pending(s).Some? ==> ServeOne(Pending(s).value, Contents(s.readBuf)).None?)
  }

  lemma FaithfulFrame(s: Stream, s': Stream)
    requires SameReads(s, s')
    ensures Loose(s) == Loose(s') && Faithful(s) == Faithful(s')
  {
  }

  // ------------------------------------------------------------------------- pieces

  lemma ReceiveKeeps(s: Stream, input: Input)
    requires Loose(s) && !s.closed
    ensures var s' := Receive(s, ReadPass(AtWriteEnd, s.readBuf, input));
      Loose(s') && !s'.closed && Pending(s') == Pending(s)
  {
    var p := ReadPass(AtWriteEnd, s.readBuf, input);
    MeantPassIsFifo(s.readBuf, input);
    var rs, d := s.log.requests, Datas(s.log.consumed);
    var k := if ToCloseIssued(rs) then |rs| - 1 else |d|;
    ServeGrows(rs[..k], s.log.received, p.bytes);
    if ToCloseIssued(rs) { ConcatAssoc(Flatten(d[k..]), Contents(s.readBuf), p.bytes); }
  }

  /** Handing over the first bytes of the buffer, as one more served request. */
  lemma DeliverInStep(s: Stream, n: nat, cb: Option<Script>)
    requires Loose(s) && !ToCloseIssued(s.log.requests)
    requires |s.log.consumed| + 1 == |s.log.requests| && n <= Readable(s.readBuf)
    requires ServeOne(s.log.requests[|s.log.consumed|], Contents(s.readBuf)) == Some(n)
    ensures var s' := Deliver(s, n, cb).(readBytes := 0, readDelimiter := "", readCb := None); Faithful(s')
  {
    var s' := Deliver(s, n, cb).(readBytes := 0, readDelimiter := "", readCb := None);
    DeliveredOneMore(s, n, cb);
    assert Pending(s') == None;
    assert InStep(s');
  }

  lemma DeliveredOneMore(s: Stream, n: nat, cb: Option<Script>)
    requires InStep(s) && |s.log.consumed| + 1 == |s.log.requests| && n <= Readable(s.readBuf)
    requires ServeOne(s.log.requests[|s.log.consumed|], Contents(s.readBuf)) == Some(n)
    ensures var s', rs := Deliver(s, n, cb), s.log.requests;
      var d' := Datas(s'.log.consumed);
      |d'| == |rs| && Serve(rs[..|d'|], s.log.received) == Served(d', Contents(s'.readBuf))
  {
    hide ServeOne, Serve;
    var rs := s.log.requests;
    ServedOneMore(rs, s.log.consumed, s.log.received, Contents(s.readBuf), n, cb);
    TakenContents(s.readBuf, n);
    assert rs[..|rs|] == rs;
  }

  lemma ServedOneMore(rs: seq<Request>, consumed: seq<Chunk>, received: string, c: string, n: nat, cb: Option<Script>)
    requires |consumed| + 1 == |rs| && ServeOne(rs[|consumed|], c) == Some(n)
    requires Serve(rs[..|consumed|], received) == Served(Datas(consumed), c)
    ensures Serve(rs, received) == Served(Datas(consumed + [Chunk(c[..n], cb)]), c[n..])
  {
    hide ServeOne, Serve;
    var k := |consumed|;
    ServeAnother(rs[..k], rs[k], received);
    assert rs[..k] + [rs[k]] == rs;
    DatasAppend(consumed, Chunk(c[..n], cb));
  }

  lemma TakenContents(b: Window, n: nat)
    requires n <= Readable(b)
    ensures Contents(Taken(b, n)) == Contents(b)[n..]
  {
  }

  /** Handing the whole buffer to a read-until-close. */
  lemma DeliverDrains(s: Stream)
    requires Loose(s) && ToCloseIssued(s.log.requests)
    ensures Faithful(Deliver(s, Readable(s.readBuf), s.readCb))
  {
    var d, c, k := Datas(s.log.consumed), Contents(s.readBuf), |s.log.requests| - 1;
    assert c[..Readable(s.readBuf)] == c;
    DatasAppend(s.log.consumed, Chunk(c, s.readCb));
    assert (d + [c])[k..] == d[k..] + [c] && (d + [c])[..k] == d[..k];
    FlattenPush(d[k..], c);
    assert Contents(Deliver(s, Readable(s.readBuf), s.readCb).readBuf) == "";
  }

  /** What the extraction step does, in terms of the request it serves. */
  lemma ExtractServes(s: Stream)
    requires OneMode(s)
    ensures Extract(s) ==
      match Pending(s)
      case None => s
      case Some(ToClose) => if Readable(s.readBuf) > 0 then Deliver(s, Readable(s.readBuf), s.readCb) else s
      case Some(r) =>
        match ServeOne(r, Contents(s.readBuf))
        case None => s
        case Some(n) => Deliver(s, n, s.readCb).(readBytes := 0, readDelimiter := "", readCb := None)
  {
  }

  lemma ExtractFaithful(s: Stream)
    requires Loose(s) && !s.closed
    ensures Faithful(Extract(s)) && !Extract(s).closed
  {
    ExtractServes(s);
    if s.readUntilClose && Readable(s.readBuf) > 0 {
      DeliverDrains(s);
    } else if Pending(s).Some? && !s.readUntilClose {
      var n := ServeOne(Pending(s).value, Contents(s.readBuf));
      if n.Some? { DeliverInStep(s, n.value, s.readCb); }
    }
  }

  /** close() keeps the account, and flushes a read-until-close to the last byte. */
  lemma CloseFaithful(s: Stream)
    requires Loose(s) && !s.closed
    ensures Faithful(Close(s))
  {
    hide Serve, Datas;
    if s.readUntilClose && Readable(s.readBuf) > 0 { DeliverDrains(s); }
    var s1 := FlushOnClose(s);
    assert Loose(s1) && (s1.readUntilClose ==> Contents(s1.readBuf) == "");
    FaithfulFrame(s1.(closed := true, readUntilClose := false), Close(s));
  }

  lemma HandleReadFaithful(s: Stream, input: Input)
    requires Loose(s) && !s.closed
    ensures var (s', failed) := HandleRead(s, AtWriteEnd, input);
      !s'.closed && Loose(s') && (!failed ==> Faithful(s'))
  {
    var s1 := Receive(s, ReadPass(AtWriteEnd, s.readBuf, input));
    ReceiveKeeps(s, input);
    if !HandleRead(s, AtWriteEnd, input).1 { ExtractFaithful(s1); }
  }

  lemma StartReadFaithful(s: Stream, input: Input, failure: int)
    requires Loose(s) && !s.closed
    ensures Faithful(StartRead(s, AtWriteEnd, input, failure).0)
  {
    hide HandleRead, Close, Faithful, Loose;
    HandleReadFaithful(s, input);
    var (s1, failed) := HandleRead(s, AtWriteEnd, input);
    if failed { CloseFaithful(s1); } else { FaithfulFrame(s1, AddState(s1, READ)); }
  }

  /** Issuing a request on an idle open stream. */
  lemma RequestLoose(s: Stream, r: Request, s': Stream)
    requires Faithful(s) && !s.closed && Pending(s).None? && !ToCloseIssued(s.log.requests)
    requires SameReads(Requested(s, r, None), s'.(readBytes := 0, readDelimiter := "", readUntilClose := false))
    requires Pending(s') == Some(r) && OneMode(s') && (r.Until? ==> r.delimiter != "")
    ensures Loose(s')
  {
    var rs, d := s.log.requests, Datas(s.log.consumed);
    assert (rs + [r])[..|rs|] == rs;
    assert rs[..|d|] == rs;
    if r.ToClose? { assert d[|d|..] == [] && d[..|d|] == d; }
  }

  // --------------------------------------------------------------------- operations

  /** A request the buffer can serve at once; `asked` is the stream with the request stored. */
  lemma ServedAtOnce(s: Stream, asked: Stream, r: Request, n: nat, cb: Option<Script>)
    requires Idle(s) && SameReads(Requested(s, r, cb), asked.(readBytes := 0, readDelimiter := ""))
    requires Loose(asked) && !ToCloseIssued(asked.log.requests) && Pending(asked) == Some(r)
    requires n <= Readable(s.readBuf) && ServeOne(r, Contents(s.readBuf)) == Some(n)
    requires asked.log.consumed == s.log.consumed && !asked.closed
    ensures Faithful(Deliver(Requested(s, r, cb), n, cb))
  {
    DeliverInStep(asked, n, cb);
    FaithfulFrame(Deliver(asked, n, cb).(readBytes := 0, readDelimiter := "", readCb := None),
                  Deliver(Requested(s, r, cb), n, cb));
  }

  lemma ReadBytesFaithful(s: Stream, n: int, cb: Option<Script>, input: Input)
    requires Faithful(s) && Allowed(s, OpReadBytes(n, cb, input))
    ensures Faithful(ReadBytes(s, AtWriteEnd, n, cb, input).0)
  {
    if n > 0 {
      var asked := Requested(s, Count(n), cb).(readBytes := n, readCb := cb);
      RequestLoose(s, Count(n), asked);
      if Readable(s.readBuf) >= n {
        ServedAtOnce(s, asked, Count(n), n, cb);
      } else {
        StartReadFaithful(asked, input, -2);
      }
    }
  }

  lemma ReadUntilServed(s: Stream, asked: Stream, d: string, i: nat, cb: Option<Script>)
    requires Idle(s) && SameReads(Requested(s, Until(d), cb), asked.(readBytes := 0, readDelimiter := ""))
    requires Loose(asked) && !ToCloseIssued(asked.log.requests) && Pending(asked) == Some(Until(d))
    requires asked.log.consumed == s.log.consumed && !asked.closed && Find(Contents(s.readBuf), d) == i
    ensures Faithful(Deliver(Requested(s, Until(d), cb), i + |d|, cb))
  {
    ServedAtOnce(s, asked, Until(d), i + |d|, cb);
  }

  lemma ReadUntilFaithful(s: Stream, d: string, cb: Option<Script>, input: Input)
    requires Faithful(s) && Allowed(s, OpReadUntil(d, cb, input))
    ensures Faithful(ReadUntil(s, AtWriteEnd, d, cb, input).0)
  {
    if d != "" {
      var asked := Requested(s, Until(d), cb).(readDelimiter := d, readCb := cb);
      RequestLoose(s, Until(d), asked);
      SeekFaithful(s, asked, d, cb, input);
    }
  }

  lemma SeekFaithful(s: Stream, asked: Stream, d: string, cb: Option<Script>, input: Input)
    requires Idle(s) && Loose(asked) && !asked.closed && !ToCloseIssued(asked.log.requests)
    requires SameReads(Requested(s, Until(d), cb), asked.(readBytes := 0, readDelimiter := ""))
    requires Pending(asked) == Some(Until(d)) && asked.log.consumed == s.log.consumed
    requires asked == Requested(s, Until(d), cb).(readDelimiter := d, readCb := cb)
    ensures Faithful(SeekDelimiter(Requested(s, Until(d), cb), AtWriteEnd, d, cb, input).0)
  {
    hide Find, StartRead, SeekDelimiter;
    var i := Find(Contents(s.readBuf), d);
    if i >= 0 { ReadUntilServed(s, asked, d, i, cb); } else { StartReadFaithful(asked, input, -2); }
    SeekFinds(Requested(s, Until(d), cb), d, cb, input);
  }

  lemma SeekFinds(s: Stream, d: string, cb: Option<Script>, input: Input)
    ensures var i, s' := Find(Contents(s.readBuf), d), SeekDelimiter(s, AtWriteEnd, d, cb, input).0;
      s' == if i >= 0 then Deliver(s, i + |d|, cb)
            else StartRead(s.(readDelimiter := d, readCb := cb), AtWriteEnd, input, -2).0
  {
  }

  lemma SendFaithful(s: Stream, output: Output)
    requires Faithful(s) && !s.closed
    ensures Faithful(Send(s, output).0)
  {
    hide Close, Loose;
    var (s1, failed) := HandleWrite(s, output);
    FaithfulFrame(s, s1);
    if failed { CloseFaithful(s1); } else { FaithfulFrame(s1, AddState(s1, WRITE)); }
  }

  lemma WriteFaithful(s: Stream, data: string, output: Output)
    requires Faithful(s)
    ensures Faithful(WriteBytes(s, data, output).0)
    ensures Faithful(JustWrite(s, data).0)
  {
    hide Close, Loose;
    var (s1, ret) := JustWrite(s, data);
    if ret == -3 { CloseFaithful(s); } else { FaithfulFrame(s, s1); }
    if ret == 0 { SendFaithful(s1, output); }
  }

  lemma FinishEventsFaithful(s: Stream, events: Mask, output: Output)
    requires Faithful(s) && !s.closed
    ensures Faithful(FinishEvents(s, events, output))
  {
    var s1 := if events.write then HandleWrite(s, output).0 else s;
    FaithfulFrame(s, s1);
    CloseFaithful(s1);
    FaithfulFrame(s1, Updated(s1, NextState(s1)));
  }

  lemma EventsFaithful(s: Stream, events: Mask, failure: Option<int>, input: Input, output: Output)
    requires Faithful(s)
    ensures Faithful(HandleEvents(s, AtWriteEnd, events, failure, input, output))
  {
    hide Loose;
    if !s.closed {
      var err := if failure.Some? then failure.value else 0;
      var s0 := s.(posted := s.posted + Notice(ConnectDone(err), s.connectCb), connectCb := None,
                   connecting := failure.Some?);
      FaithfulFrame(s, s0);
      CloseFaithful(s0);
      var s1 := if s.connecting then HandleConnect(s, failure) else s;
      if !s1.closed {
        HandleReadFaithful(s1, input);
        var (s2, failed) := if events.read then HandleRead(s1, AtWriteEnd, input) else (s1, false);
        if failed { CloseFaithful(s2); } else { FinishEventsFaithful(s2, events, output); }
      }
    }
  }

  lemma ConnectFaithful(s: Stream, ok: bool, cb: Option<Script>)
    requires Faithful(s) && !s.closed
    ensures Faithful(Step(s, AtWriteEnd, OpConnect(ok, cb)))
  {
    var s1 := s.(connecting := true);
    FaithfulFrame(s, s1);
    CloseFaithful(s1);
    FaithfulFrame(s1, AddState(s1, WRITE).(connectCb := cb));
  }

  lemma WriteWithFaithful(s: Stream, data: string, output: Output, cb: Option<Script>)
    requires Faithful(s)
    ensures Faithful(WriteBytesWith(s, data, output, cb).0)
  {
    var s1 := s.(writeCb := cb);
    FaithfulFrame(s, s1);
    WriteFaithful(s1, data, output);
    var s2 := WriteBytes(s1, data, output).0;
    FaithfulFrame(s2, s2.(writeCb := None));
  }

  lemma StepFaithful(s: Stream, op: Op)
    requires Faithful(s) && Allowed(s, op)
    ensures Faithful(Step(s, AtWriteEnd, op))
  {
    match op
    case OpConnect(ok, cb) => ConnectFaithful(s, ok, cb);
    case OpSetCloseCallback(cb) => FaithfulFrame(s, s.(closeCb := cb));
    case OpClose => if !s.closed { CloseFaithful(s); }
    case OpJustWrite(data) => WriteFaithful(s, data, Refuses);
    case OpWrite(data, output) => WriteFaithful(s, data, output);
    case OpWriteWith(data, output, cb) => WriteWithFaithful(s, data, output, cb);
    case OpReadBytes(n, cb, input) => ReadBytesFaithful(s, n, cb, input);
    case OpReadUntil(d, cb, input) => ReadUntilFaithful(s, d, cb, input);
    case OpReadUntilClose(cb, input) =>
      var s1 := Requested(s, ToClose, cb).(readUntilClose := true, readCb := cb);
      RequestLoose(s, ToClose, s1);
      StartReadFaithful(s1, input, -1);
    case OpEvents(events, failure, input, output) => EventsFaithful(s, events, failure, input, output);
  }

  lemma {:induction false} RunFaithful(s: Stream, ops: seq<Op>)
    requires Faithful(s) && Runnable(s, AtWriteEnd, ops)
    ensures Faithful(Run(s, AtWriteEnd, ops))
    decreases |ops|
  {
    if ops != [] {
      StepFaithful(s, ops[0]);
      RunFaithful(Step(s, AtWriteEnd, ops[0]), ops[1..]);
    }
  }

  // ---------------------------------------------------------------- the main theorems

  /**
   Sequential reading. Over every run of counted and delimiter reads, the chunks consumed are
   those that serving the requests one by one from the received bytes yields: all of them, and
   the buffer what is left over, while the stream is open; a prefix of them once it is closed.
   */
  lemma ReadsAreSequential(s: Stream, ops: seq<Op>)
    requires Fresh(s) && Runnable(s, AtWriteEnd, ops)
    requires !ToCloseIssued(Run(s, AtWriteEnd, ops).log.requests)
    ensures var s' := Run(s, AtWriteEnd, ops);
      var served := Serve(s'.log.requests, s'.log.received);
      if s'.closed then Datas(s'.log.consumed) <= served.out
      else Served(Datas(s'.log.consumed), Contents(s'.readBuf)) == served
  {
    RunFaithful(s, ops);
    var s' := Run(s, AtWriteEnd, ops);
    var rs, d := s'.log.requests, Datas(s'.log.consumed);
    if |d| < |rs| { assert |d| + 1 == |rs| && !s'.closed ==> rs[..|rs| - 1] == rs[..|d|]; }
    else { assert rs[..|d|] == rs; }
    ServePrefix(rs, |d|, s'.log.received);
  }

  /**
   Fragmentation independence. Two runs, however their reads were split and whichever path
   served them, that issued the same requests and received the same bytes have delivered the same
   chunks as far as both went: one may be ahead only if the other has closed. Both still open,
   they have delivered the same and hold the same bytes.
   */
  lemma FragmentationDoesNotMatter(s: Stream, ops: seq<Op>, t: Stream, ops': seq<Op>)
    requires Fresh(s) && Runnable(s, AtWriteEnd, ops)
    requires Fresh(t) && Runnable(t, AtWriteEnd, ops')
    requires var s', t' := Run(s, AtWriteEnd, ops), Run(t, AtWriteEnd, ops');
      && s'.log.requests == t'.log.requests && s'.log.received == t'.log.received
      && !ToCloseIssued(s'.log.requests)
    ensures var s', t' := Run(s, AtWriteEnd, ops), Run(t, AtWriteEnd, ops');
      var d, e := Datas(s'.log.consumed), Datas(t'.log.consumed);
      && (d <= e || e <= d)
      && (!s'.closed ==> e <= d) && (!t'.closed ==> d <= e)
      && (!s'.closed && !t'.closed ==> d == e && Contents(s'.readBuf) == Contents(t'.readBuf))
  {
    ReadsAreSequential(s, ops);
    ReadsAreSequential(t, ops');
    var s', t' := Run(s, AtWriteEnd, ops), Run(t, AtWriteEnd, ops');
    BothPrefixes(Datas(s'.log.consumed), Datas(t'.log.consumed), Serve(s'.log.requests, s'.log.received).out);
  }

  lemma BothPrefixes(d: seq<string>, e: seq<string>, all: seq<string>)
    requires d <= all && e <= all
    ensures d <= e || e <= d
  {
    assert d == all[..|d|] && e == all[..|e|];
  }

  /**
   Conservation. Whatever the requests, the received bytes are the consumed chunks followed by
   the buffer; and a read-until-close leaves nothing in the buffer, open or closed.
   */
  lemma NothingReceivedIsLost(s: Stream, ops: seq<Op>)
    requires Fresh(s) && Runnable(s, AtWriteEnd, ops)
    ensures var s' := Run(s, AtWriteEnd, ops);
      && s'.log.received == Flatten(Datas(s'.log.consumed)) + Contents(s'.readBuf)
      && (ToCloseIssued(s'.log.requests) ==> s'.log.received == Flatten(Datas(s'.log.consumed)))
  {
    RunFaithful(s, ops);
    var s' := Run(s, AtWriteEnd, ops);
    var rs, d := s'.log.requests, Datas(s'.log.consumed);
    var k := if ToCloseIssued(rs) then |rs| - 1 else |d|;
    ServeConserves(rs[..k], s'.log.received);
    assert d == d[..k] + d[k..];
    FlattenAppend(d[..k], d[k..]);
    ConcatAssoc(Flatten(d[..k]), Flatten(d[k..]), Contents(s'.readBuf));
  }
}
