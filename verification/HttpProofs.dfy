/** A response is closed only after it has drained, and never sticks. */
module HttpProofs {
  import opened Common
  import opened LoopModel
  import opened Buffers
  import opened StreamModel
  import opened StreamProofs
  import opened StreamBytes
  import opened StreamNotices
  import opened HttpParse
  import opened HttpModel

  ghost predicate WriteDoneFrom(posted: seq<Task>, from: nat) {
    exists i :: from <= i < |posted| && posted[i].kind.WriteDone?
  }

  /** What an event pass may do to the write callback. */
  ghost predicate CallbackMoves(s: Stream, s': Stream) {
    && s.posted <= s'.posted
    && s'.log.accepted == s.log.accepted
    && Readable(s'.writeBuf) <= Readable(s.writeBuf)
    && (WriteDoneFrom(s'.posted, |s.posted|) ==> Readable(s'.writeBuf) == 0)
    && (s.writeCb.Some? ==> s'.closed || s'.writeCb.Some? || WriteDoneFrom(s'.posted, |s.posted|))
    && (s.writeCb.None? ==> s'.writeCb.None? && !WriteDoneFrom(s'.posted, |s.posted|))
  }

  lemma MovesCompose(a: Stream, b: Stream, c: Stream)
    requires CallbackMoves(a, b) && CallbackMoves(b, c) && (b.closed ==> c.closed)
    ensures CallbackMoves(a, c)
  {
    if WriteDoneFrom(c.posted, |a.posted|) && !WriteDoneFrom(c.posted, |b.posted|) {
      var i :| |a.posted| <= i < |c.posted| && c.posted[i].kind.WriteDone?;
      assert b.posted[i] == c.posted[i];
    }
    if a.writeCb.None? {
      forall i | |a.posted| <= i < |c.posted| ensures !c.posted[i].kind.WriteDone? {
        if i < |b.posted| { assert b.posted[i] == c.posted[i]; }
      }
    } else if WriteDoneFrom(b.posted, |a.posted|) {
      var i :| |a.posted| <= i < |b.posted| && b.posted[i].kind.WriteDone?;
      assert c.posted[i] == b.posted[i];
    }
  }

  lemma CloseMoves(s: Stream)
    ensures CallbackMoves(s, Close(s)) && Close(s).closed
  {
  }

  lemma DeliverMoves(s: Stream, len: nat, cb: Option<Script>)
    requires len <= Readable(s.readBuf)
    ensures CallbackMoves(s, Deliver(s, len, cb))
  {
  }

  lemma ExtractMoves(s: Stream)
    ensures CallbackMoves(s, Extract(s)) && Extract(s).closed == s.closed
  {
    if Extractable(s) > 0 { DeliverMoves(s, Extractable(s), s.readCb); }
  }

  lemma HandleReadMoves(s: Stream, fill: Fill, input: Input)
    ensures CallbackMoves(s, HandleRead(s, fill, input).0) && HandleRead(s, fill, input).0.closed == s.closed
  {
    ExtractMoves(Receive(s, ReadPass(fill, s.readBuf, input)));
  }

  lemma HandleWriteMoves(s: Stream, output: Output)
    ensures CallbackMoves(s, HandleWrite(s, output).0) && HandleWrite(s, output).0.closed == s.closed
  {
    var s' := HandleWrite(s, output).0;
    WritePassIsFifo(s.writeBuf, output);
    if s'.posted != s.posted { assert s'.posted[|s.posted|].kind.WriteDone?; }
  }

  lemma FinishEventsMove(s: Stream, events: Mask, output: Output)
    requires !s.closed
    ensures CallbackMoves(s, FinishEvents(s, events, output))
  {
    HandleWriteMoves(s, output);
    var (s1, failed) := if events.write then HandleWrite(s, output) else (s, false);
    assert CallbackMoves(s, s1);
    if failed || events.error {
      CloseMoves(s1);
      MovesCompose(s, s1, Close(s1));
    } else {
      var s2 := Updated(s1, NextState(s1));
      assert CallbackMoves(s1, s2);
      MovesCompose(s, s1, s2);
    }
  }

  lemma ServeEventsMove(s: Stream, fill: Fill, events: Mask, input: Input, output: Output)
    requires !s.closed
    ensures CallbackMoves(s, ServeEvents(s, fill, events, input, output))
  {
    HandleReadMoves(s, fill, input);
    var (s1, failed) := if events.read then HandleRead(s, fill, input) else (s, false);
    if failed {
      CloseMoves(s1);
      MovesCompose(s, s1, Close(s1));
    } else {
      FinishEventsMove(s1, events, output);
      MovesCompose(s, s1, FinishEvents(s1, events, output));
    }
  }

  lemma EventsMove(s: Stream, fill: Fill, events: Mask, input: Input, output: Output)
    requires !s.connecting
    ensures CallbackMoves(s, HandleEvents(s, fill, events, None, input, output))
  {
    if !s.closed { ServeEventsMove(s, fill, events, input, output); }
  }

  // ------------------------------------------------------------------------ liveness

  /** onWriteComplete is waiting in the loop. */
  ghost predicate CompletionQueued(h: Http) {
    h.ran <= |h.conn.stream.posted| && WriteDoneFrom(h.conn.stream.posted, h.ran)
  }

  /**
   The response cannot stick: the connection is closed, or onWriteComplete is queued, or bytes
   are unsent with the write callback stored and the stream waiting to write. The loop then has
   it registered with that very mask, if its descriptor is in the handler table at all.
   */
  ghost predicate Live(h: Http) {
    var s := h.conn.stream;
    || s.closed
    || CompletionQueued(h)
    || (s.writeCb.Some? && Writing(s) && s.state.write && s.slot == if s.reachable then Some(s.state) else None)
  }

  /** Before the handler has finished: nothing of the response is under way. */
  ghost predicate Answering(h: Http) {
    && !h.finished && !h.conn.requestFinished && !h.serverClosed
    && h.conn.stream.writeCb.None? && !CompletionQueued(h)
  }

  /**
   After it has finished. A non-empty answer is live; an empty one is on its own. Whatever the
   server closed had been sent in full.
   */
  ghost predicate Answered(h: Http) {
    var s := h.conn.stream;
    && h.finished && h.conn.requestFinished
    && (if h.answer != "" then Live(h) else s.writeCb.None? && !CompletionQueued(h) && !h.serverClosed)
    && (CompletionQueued(h) && !s.closed ==> !Writing(s))
    && (!s.closed ==> s.log.accepted == h.goal)
    && (h.serverClosed ==> s.closed && s.log.sent == h.goal)
  }

  /** A server-side connection in good order. */
  ghost predicate Sane(h: Http) {
    var s := h.conn.stream;
    && Sound(s) && WriteFifo(s) && !s.connecting && h.ran <= |s.posted|
    && (!s.closed ==> s.state != NONE)
  }

  // -------------------------------------------------------------------- the answer

  lemma CloseConn(s: Stream)
    requires Sound(s) && WriteFifo(s)
    ensures var s' := Close(s);
      && Sound(s') && WriteFifo(s') && s'.connecting == s.connecting && s'.closed
      && CallbackMoves(s, s') && s'.log.sent == s.log.sent
  {
    if !s.closed { CloseKeeps(s); }
    CloseMoves(s);
    CloseWrites(s);
  }

  /** Buffering the head. */
  lemma HeadBuffered(s: Stream, head: string)
    requires Sound(s) && WriteFifo(s) && !s.connecting && s.writeCb.None? && head != ""
    ensures var s' := JustWrite(s, head).0;
      && Sound(s') && WriteFifo(s') && !s'.connecting && s'.writeCb.None? && s'.state == (if s'.closed then NONE else s.state)
      && s.posted <= s'.posted && !WriteDoneFrom(s'.posted, |s.posted|)
      && (s.closed ==> s'.closed)
      && (!s'.closed ==> s'.log.accepted == s.log.accepted + head && Readable(s'.writeBuf) > 0 && s'.posted == s.posted)
  {
    JustWriteKeeps(s, head);
    JustWriteForward(s, head);
    CloseConn(s);
  }

  lemma SendMoves(s: Stream, output: Output)
    ensures var (s', failed) := Send(s, output);
      && s.posted <= s'.posted && (failed ==> s'.closed)
      && (!failed && Readable(s'.writeBuf) > 0 ==> s'.writeCb == s.writeCb)
      && (!failed && WriteDoneFrom(s'.posted, |s.posted|) ==> Readable(s'.writeBuf) == 0)
      && s'.connecting == s.connecting && (!s.closed && !failed ==> s'.state.Union(s.state) == s'.state)
  {
    HandleWriteMoves(s, output);
    CloseMoves(HandleWrite(s, output).0);
  }

  /** Writing the body, with its callback. */
  lemma BodyWritten(s: Stream, body: string, output: Output)
    requires Sound(s) && WriteFifo(s) && !s.connecting && s.writeCb.None? && (!s.closed ==> s.state != NONE)
    ensures var s' := WriteBytesWith(s, body, output, Some(ON_WRITE_COMPLETE)).0;
      && Sound(s') && WriteFifo(s') && !s'.connecting && s.posted <= s'.posted
      && (!s'.closed ==> s'.state != NONE && s'.log.accepted == s.log.accepted + body)
      && (s.closed || body == "" ==> s' == s)
      && (!s'.closed && body != "" && Readable(s'.writeBuf) > 0 ==> s'.writeCb.Some?)
      && (!s'.closed && WriteDoneFrom(s'.posted, |s.posted|) ==> Readable(s'.writeBuf) == 0)
  {
    var s0 := s.(writeCb := Some(ON_WRITE_COMPLETE));
    WriteKeeps(s, Some(ON_WRITE_COMPLETE), body, output);
    WriteForward(s0, body, output);
    CloseMoves(s0);
    SendMoves(JustWrite(s0, body).0, output);
  }

  lemma QueuedMoves(s: Stream, s': Stream, ran: nat)
    requires s.posted <= s'.posted && ran <= |s.posted|
    ensures WriteDoneFrom(s'.posted, ran) <==>
            WriteDoneFrom(s.posted, ran) || WriteDoneFrom(s'.posted, |s.posted|)
  {
    if WriteDoneFrom(s.posted, ran) {
      var i :| ran <= i < |s.posted| && s.posted[i].kind.WriteDone?;
      assert s'.posted[i] == s.posted[i];
    }
    if WriteDoneFrom(s'.posted, ran) && !WriteDoneFrom(s'.posted, |s.posted|) {
      var i :| ran <= i < |s'.posted| && s'.posted[i].kind.WriteDone?;
      assert s.posted[i] == s'.posted[i];
    }
  }

  /** The head buffered, then the body written with its callback. */
  lemma HeadThenBody(s: Stream, head: string, body: string, output: Output, ran: nat)
    requires Sound(s) && WriteFifo(s) && !s.connecting && s.writeCb.None? && head != ""
    requires ran <= |s.posted| && !WriteDoneFrom(s.posted, ran) && (!s.closed ==> s.state != NONE)
    ensures var s' := WriteBytesWith(JustWrite(s, head).0, body, output, Some(ON_WRITE_COMPLETE)).0;
      && Sound(s') && WriteFifo(s') && !s'.connecting && ran <= |s'.posted| && (!s'.closed ==> s'.state != NONE)
      && (!s'.closed ==> s'.log.accepted == s.log.accepted + head + body)
      && (!s'.closed && body != "" && Writing(s') ==> s'.writeCb.Some?)
      && (!s'.closed && WriteDoneFrom(s'.posted, ran) ==> !Writing(s'))
      && (body == "" ==> s'.writeCb.None? && !WriteDoneFrom(s'.posted, ran) && (s'.closed || Writing(s')))
  {
    hide JustWrite, WriteBytesWith, Sound;
    var s1 := JustWrite(s, head).0;
    HeadBuffered(s, head);
    BodyWritten(s1, body, output);
    QueuedMoves(s, s1, ran);
    QueuedMoves(s1, WriteBytesWith(s1, body, output, Some(ON_WRITE_COMPLETE)).0, ran);
  }

  lemma FlushAnswers(h: Http, reason: string, date: string, output: Output)
    requires Sane(h) && Answering(h)
    ensures var h' := Flush(h.(finished := true), reason, date, output); var s := h'.conn.stream;
      && Sane(h') && h'.answer == h.buff && h'.ran == h.ran && !h'.serverClosed && !h'.conn.requestFinished
      && h'.finished
      && (!s.closed ==> s.log.accepted == h'.goal)
      && (!s.closed && h.buff != "" && Writing(s) ==> s.writeCb.Some?)
      && (CompletionQueued(h') && !s.closed ==> !Writing(s))
      && (h.buff == "" ==> s.writeCb.None? && !CompletionQueued(h') && (s.closed || Writing(s)))
  {
    var head := Head(h.status, reason, date, |h.buff|);
    assert head != "";
    hide Head, JustWrite, WriteBytesWith, Sound;
    HeadThenBody(h.conn.stream, head, h.buff, output, h.ran);
  }

  /** finish(): the answer is live, or complete and closed, exactly as its body allows. */
  lemma FinishAnswers(h: Http, reason: string, date: string, output: Output)
    requires Sane(h) && Answering(h)
    ensures var h' := HandlerFinish(h, reason, date, output);
      Sane(h') && Answered(h') && h'.answer == h.buff
  {
    hide Flush;
    FlushAnswers(h, reason, date, output);
    var h1 := Flush(h.(finished := true), reason, date, output);
    var s := h1.conn.stream;
    CloseConn(s);
    var h2 := HandlerFinish(h, reason, date, output);
    if s.closed {
      assert h2.conn.stream == s;
    } else if Writing(s) {
      assert h2.conn.stream == s;
    } else {
      assert s.log.sent + "" == s.log.sent;
    }
  }

  // ---------------------------------------------------------------------- whole runs

  lemma EventsSane(s: Stream, fill: Fill, events: Mask, input: Input, output: Output)
    requires Sound(s) && WriteFifo(s) && !s.connecting && (!s.closed ==> s.state != NONE)
    ensures var s' := HandleEvents(s, fill, events, None, input, output);
      && Sound(s') && WriteFifo(s') && !s'.connecting && (!s'.closed ==> s'.state != NONE)
      && CallbackMoves(s, s') && (s.closed ==> s' == s)
  {
    EventsMove(s, fill, events, input, output);
    EventsSettleTheMask(s, fill, events, None, input, output);
    EventsForward(s, fill, events, None, input, output);
    if !s.closed { ServeEventsForward(s, fill, events, input, output); }
  }

  lemma EventsKeepPhase(h: Http, fill: Fill, events: Mask, input: Input, output: Output)
    requires Sane(h) && (Answering(h) || Answered(h))
    ensures var h' := Act(h, fill, LoopEvents(events, input, output));
      && Sane(h') && (Answering(h) ==> Answering(h')) && (Answered(h) ==> Answered(h'))
  {
    var s := h.conn.stream;
    var s' := HandleEvents(s, fill, events, None, input, output);
    EventsSane(s, fill, events, input, output);
    QueuedMoves(s, s', h.ran);
  }

  lemma SkipQueued(posted: seq<Task>, ran: nat)
    requires ran < |posted|
    ensures WriteDoneFrom(posted, ran) <==> posted[ran].kind.WriteDone? || WriteDoneFrom(posted, ran + 1)
  {
  }

  lemma RunNextKeepsPhase(h: Http)
    requires Sane(h) && (Answering(h) || Answered(h))
    ensures Sane(RunNext(h))
    ensures (Answering(h) ==> Answering(RunNext(h))) && (Answered(h) ==> Answered(RunNext(h)))
  {
    var s := h.conn.stream;
    if h.ran < |s.posted| {
      SkipQueued(s.posted, h.ran);
      CloseConn(s);
      if s.posted[h.ran].kind.WriteDone? && !s.closed && Answered(h) {
        assert Contents(s.writeBuf) == "" && s.log.sent + "" == s.log.sent;
      }
    }
  }

  lemma ErrorKeepsPhase(h: Http, status: int, reason: string, date: string, output: Output)
    requires Sane(h) && (Answering(h) || Answered(h))
    ensures var h' := SendError(h, status, reason, date, output); Sane(h') && (Answering(h') || Answered(h'))
  {
    var h1 := HandlerWrite(h.(status := status), ErrorPage(status, reason));
    assert Sane(h1) && (Answering(h) ==> Answering(h1)) && (Answered(h) ==> Answered(h1));
    if !h.finished { FinishAnswers(h1, reason, date, output); }
  }

  lemma ActKeepsPhase(h: Http, fill: Fill, a: Action)
    requires Sane(h) && (Answering(h) || Answered(h))
    ensures var h' := Act(h, fill, a); Sane(h') && (Answering(h') || Answered(h'))
  {
    match a
    case CallWrite(chunk) =>
    case CallFinish(reason, date, output) =>
      if !h.finished { FinishAnswers(h, reason, date, output); }
    case CallError(status, reason, date, output) => ErrorKeepsPhase(h, status, reason, date, output);
    case LoopEvents(events, input, output) => EventsKeepPhase(h, fill, events, input, output);
    case LoopRunsNext => RunNextKeepsPhase(h);
  }

  lemma {:induction false} ActsKeepPhase(h: Http, fill: Fill, actions: seq<Action>)
    requires Sane(h) && (Answering(h) || Answered(h))
    ensures var h' := Acts(h, fill, actions); Sane(h') && (Answering(h') || Answered(h'))
    decreases |actions|
  {
    if actions != [] {
      ActKeepsPhase(h, fill, actions[0]);
      ActsKeepPhase(Act(h, fill, actions[0]), fill, actions[1..]);
    }
  }

  /**
   Every reachable state of a connection being answered. Once the handler has finished with a
   non-empty body the response cannot stick: the stream is closed, or onWriteComplete is queued,
   or bytes wait to be sent with the callback stored and the stream registered for writing. And
   whenever finish or onWriteComplete did the closing, every byte of head and body had gone to
   the socket.
   */
  lemma ResponsesNeverStick(h: Http, fill: Fill, actions: seq<Action>)
    requires Sane(h) && Answering(h)
    ensures var h' := Acts(h, fill, actions);
      && (h'.finished && h'.answer != "" ==> Live(h'))
      && (h'.serverClosed ==> h'.conn.stream.closed && h'.conn.stream.log.sent == h'.goal)
  {
    ActsKeepPhase(h, fill, actions);
  }

  lemma JustWriteOpens(s: Stream, head: string)
    requires head != ""
    ensures JustWrite(s, head).0.closed <==> s.closed || Room(s.writeBuf) < |head|
  {
  }

  /**
   The condition is exact: finish leaves a live response if and only if its body is not empty, or
   the stream had closed, or has no room for the head (which closes it).
   */
  lemma FinishIsLiveIff(h: Http, reason: string, date: string, output: Output)
    requires Sane(h) && Answering(h)
    ensures Live(HandlerFinish(h, reason, date, output)) <==>
      h.buff != "" || h.conn.stream.closed || Room(h.conn.stream.writeBuf) < |Head(h.status, reason, date, |h.buff|)|
  {
    var head := Head(h.status, reason, date, |h.buff|);
    var h', s1 := HandlerFinish(h, reason, date, output), JustWrite(h.conn.stream, head).0;
    FinishAnswers(h, reason, date, output);
    JustWriteOpens(h.conn.stream, head);
    if h.buff == "" {
      assert s1.writeCb.None?;
      assert WriteBytesWith(s1, h.buff, output, Some(ON_WRITE_COMPLETE)).0 == s1;
      HeadBuffered(h.conn.stream, head);
    }
  }

  /** After an empty answer left open the server never closes the connection, whatever follows. */
  lemma {:induction false} EmptyAnswerNeverCloses(h: Http, fill: Fill, actions: seq<Action>)
    requires Sane(h) && Answered(h) && h.answer == ""
    ensures var h' := Acts(h, fill, actions);
      !h'.serverClosed && !CompletionQueued(h') && h'.conn.stream.writeCb.None?
    decreases |actions|
  {
    if actions != [] {
      var h1 := Act(h, fill, actions[0]);
      FinishedStays(h, fill, actions[0]);
      EmptyAnswerNeverCloses(h1, fill, actions[1..]);
    }
  }

  lemma FinishedStays(h: Http, fill: Fill, a: Action)
    requires Sane(h) && Answered(h)
    ensures var h' := Act(h, fill, a); Sane(h') && Answered(h') && h'.answer == h.answer && h'.goal == h.goal
  {
    match a
    case CallError(status, _, _, _) => assert Act(h, fill, a) == h.(status := status);
    case LoopEvents(events, input, output) => EventsKeepPhase(h, fill, events, input, output);
    case LoopRunsNext => RunNextKeepsPhase(h);
    case _ =>
  }

  // ------------------------------------------------------------ reading the request

  /** An idle, bounded read side that has consumed nothing more. */
  ghost predicate ReadsUntouched(s: Stream, s': Stream) {
    && ReadBounded(s') && StreamModel.Idle(s') && s'.log.consumed == s.log.consumed
    && Readable(s'.readBuf) <= Readable(s.readBuf)
  }

  lemma CloseLeavesReads(s: Stream)
    requires ReadBounded(s) && StreamModel.Idle(s)
    ensures ReadsUntouched(s, Close(s))
  {
  }

  lemma WriteLeavesReads(s: Stream, data: string, output: Output)
    requires ReadBounded(s) && StreamModel.Idle(s)
    ensures ReadsUntouched(s, WriteBytes(s, data, output).0)
  {
    CloseLeavesReads(s);
    var s1 := JustWrite(s, data).0;
    CloseLeavesReads(HandleWrite(s1, output).0);
  }

  lemma BodyAwaited(c: Conn, fill: Fill, data: string, input: Input, output: Output)
    requires var (r, ret) := ParseRequest(c.request, data); ret == 0 && 0 < ContentLength(r) <= MAX_BODY
    ensures var r := ParseRequest(c.request, data).0;
      OnHeaders(c, fill, data, input, output).0.stream ==
      ReadBytes(Encourage(c.stream, r, output), fill, ContentLength(r), Some(ON_BODY), input).0
  {
  }

  /**
   The connection accepts a Content-Length up to 102400, but a body longer than 101376 bytes
   can never be delivered: the request is left pending, and no run of the stream serves it.
   */
  lemma LongBodiesNeverArrive(c: Conn, fill: Fill, data: string, input: Input, output: Output, ops: seq<Op>)
    requires ReadBounded(c.stream) && !c.stream.closed && StreamModel.Idle(c.stream)
    requires var (r, ret) := ParseRequest(c.request, data);
      ret == 0 && DEFAULT_SIZE - READ_CHUNK < ContentLength(r) <= MAX_BODY
    requires Runnable(OnHeaders(c, fill, data, input, output).0.stream, fill, ops)
    ensures var s := OnHeaders(c, fill, data, input, output).0.stream;
      Run(s, fill, ops).log.consumed == c.stream.log.consumed
  {
    var r := ParseRequest(c.request, data).0;
    var s := Encourage(c.stream, r, output);
    WriteLeavesReads(c.stream, CONTINUE, output);
    BodyAwaited(c, fill, data, input, output);
    OversizedRead(s, fill, ContentLength(r), input, ops);
  }

  lemma OversizedRead(s: Stream, fill: Fill, n: int, input: Input, ops: seq<Op>)
    requires ReadBounded(s) && StreamModel.Idle(s) && Readable(s.readBuf) < n && DEFAULT_SIZE - READ_CHUNK < n
    requires Runnable(ReadBytes(s, fill, n, Some(ON_BODY), input).0, fill, ops)
    ensures Run(ReadBytes(s, fill, n, Some(ON_BODY), input).0, fill, ops).log.consumed == s.log.consumed
  {
    OversizedReadStarves(s, fill, n, Some(ON_BODY), input);
    OversizedReadNeverCompletes(Step(s, fill, OpReadBytes(n, Some(ON_BODY), input)), fill, ops);
  }
}
