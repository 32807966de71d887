/** One connection from its first read to its close: the request, its dispatch, the answer. */
module HttpLifecycle {
  import opened Common
  import opened LoopModel
  import opened Buffers
  import opened StreamModel
  import opened StreamProofs
  import opened StreamBytes
  import opened HttpParse
  import opened HttpModel
  import opened HttpProofs

  datatype Phase = AwaitingHead | AwaitingBody | Dispatched

  datatype Server = Server(http: Http, phase: Phase)

  /** What can happen next: the stream gets events, the loop runs a notice, the handler calls in. */
  datatype Move =
    | StreamEvents(events: Mask, input: Input, output: Output)
    | LoopRuns(input: Input, output: Output)
    | HandlerCalls(call: Action)

  /** A connection just accepted, after startRun. */
  function Accepted(s: Stream, fill: Fill, input: Input): Server {
    var c := StartRun(Conn(s, NO_REQUEST, map[], "", false), fill, input);
    Server(Http(c, false, 200, "", "", "", 0, false), AwaitingHead)
  }

  /** The loop runs the oldest notice of the stream: onHeaders, onRequestBody or onWriteComplete. */
  function RunNotice(v: Server, fill: Fill, input: Input, output: Output): Server {
    var h, posted := v.http, v.http.conn.stream.posted;
    if h.ran < |posted| && posted[h.ran].kind.ReadDone? && v.phase != Dispatched then
      var data := posted[h.ran].kind.data;
      var (c, go) := if v.phase == AwaitingHead then OnHeaders(h.conn, fill, data, input, output)
                     else OnRequestBody(h.conn, data);
      Server(h.(conn := c, ran := h.ran + 1), if go then Dispatched else AwaitingBody)
    else v.(http := RunNext(h))
  }

  function Advance(v: Server, fill: Fill, m: Move): Server {
    match m
    case StreamEvents(events, input, output) => v.(http := Act(v.http, fill, LoopEvents(events, input, output)))
    case LoopRuns(input, output) => RunNotice(v, fill, input, output)
    case HandlerCalls(call) =>
      if v.phase == Dispatched && OfHandler(call) then v.(http := Act(v.http, fill, call)) else v
  }

  function AdvanceAll(v: Server, fill: Fill, moves: seq<Move>): Server
    decreases |moves|
  {
    if moves == [] then v else AdvanceAll(Advance(v, fill, moves[0]), fill, moves[1..])
  }

  // --------------------------------------------------------------------- invariants

  ghost predicate ReadQueued(posted: seq<Task>, from: nat) {
    exists i :: from <= i < |posted| && posted[i].kind.ReadDone?
  }

  /** While the head is awaited: a read notice is queued only once its read is over. */
  ghost predicate HeadReady(s: Stream, ran: nat) {
    !s.readUntilClose && (StreamModel.Idle(s) || !ReadQueued(s.posted, ran))
  }

  /** A closed connection: what the server closed had been sent in full. */
  ghost predicate Gone(h: Http) {
    h.conn.stream.closed && (h.serverClosed ==> h.finished && h.conn.stream.log.sent == h.goal)
  }

  ghost predicate Orderly(v: Server) {
    var h, s := v.http, v.http.conn.stream;
    && (v.phase == AwaitingHead ==> HeadReady(s, h.ran))
    && if s.closed then Gone(h) && (v.phase != Dispatched ==> !h.finished && !h.serverClosed)
       else Sane(h) && (Answering(h) || (v.phase == Dispatched && Answered(h)))
  }

  lemma OrderlyWhenPhased(v: Server)
    requires Sane(v.http) && (Answering(v.http) || (v.phase == Dispatched && Answered(v.http)))
    requires v.phase == AwaitingHead ==> HeadReady(v.http.conn.stream, v.http.ran)
    ensures Orderly(v)
  {
  }

  // -------------------------------------------------------------------- the read side

  lemma ExtractReads(s: Stream)
    requires Disciplined(s) && !s.closed && !s.readUntilClose
    ensures var s' := Extract(s);
      && !s'.readUntilClose && (StreamModel.Idle(s) ==> s' == s)
      && (s' == s || (StreamModel.Idle(s') && s.posted <= s'.posted))
  {
  }

  /** What a step does to a read: it leaves it alone, or serves it. */
  ghost predicate ReadMoves(s: Stream, s': Stream) {
    && !s'.readUntilClose
    && (StreamModel.Idle(s') || (!StreamModel.Idle(s) && !ReadQueued(s'.posted, |s.posted|)))
  }

  lemma HandleWriteRead(s: Stream, output: Output)
    ensures var s' := HandleWrite(s, output).0;
      && s.posted <= s'.posted && !ReadQueued(s'.posted, |s.posted|)
      && s'.readUntilClose == s.readUntilClose && StreamModel.Idle(s') == StreamModel.Idle(s)
  {
  }

  lemma CloseRead(s: Stream)
    requires !s.readUntilClose
    ensures var s' := Close(s);
      && s.posted <= s'.posted && !ReadQueued(s'.posted, |s.posted|)
      && !s'.readUntilClose && (StreamModel.Idle(s) ==> StreamModel.Idle(s'))
  {
  }

  lemma FinishEventsRead(s: Stream, events: Mask, output: Output)
    requires !s.readUntilClose
    ensures var s' := FinishEvents(s, events, output);
      && s.posted <= s'.posted && !ReadQueued(s'.posted, |s.posted|)
      && !s'.readUntilClose && (StreamModel.Idle(s) ==> StreamModel.Idle(s'))
  {
    HandleWriteRead(s, output);
    var (s1, failed) := if events.write then HandleWrite(s, output) else (s, false);
    var s' := FinishEvents(s, events, output);
    if failed || events.error {
      CloseRead(s1);
      forall i | |s.posted| <= i < |s'.posted| ensures !s'.posted[i].kind.ReadDone? {
        if i < |s1.posted| { assert s'.posted[i] == s1.posted[i]; }
      }
    } else {
      assert s' == s1 || s' == Updated(s1, NextState(s1));
    }
  }

  lemma ServeEventsRead(s: Stream, fill: Fill, events: Mask, input: Input, output: Output)
    requires Disciplined(s) && !s.closed && !s.readUntilClose
    ensures ReadMoves(s, ServeEvents(s, fill, events, input, output))
  {
    var s0 := Receive(s, ReadPass(fill, s.readBuf, input));
    ExtractReads(s0);
    var (s1, failed) := if events.read then HandleRead(s, fill, input) else (s, false);
    var s' := ServeEvents(s, fill, events, input, output);
    if failed {
      CloseRead(s1);
    } else {
      FinishEventsRead(s1, events, output);
      if !StreamModel.Idle(s') { assert s1.posted == s.posted; }
    }
  }

  lemma EventsRead(s: Stream, fill: Fill, events: Mask, input: Input, output: Output)
    requires Disciplined(s) && !s.closed && !s.connecting && !s.readUntilClose
    ensures ReadMoves(s, HandleEvents(s, fill, events, None, input, output))
  {
    ServeEventsRead(s, fill, events, input, output);
  }

  lemma EventsKeepHead(s: Stream, ran: nat, fill: Fill, events: Mask, input: Input, output: Output)
    requires Disciplined(s) && !s.closed && !s.connecting && HeadReady(s, ran)
    ensures HeadReady(HandleEvents(s, fill, events, None, input, output), ran)
  {
    EventsRead(s, fill, events, input, output);
    EventsMove(s, fill, events, input, output);
    var s' := HandleEvents(s, fill, events, None, input, output);
    if !StreamModel.Idle(s') {
      forall i | ran <= i < |s'.posted| ensures !s'.posted[i].kind.ReadDone? {
        if i < |s.posted| { assert s'.posted[i] == s.posted[i]; }
      }
    }
  }

  lemma SendQuiet(s: Stream, output: Output)
    requires s.writeCb.None?
    ensures var s' := Send(s, output).0;
      && s.posted <= s'.posted && !WriteDoneFrom(s'.posted, |s.posted|)
      && s'.connecting == s.connecting && s'.writeCb.None? && (s.state != NONE && !s'.closed ==> s'.state != NONE)
  {
    HandleWriteMoves(s, output);
    var s1 := HandleWrite(s, output).0;
    CloseMoves(s1);
    MovesCompose(s, s1, Close(s1));
  }

  /** Writing without a callback, as for 100-continue, posts no completion. */
  lemma QuietWrite(s: Stream, data: string, output: Output)
    requires Sound(s) && WriteFifo(s) && !s.closed && !s.connecting && s.writeCb.None? && s.state != NONE
    ensures var s' := WriteBytes(s, data, output).0;
      && Sound(s') && WriteFifo(s') && s.posted <= s'.posted && !WriteDoneFrom(s'.posted, |s.posted|)
      && !s'.connecting && s'.writeCb.None? && (!s'.closed ==> s'.state != NONE)
  {
    assert s.(writeCb := None) == s;
    WriteKeeps(s, None, data, output);
    WriteForward(s, data, output);
    CloseMoves(s);
    SendQuiet(JustWrite(s, data).0, output);
  }

  /** A read call leaves the write side, and its callback, alone. */
  lemma QuietRead(s: Stream, fill: Fill, n: int, input: Input)
    requires Sound(s) && WriteFifo(s) && !s.closed && !s.connecting && s.writeCb.None? && s.state != NONE
    requires StreamModel.Idle(s) && n > 0
    ensures var s' := ReadBytes(s, fill, n, Some(ON_BODY), input).0;
      && Sound(s') && WriteFifo(s') && s.posted <= s'.posted && !WriteDoneFrom(s'.posted, |s.posted|)
      && !s'.connecting && s'.writeCb.None? && (!s'.closed ==> s'.state != NONE)
  {
    ReadsKeep(s, fill, OpReadBytes(n, Some(ON_BODY), input));
    ReadsLeaveWrites(s, fill, OpReadBytes(n, Some(ON_BODY), input));
    var asked := Requested(s, Count(n), Some(ON_BODY)).(readBytes := n, readCb := Some(ON_BODY));
    HandleReadMoves(asked, fill, input);
    var s1 := HandleRead(asked, fill, input).0;
    CloseMoves(s1);
    MovesCompose(asked, s1, Close(s1));
    HandleReadSteady(asked, fill, input);
  }

  lemma HandleReadSteady(s: Stream, fill: Fill, input: Input)
    ensures var s' := HandleRead(s, fill, input).0; s'.connecting == s.connecting && s'.state == s.state
  {
    hide ReadPass, Find;
  }

  /** A read call on a closed stream does not reopen it. */
  lemma ReadsStayClosed(s: Stream, fill: Fill, n: int, input: Input)
    requires s.closed
    ensures ReadBytes(s, fill, n, Some(ON_BODY), input).0.closed
  {
    if n > 0 { HandleReadMoves(Requested(s, Count(n), Some(ON_BODY)).(readBytes := n, readCb := Some(ON_BODY)), fill, input); }
  }

  // ---------------------------------------------------------------------- each move

  lemma NoneQueuedMoves(s: Stream, s': Stream, ran: nat, ran': nat)
    requires s.posted <= s'.posted && ran <= ran' <= |s.posted|
    requires !WriteDoneFrom(s.posted, ran) && !WriteDoneFrom(s'.posted, |s.posted|)
    ensures !WriteDoneFrom(s'.posted, ran')
  {
    QueuedMoves(s, s', ran);
  }

  /** The stream of a connection not yet answered: nothing of the response is under way. */
  ghost predicate Quiet(s: Stream, ran: nat) {
    && Sound(s) && WriteFifo(s) && !s.connecting && s.writeCb.None?
    && ran <= |s.posted| && !WriteDoneFrom(s.posted, ran)
    && (!s.closed ==> s.state != NONE)
  }

  /** The 100-continue answer, if any, and the request for the body. */
  lemma BodyRequestKeeps(s: Stream, r: HttpRequest, ran: nat, fill: Fill, n: int, input: Input, output: Output)
    requires Quiet(s, ran) && !s.closed && StreamModel.Idle(s) && n > 0
    ensures var s' := ReadBytes(Encourage(s, r, output), fill, n, Some(ON_BODY), input).0;
      s'.closed || Quiet(s', ran)
  {
    var s1 := Encourage(s, r, output);
    QuietWrite(s, CONTINUE, output);
    WriteLeavesReads(s, CONTINUE, output);
    if s1.closed {
      ReadsStayClosed(s1, fill, n, input);
    } else {
      if s1 != s { NoneQueuedMoves(s, s1, ran, ran); }
      QuietRead(s1, fill, n, input);
      NoneQueuedMoves(s1, ReadBytes(s1, fill, n, Some(ON_BODY), input).0, ran, ran);
    }
  }

  lemma ProceedKeeps(c: Conn, ran: nat, fill: Fill, input: Input, output: Output)
    requires Quiet(c.stream, ran) && !c.stream.closed && StreamModel.Idle(c.stream)
    ensures var (c', go) := Proceed(c, fill, input, output);
      && (c'.stream.closed || Quiet(c'.stream, ran))
      && c'.requestFinished == c.requestFinished && (go ==> c' == c)
  {
    var n := ContentLength(c.request);
    if 0 < n <= MAX_BODY { BodyRequestKeeps(c.stream, c.request, ran, fill, n, input, output); }
  }

  lemma ProceedStaysClosed(c: Conn, fill: Fill, input: Input, output: Output)
    requires c.stream.closed
    ensures Proceed(c, fill, input, output).0.stream.closed
  {
    var n := ContentLength(c.request);
    if n > 0 { ReadsStayClosed(Encourage(c.stream, c.request, output), fill, n, input); }
  }

  lemma HeadersKeep(v: Server, fill: Fill, data: string, input: Input, output: Output)
    requires Orderly(v) && v.phase == AwaitingHead && v.http.ran < |v.http.conn.stream.posted|
    requires StreamModel.Idle(v.http.conn.stream)
    ensures var (c, go) := OnHeaders(v.http.conn, fill, data, input, output);
      Orderly(Server(v.http.(conn := c, ran := v.http.ran + 1), if go then Dispatched else AwaitingBody))
  {
    var h, s := v.http, v.http.conn.stream;
    var parsed := h.conn.(request := ParseRequest(h.conn.request, data).0);
    if s.closed {
      ProceedStaysClosed(parsed, fill, input, output);
    } else {
      NoneQueuedMoves(s, s, h.ran, h.ran + 1);
      ProceedKeeps(parsed, h.ran + 1, fill, input, output);
    }
  }

  lemma BodyKeeps(v: Server, data: string)
    requires Orderly(v) && v.phase == AwaitingBody && v.http.ran < |v.http.conn.stream.posted|
    ensures var (c, go) := OnRequestBody(v.http.conn, data);
      Orderly(Server(v.http.(conn := c, ran := v.http.ran + 1), if go then Dispatched else AwaitingBody))
  {
    var h, s := v.http, v.http.conn.stream;
    if !s.closed {
      CloseConn(s);
      NoneQueuedMoves(s, s, h.ran, h.ran + 1);
      NoneQueuedMoves(s, Close(s), h.ran, h.ran + 1);
    }
  }

  lemma GoneStays(h: Http, fill: Fill, a: Action)
    requires Gone(h)
    ensures Gone(Act(h, fill, a))
    ensures a.LoopEvents? || a.LoopRunsNext? ==>
      Act(h, fill, a).finished == h.finished && Act(h, fill, a).serverClosed == h.serverClosed
  {
  }

  lemma ActAdvances(v: Server, fill: Fill, a: Action)
    requires Orderly(v) && (v.phase == Dispatched || a.LoopEvents? || a.LoopRunsNext?)
    ensures Orderly(v.(http := Act(v.http, fill, a)))
  {
    var h, h' := v.http, Act(v.http, fill, a);
    if h.conn.stream.closed {
      GoneStays(h, fill, a);
    } else {
      ActKeepsPhase(h, fill, a);
      match a
      case LoopEvents(events, input, output) =>
        EventsKeepPhase(h, fill, events, input, output);
        if v.phase == AwaitingHead { EventsKeepHead(h.conn.stream, h.ran, fill, events, input, output); }
      case LoopRunsNext => RunNextKeepsPhase(h);
      case _ =>
      OrderlyWhenPhased(v.(http := h'));
    }
  }

  lemma NoticeKeeps(v: Server, fill: Fill, input: Input, output: Output)
    requires Orderly(v)
    ensures Orderly(RunNotice(v, fill, input, output))
  {
    var h, posted := v.http, v.http.conn.stream.posted;
    if h.ran < |posted| && posted[h.ran].kind.ReadDone? && v.phase != Dispatched {
      if v.phase == AwaitingHead { HeadersKeep(v, fill, posted[h.ran].kind.data, input, output); }
      else { BodyKeeps(v, posted[h.ran].kind.data); }
    } else {
      ActAdvances(v, fill, LoopRunsNext);
    }
  }

  lemma AdvanceKeeps(v: Server, fill: Fill, m: Move)
    requires Orderly(v)
    ensures Orderly(Advance(v, fill, m))
  {
    match m
    case StreamEvents(events, input, output) => ActAdvances(v, fill, LoopEvents(events, input, output));
    case LoopRuns(input, output) => NoticeKeeps(v, fill, input, output);
    case HandlerCalls(call) => if v.phase == Dispatched { ActAdvances(v, fill, call); }
  }

  lemma AcceptedIsOrderly(s: Stream, fill: Fill, input: Input)
    requires Fresh(s)
    ensures Orderly(Accepted(s, fill, input))
  {
    hide Sound, ReadPass, Find;
    var s0 := s.(closeCb := Some(ON_CLOSE));
    var op := OpReadUntil("\r\n\r\n", Some(ON_HEADERS), input);
    ReadsKeep(s0, fill, op);
    ReadsLeaveWrites(s0, fill, op);
    var asked := Requested(s0, Until("\r\n\r\n"), Some(ON_HEADERS)).(readDelimiter := "\r\n\r\n", readCb := Some(ON_HEADERS));
    ExtractReads(Receive(asked, ReadPass(fill, asked.readBuf, input)));
    HandleReadSteady(asked, fill, input);
  }

  lemma {:induction false} AllAdvancesKeep(v: Server, fill: Fill, moves: seq<Move>)
    requires Orderly(v)
    ensures Orderly(AdvanceAll(v, fill, moves))
    decreases |moves|
  {
    if moves != [] {
      AdvanceKeeps(v, fill, moves[0]);
      AllAdvancesKeep(Advance(v, fill, moves[0]), fill, moves[1..]);
    }
  }

  /**
   From accept to close, whatever the client sends, however the socket and the loop interleave
   and whatever the handler calls: once the handler has finished with a non-empty body the
   response cannot stick, and what the server closed had been sent in full.
   */
  lemma ConnectionsNeverStick(s: Stream, fill: Fill, input: Input, moves: seq<Move>)
    requires Fresh(s)
    ensures var h := AdvanceAll(Accepted(s, fill, input), fill, moves).http;
      && (h.finished && h.answer != "" ==> Live(h))
      && (h.serverClosed ==> h.conn.stream.closed && h.conn.stream.log.sent == h.goal)
  {
    AcceptedIsOrderly(s, fill, input);
    AllAdvancesKeep(Accepted(s, fill, input), fill, moves);
  }
}
