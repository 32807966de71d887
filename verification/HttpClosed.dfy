/**
 What onHeaders does to a stream that has closed, or that its own 100-continue answer closes: it
 asks for the body all the same. When that leaves the stream in bad order, over one call and over
 a whole connection.
 */
module HttpClosed {
  import opened Common
  import opened LoopModel
  import opened Buffers
  import opened StreamModel
  import opened StreamProofs
  import opened StreamCloses
  import opened StreamClosed
  import opened HttpParse
  import opened HttpModel
  import opened HttpProofs
  import opened HttpLifecycle

  // --------------------------------------------------------- when the 100-continue closes

  /** No room for the answer, or a socket that breaks under it. */
  predicate ContinueCloses(s: Stream, output: Output) {
    Room(s.writeBuf) < |CONTINUE| || BreaksWithin(Readable(s.writeBuf) + |CONTINUE|, output)
  }

  /** An open stream under the 100-continue answer. */
  lemma ContinueDoes(s: Stream, output: Output)
    requires Sound(s) && StreamModel.Idle(s) && s.writeCb.None? && !s.connecting && !s.closed
    ensures var s1 := WriteBytes(s, CONTINUE, output).0;
      && StreamModel.Idle(s1) && s1.readBuf == s.readBuf
      && (s1.closed <==> ContinueCloses(s, output))
      && s1.posted == s.posted + (if s1.closed then Notice(CloseDone, s.closeCb) else [])
  {
    hide Sound, WritePass;
    assert s.posted + [] == s.posted;
    if |CONTINUE| <= Room(s.writeBuf) { WritePassFailsIff(Appended(s.writeBuf, CONTINUE), output); }
  }

  /** A stream, open or closed, under what onHeaders writes to it. */
  lemma EncourageDoes(s: Stream, r: HttpRequest, output: Output)
    requires Sound(s) && StreamModel.Idle(s) && s.writeCb.None? && !s.connecting
    ensures var s1 := Encourage(s, r, output);
      && Sound(s1) && StreamModel.Idle(s1) && s1.readBuf == s.readBuf
      && (s1.closed <==> s.closed || (Expects(r) && ContinueCloses(s, output)))
      && (s.closed ==> s1 == s)
      && (!s.closed && s1.closed ==> s1.posted == s.posted + Notice(CloseDone, s.closeCb))
  {
    if Expects(r) && !s.closed {
      ContinueIsSound(s, output);
      ContinueDoes(s, output);
    }
  }

  lemma ContinueIsSound(s: Stream, output: Output)
    requires Sound(s) && s.writeCb.None?
    ensures Sound(WriteBytes(s, CONTINUE, output).0)
  {
    hide Sound, WriteBytes;
    assert s.(writeCb := None) == s;
    WriteKeeps(s, None, CONTINUE, output);
  }

  // ------------------------------------------------------------------------ one onHeaders

  /** The head parses and declares a body the connection accepts. */
  predicate BodyAsked(c: Conn, data: string) {
    var (r, ret) := ParseRequest(c.request, data);
    ret == 0 && 0 < ContentLength(r) <= MAX_BODY
  }

  /** The body is asked of a stream that is closed by then. */
  predicate AsksClosed(c: Conn, data: string, output: Output) {
    var r := ParseRequest(c.request, data).0;
    BodyAsked(c, data) && (c.stream.closed || (Expects(r) && ContinueCloses(c.stream, output)))
  }

  /** Whether the close callback will have been posted when the body is asked for. */
  ghost predicate ToldByThen(s: Stream) { if s.closed then CloseTold(s) else s.closeCb.Some? }

  lemma ToldAfter(s: Stream, r: HttpRequest, output: Output)
    requires Sound(s) && StreamModel.Idle(s) && s.writeCb.None? && !s.connecting
    requires Encourage(s, r, output).closed
    ensures CloseTold(Encourage(s, r, output)) <==> ToldByThen(s)
  {
    EncourageDoes(s, r, output);
    var s1 := Encourage(s, r, output);
    if !s.closed {
      forall i | 0 <= i < |s.posted| ensures !s.posted[i].kind.CloseDone? { }
      if s.closeCb.Some? { assert s1.posted[|s.posted|].kind.CloseDone?; }
    }
  }

  lemma ProceedSoundIff(c: Conn, fill: Fill, input: Input, output: Output)
    requires Sound(c.stream) && StreamModel.Idle(c.stream) && c.stream.writeCb.None? && !c.stream.connecting
    requires 0 < ContentLength(c.request) <= MAX_BODY
    ensures var n := ContentLength(c.request);
      Sound(Proceed(c, fill, input, output).0.stream) <==>
        (c.stream.closed || (Expects(c.request) && ContinueCloses(c.stream, output)) ==>
           Answers(c.stream, fill, OpReadBytes(n, Some(ON_BODY), input)) && !ToldByThen(c.stream))
  {
    var n := ContentLength(c.request);
    var s1 := Encourage(c.stream, c.request, output);
    EncourageDoes(c.stream, c.request, output);
    if s1.closed { ToldAfter(c.stream, c.request, output); }
    StepSoundIff(s1, fill, OpReadBytes(n, Some(ON_BODY), input));
  }

  /**
   onHeaders keeps the stream sound unless it asks a closed stream for a body; and then only if
   the body is there and no close callback was ever set.
   */
  lemma OnHeadersSoundIff(c: Conn, fill: Fill, data: string, input: Input, output: Output)
    requires Sound(c.stream) && StreamModel.Idle(c.stream) && c.stream.writeCb.None? && !c.stream.connecting
    ensures var n := ContentLength(ParseRequest(c.request, data).0);
      Sound(OnHeaders(c, fill, data, input, output).0.stream) <==>
        (AsksClosed(c, data, output) ==>
           Answers(c.stream, fill, OpReadBytes(n, Some(ON_BODY), input)) && !ToldByThen(c.stream))
  {
    var parsed := c.(request := ParseRequest(c.request, data).0);
    if BodyAsked(c, data) {
      ProceedSoundIff(parsed, fill, input, output);
    } else if !c.stream.closed {
      CloseKeeps(c.stream);
    }
  }

  // ------------------------------------------------------------------ whole connections

  /** The close callback of startRun is in place until it has been posted. */
  ghost predicate Told(s: Stream) { if s.closed then CloseTold(s) else s.closeCb.Some? }

  lemma CloseTells(s: Stream)
    requires Told(s)
    ensures Told(Close(s))
  {
    if !s.closed {
      var s' := Close(s);
      assert s'.posted[|s'.posted| - 1].kind.CloseDone?;
    }
  }

  lemma ReadTells(s: Stream, fill: Fill, input: Input)
    requires Told(s) && !s.closed
    ensures Told(HandleRead(s, fill, input).0) && !HandleRead(s, fill, input).0.closed
  {
  }

  lemma WriteTells(s: Stream, output: Output)
    requires Told(s) && !s.closed
    ensures Told(HandleWrite(s, output).0) && !HandleWrite(s, output).0.closed
  {
  }

  lemma StartReadTells(s: Stream, fill: Fill, input: Input, failure: int)
    requires Told(s) && !s.closed
    ensures Told(StartRead(s, fill, input, failure).0)
  {
    ReadTells(s, fill, input);
    CloseTells(HandleRead(s, fill, input).0);
  }

  lemma BytesTell(s: Stream, data: string, output: Output)
    requires Told(s)
    ensures Told(JustWrite(s, data).0) && Told(WriteBytes(s, data, output).0)
  {
    CloseTells(s);
    var (s1, ret) := JustWrite(s, data);
    if ret == 0 {
      WriteTells(s1, output);
      CloseTells(HandleWrite(s1, output).0);
    }
  }

  lemma WithTells(s: Stream, data: string, output: Output, cb: Option<Script>)
    requires Told(s)
    ensures Told(WriteBytesWith(s, data, output, cb).0)
  {
    assert Told(s.(writeCb := cb));
    BytesTell(s.(writeCb := cb), data, output);
  }

  lemma FinishEventsTell(s: Stream, events: Mask, output: Output)
    requires Told(s) && !s.closed
    ensures Told(FinishEvents(s, events, output))
  {
    WriteTells(s, output);
    var (s1, failed) := if events.write then HandleWrite(s, output) else (s, false);
    assert Told(s1);
    if failed || events.error { CloseTells(s1); } else { assert Told(Updated(s1, NextState(s1))); }
  }

  lemma EventsTell(s: Stream, fill: Fill, events: Mask, input: Input, output: Output)
    requires Told(s) && !s.connecting
    ensures Told(HandleEvents(s, fill, events, None, input, output))
  {
    if !s.closed {
      ReadTells(s, fill, input);
      var (s1, failed) := if events.read then HandleRead(s, fill, input) else (s, false);
      assert Told(s1);
      if failed { CloseTells(s1); } else { FinishEventsTell(s1, events, output); }
    }
  }

  /** The move that asks a closed stream for a body. */
  ghost predicate AsksInVain(v: Server, m: Move) {
    var h, posted := v.http, v.http.conn.stream.posted;
    && m.LoopRuns? && v.phase == AwaitingHead && h.ran < |posted| && posted[h.ran].kind.ReadDone?
    && AsksClosed(h.conn, posted[h.ran].kind.data, m.output)
  }

  ghost predicate AnyInVain(v: Server, fill: Fill, moves: seq<Move>)
    decreases |moves|
  {
    moves != [] && (AsksInVain(v, moves[0]) || AnyInVain(Advance(v, fill, moves[0]), fill, moves[1..]))
  }

  /** Past its head, closed and in bad order: for good. */
  ghost predicate Stranded(v: Server) {
    v.phase != AwaitingHead && v.http.conn.stream.closed && !Sound(v.http.conn.stream)
  }

  ghost predicate Tended(v: Server) {
    var s := v.http.conn.stream;
    && Orderly(v) && Told(s) && !s.connecting && (s.closed ==> s.writeCb.None?)
    && (Stranded(v) || Sound(s))
  }

  /** Nothing the loop or the handler does changes a closed stream. */
  lemma ClosedStays(h: Http, fill: Fill, a: Action)
    requires h.conn.stream.closed && h.conn.stream.writeCb.None?
    ensures Act(h, fill, a).conn.stream == h.conn.stream
  {
    hide HandlerFinish, ErrorPage;
    match a
    case CallWrite(_) =>
    case CallFinish(reason, date, output) => ClosedFinish(h, reason, date, output);
    case CallError(status, reason, date, output) =>
      ClosedFinish(HandlerWrite(h.(status := status), ErrorPage(status, reason)), reason, date, output);
    case LoopEvents(_, _, _) =>
    case LoopRunsNext =>
  }

  lemma ClosedFinish(h: Http, reason: string, date: string, output: Output)
    requires h.conn.stream.closed && h.conn.stream.writeCb.None?
    ensures HandlerFinish(h, reason, date, output).conn.stream == h.conn.stream
  {
    hide Head;
    assert h.conn.stream.(writeCb := None) == h.conn.stream;
  }

  lemma FinishTells(h: Http, reason: string, date: string, output: Output)
    requires Told(h.conn.stream)
    ensures Told(HandlerFinish(h, reason, date, output).conn.stream)
  {
    var head := Head(h.status, reason, date, |h.buff|);
    var s1 := JustWrite(h.conn.stream, head).0;
    BytesTell(h.conn.stream, head, output);
    WithTells(s1, h.buff, output, Some(ON_WRITE_COMPLETE));
    CloseTells(WriteBytesWith(s1, h.buff, output, Some(ON_WRITE_COMPLETE)).0);
  }

  lemma ActTells(h: Http, fill: Fill, a: Action)
    requires Told(h.conn.stream) && !h.conn.stream.connecting
    ensures Told(Act(h, fill, a).conn.stream)
  {
    match a
    case CallWrite(_) =>
    case CallFinish(reason, date, output) => FinishTells(h, reason, date, output);
    case CallError(status, reason, date, output) =>
      FinishTells(HandlerWrite(h.(status := status), ErrorPage(status, reason)), reason, date, output);
    case LoopEvents(events, input, output) => EventsTell(h.conn.stream, fill, events, input, output);
    case LoopRunsNext => CloseTells(h.conn.stream);
  }

  lemma ActTends(v: Server, fill: Fill, a: Action)
    requires Tended(v) && (v.phase == Dispatched || a.LoopEvents? || a.LoopRunsNext?)
    ensures var v' := v.(http := Act(v.http, fill, a));
      Tended(v') && (Sound(v'.http.conn.stream) <==> Sound(v.http.conn.stream))
  {
    ActAdvances(v, fill, a);
    ActTells(v.http, fill, a);
    if v.http.conn.stream.closed { ClosedStays(v.http, fill, a); } else { ActKeepsPhase(v.http, fill, a); }
  }

  lemma ReadBytesTell(s: Stream, fill: Fill, n: int, input: Input)
    requires Told(s) && StreamModel.Idle(s) && n > 0
    ensures var s' := ReadBytes(s, fill, n, Some(ON_BODY), input).0;
      Told(s') && (s.closed ==> s'.closed && s'.writeCb == s.writeCb)
  {
    if s.closed {
      ClosedReadBytes(s, fill, n, Some(ON_BODY), input);
      var i :| 0 <= i < |s.posted| && s.posted[i].kind.CloseDone?;
      assert ReadBytes(s, fill, n, Some(ON_BODY), input).0.posted[i].kind.CloseDone?;
    } else if Readable(s.readBuf) < n {
      StartReadTells(Requested(s, Count(n), Some(ON_BODY)).(readBytes := n, readCb := Some(ON_BODY)), fill, input, -2);
    }
  }

  lemma CloseSteady(s: Stream)
    ensures Close(s).connecting == s.connecting && (!s.closed ==> Close(s).writeCb.None?)
  {
  }

  lemma HandleReadOpen(s: Stream, fill: Fill, input: Input)
    ensures HandleRead(s, fill, input).0.closed == s.closed && HandleRead(s, fill, input).0.connecting == s.connecting
  {
    HandleReadMoves(s, fill, input);
    HandleReadSteady(s, fill, input);
  }

  lemma ReadBytesSteady(s: Stream, fill: Fill, n: int, input: Input)
    requires n > 0
    ensures var s' := ReadBytes(s, fill, n, Some(ON_BODY), input).0;
      s'.connecting == s.connecting && (!s.closed && s'.closed ==> s'.writeCb.None?)
  {
    var asked := Requested(s, Count(n), Some(ON_BODY)).(readBytes := n, readCb := Some(ON_BODY));
    var (s1, failed) := HandleRead(asked, fill, input);
    HandleReadOpen(asked, fill, input);
    CloseSteady(s1);
    if Readable(s.readBuf) < n {
      assert ReadBytes(s, fill, n, Some(ON_BODY), input).0 == if failed then Close(s1) else AddState(s1, READ);
    }
  }

  lemma OnHeadersTells(c: Conn, fill: Fill, data: string, input: Input, output: Output)
    requires Sound(c.stream) && StreamModel.Idle(c.stream) && c.stream.writeCb.None? && !c.stream.connecting
    requires Told(c.stream)
    ensures var s' := OnHeaders(c, fill, data, input, output).0.stream;
      Told(s') && !s'.connecting && (s'.closed ==> s'.writeCb.None?)
  {
    hide ParseRequest, ReadBytes, Encourage, Sound, Told;
    var r := ParseRequest(c.request, data).0;
    CloseTells(c.stream);
    if BodyAsked(c, data) { BodyAskedTells(c.stream, fill, r, ContentLength(r), input, output); }
  }

  lemma BodyAskedTells(s: Stream, fill: Fill, r: HttpRequest, n: int, input: Input, output: Output)
    requires Sound(s) && StreamModel.Idle(s) && s.writeCb.None? && !s.connecting && Told(s) && n > 0
    ensures var s' := ReadBytes(Encourage(s, r, output), fill, n, Some(ON_BODY), input).0;
      Told(s') && !s'.connecting && (s'.closed ==> s'.writeCb.None?)
  {
    hide ReadBytes, Sound, Told;
    var s1 := Encourage(s, r, output);
    EncourageDoes(s, r, output);
    BytesTell(s, CONTINUE, output);
    EncourageSteady(s, r, output);
    ReadBytesTell(s1, fill, n, input);
    ReadBytesSteady(s1, fill, n, input);
  }

  lemma EncourageSteady(s: Stream, r: HttpRequest, output: Output)
    requires !s.connecting && s.writeCb.None?
    ensures !Encourage(s, r, output).connecting && Encourage(s, r, output).writeCb.None?
  {
  }

  lemma HeadTends(v: Server, fill: Fill, m: Move)
    requires Tended(v) && m.LoopRuns? && v.phase == AwaitingHead && v.http.ran < |v.http.conn.stream.posted|
    requires v.http.conn.stream.posted[v.http.ran].kind.ReadDone?
    ensures var v' := Advance(v, fill, m);
      Tended(v') && (Sound(v'.http.conn.stream) <==> !AsksInVain(v, m))
  {
    var h := v.http;
    var data := h.conn.stream.posted[h.ran].kind.data;
    AdvanceKeeps(v, fill, m);
    OnHeadersSoundIff(h.conn, fill, data, m.input, m.output);
    OnHeadersTells(h.conn, fill, data, m.input, m.output);
    if AsksInVain(v, m) { AskedIsClosed(h.conn, fill, data, m.input, m.output); }
  }

  /** A body asked of a closed stream: the stream is closed after, and nothing is dispatched. */
  lemma AskedIsClosed(c: Conn, fill: Fill, data: string, input: Input, output: Output)
    requires Sound(c.stream) && StreamModel.Idle(c.stream) && c.stream.writeCb.None? && !c.stream.connecting
    requires AsksClosed(c, data, output)
    ensures OnHeaders(c, fill, data, input, output).0.stream.closed && !OnHeaders(c, fill, data, input, output).1
  {
    var r := ParseRequest(c.request, data).0;
    EncourageDoes(c.stream, r, output);
    ReadsStayClosed(Encourage(c.stream, r, output), fill, ContentLength(r), input);
  }

  lemma BodyTends(v: Server, fill: Fill, m: Move)
    requires Tended(v) && m.LoopRuns? && v.phase == AwaitingBody && v.http.ran < |v.http.conn.stream.posted|
    requires v.http.conn.stream.posted[v.http.ran].kind.ReadDone?
    ensures var v' := Advance(v, fill, m);
      Tended(v') && (Sound(v'.http.conn.stream) <==> Sound(v.http.conn.stream))
  {
    hide OnRequestBody, OnHeaders;
    var s := v.http.conn.stream;
    AdvanceKeeps(v, fill, m);
    BodyClosesOrNot(v.http.conn, s.posted[v.http.ran].kind.data);
    CloseTells(s);
    CloseSteady(s);
    if !s.closed { CloseKeeps(s); }
  }

  lemma BodyClosesOrNot(c: Conn, data: string)
    ensures var s' := OnRequestBody(c, data).0.stream; s' == c.stream || s' == Close(c.stream)
    ensures c.stream.closed ==> OnRequestBody(c, data).0.stream == c.stream
  {
  }

  lemma AdvanceTends(v: Server, fill: Fill, m: Move)
    requires Tended(v)
    ensures var v' := Advance(v, fill, m);
      Tended(v') && (Sound(v'.http.conn.stream) <==> Sound(v.http.conn.stream) && !AsksInVain(v, m))
  {
    hide Sound, OnHeaders, OnRequestBody, HandleEvents, HandlerFinish;
    var h, posted := v.http, v.http.conn.stream.posted;
    match m
    case StreamEvents(events, input, output) => ActTends(v, fill, LoopEvents(events, input, output));
    case HandlerCalls(call) => if v.phase == Dispatched { ActTends(v, fill, call); }
    case LoopRuns(_, _) =>
      if h.ran < |posted| && posted[h.ran].kind.ReadDone? && v.phase != Dispatched {
        if v.phase == AwaitingHead { HeadTends(v, fill, m); } else { BodyTends(v, fill, m); }
      } else {
        ActTends(v, fill, LoopRunsNext);
      }
  }

  lemma {:induction false} AllAdvancesTend(v: Server, fill: Fill, moves: seq<Move>)
    requires Tended(v)
    ensures var v' := AdvanceAll(v, fill, moves);
      Tended(v') && (Sound(v'.http.conn.stream) <==> Sound(v.http.conn.stream) && !AnyInVain(v, fill, moves))
    decreases |moves|
  {
    if moves != [] {
      AdvanceTends(v, fill, moves[0]);
      AllAdvancesTend(Advance(v, fill, moves[0]), fill, moves[1..]);
    }
  }

  lemma AcceptedIsTended(s: Stream, fill: Fill, input: Input)
    requires Fresh(s)
    ensures Tended(Accepted(s, fill, input)) && Sound(Accepted(s, fill, input).http.conn.stream)
  {
    AcceptedIsOrderly(s, fill, input);
    var s0 := s.(closeCb := Some(ON_CLOSE));
    ReadsKeep(s0, fill, OpReadUntil("\r\n\r\n", Some(ON_HEADERS), input));
    var asked := Requested(s0, Until("\r\n\r\n"), Some(ON_HEADERS)).(readDelimiter := "\r\n\r\n", readCb := Some(ON_HEADERS));
    StartReadTells(asked, fill, input, -2);
    HandleReadSteady(asked, fill, input);
  }

  /**
   Over every run of a connection, its stream ends in good order (no callback retained once
   closed, the close notice last) if and only if no onHeaders of the run asked a closed stream
   for a body.
   */
  lemma ConnectionIsSoundIff(s: Stream, fill: Fill, input: Input, moves: seq<Move>)
    requires Fresh(s)
    ensures Sound(AdvanceAll(Accepted(s, fill, input), fill, moves).http.conn.stream)
            <==> !AnyInVain(Accepted(s, fill, input), fill, moves)
  {
    AcceptedIsTended(s, fill, input);
    AllAdvancesTend(Accepted(s, fill, input), fill, moves);
  }
}
