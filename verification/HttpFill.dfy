/**
 The fill the code has, at the read end, over a whole connection: as long as every pass reads
 nothing, or one chunk into an empty buffer, the connection does what was meant.
 */
module HttpFill {
  import opened Common
  import opened LoopModel
  import opened Buffers
  import opened StreamModel
  import opened StreamFill
  import opened HttpParse
  import opened HttpRoundTrip
  import opened HttpModel
  import opened HttpLifecycle
  import opened HttpArrival

  predicate GentleMove(v: Server, m: Move) {
    match m
    case StreamEvents(events, input, _) => !events.read || GentlePass(v.http.conn.stream.readBuf, input)
    case LoopRuns(input, _) => GentlePass(v.http.conn.stream.readBuf, input)
    case HandlerCalls(_) => true
  }

  predicate GentleMoves(v: Server, moves: seq<Move>)
    decreases |moves|
  {
    moves == [] || (GentleMove(v, moves[0]) && GentleMoves(Advance(v, AtReadEnd, moves[0]), moves[1..]))
  }

  lemma EventsAgreeToo(s: Stream, events: Mask, input: Input, output: Output)
    requires !events.read || GentlePass(s.readBuf, input)
    ensures OnEvents(s, AtReadEnd, events, input, output) == OnEvents(s, AtWriteEnd, events, input, output)
  {
    hide HandleEvents;
    EventsAgree(s, events, None, input, output);
  }

  /** The 100-continue answer does not fill an empty read buffer. */
  lemma EncourageStaysGentle(s: Stream, r: HttpRequest, output: Output, input: Input)
    requires GentlePass(s.readBuf, input)
    ensures GentlePass(Encourage(s, r, output).readBuf, input)
  {
    hide WritePass, OneChunk;
  }

  lemma HeadersAgree(c: Conn, data: string, input: Input, output: Output)
    requires GentlePass(c.stream.readBuf, input)
    ensures OnHeaders(c, AtReadEnd, data, input, output) == OnHeaders(c, AtWriteEnd, data, input, output)
  {
    hide ParseRequest, ReadBytes, Encourage, GentlePass;
    var r := ParseRequest(c.request, data).0;
    EncourageStaysGentle(c.stream, r, output, input);
    ReadsAgree(Encourage(c.stream, r, output), ContentLength(r), input);
  }

  lemma ReadsAgree(s: Stream, n: int, input: Input)
    requires GentlePass(s.readBuf, input)
    ensures ReadBytes(s, AtReadEnd, n, Some(ON_BODY), input) == ReadBytes(s, AtWriteEnd, n, Some(ON_BODY), input)
  {
    hide HandleRead, GentlePass, Contents;
    if n > 0 {
      HandleReadAgrees(Requested(s, Count(n), Some(ON_BODY)).(readBytes := n, readCb := Some(ON_BODY)), input);
    }
  }

  lemma MoveAgrees(v: Server, m: Move)
    requires GentleMove(v, m)
    ensures Advance(v, AtReadEnd, m) == Advance(v, AtWriteEnd, m)
  {
    hide OnHeaders, OnRequestBody, OnEvents, HandlerFinish, GentlePass;
    var h, posted := v.http, v.http.conn.stream.posted;
    match m
    case StreamEvents(events, input, output) => EventsAgreeToo(h.conn.stream, events, input, output);
    case LoopRuns(input, output) =>
      if h.ran < |posted| && posted[h.ran].kind.ReadDone? { HeadersAgree(h.conn, posted[h.ran].kind.data, input, output); }
    case HandlerCalls(_) =>
  }

  /** A run whose passes are gentle is the same under both fills. */
  lemma {:induction false} CodedConnectionIsMeant(v: Server, moves: seq<Move>)
    requires GentleMoves(v, moves)
    ensures AdvanceAll(v, AtReadEnd, moves) == AdvanceAll(v, AtWriteEnd, moves)
    decreases |moves|
  {
    hide GentleMove, Advance;
    if moves != [] {
      MoveAgrees(v, moves[0]);
      CodedConnectionIsMeant(Advance(v, AtReadEnd, moves[0]), moves[1..]);
    }
  }

  lemma AcceptedAgrees(s: Stream, input: Input)
    requires GentlePass(s.readBuf, input)
    ensures Accepted(s, AtReadEnd, input) == Accepted(s, AtWriteEnd, input)
  {
    hide GentlePass, HandleRead, Find;
    var asked := Requested(s.(closeCb := Some(ON_CLOSE)), Until("\r\n\r\n"), Some(ON_HEADERS))
                 .(readDelimiter := "\r\n\r\n", readCb := Some(ON_HEADERS));
    HandleReadAgrees(asked, input);
  }

  /** From the accept on: all passes of the run are gentle. */
  predicate GentleFromAccept(s: Stream, input: Input, moves: seq<Move>) {
    GentlePass(s.readBuf, input) && GentleMoves(Accepted(s, AtReadEnd, input), moves)
  }

  /** So on such a run of the code a request that is dispatched is the one that was sent. */
  lemma CodedDispatchIsExact(s: Stream, m: Message, body: string, all: string, input: Input, moves: seq<Move>)
    requires Fresh(s) && Declares(m, body) && Print(m) + body <= all && GentleFromAccept(s, input, moves)
    requires AdvanceAll(Accepted(s, AtReadEnd, input), AtReadEnd, moves).http.conn.stream.log.received <= all
    ensures var v := AdvanceAll(Accepted(s, AtReadEnd, input), AtReadEnd, moves);
      && v == AdvanceAll(Accepted(s, AtWriteEnd, input), AtWriteEnd, moves)
      && (v.phase == Dispatched ==> Exact(v.http.conn, m, body))
  {
    AcceptedAgrees(s, input);
    CodedConnectionIsMeant(Accepted(s, AtReadEnd, input), moves);
    DispatchedIsExact(s, m, body, all, input, moves);
  }
}
