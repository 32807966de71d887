/**
 What a client has been sent by the time the server closes: the 100-continue it was due, then the
 head of the answer, then the answer, and nothing else.
 */
module HttpAnswers {
  import opened Common
  import opened LoopModel
  import opened Buffers
  import opened StreamModel
  import opened StreamProofs
  import opened StreamBytes
  import opened Text
  import opened HttpParse
  import opened HttpModel
  import opened HttpProofs
  import opened HttpLifecycle
  import opened HttpClosed
  import opened HttpNotices
  import opened HttpArrival
  import opened HttpEndings
  import opened HttpResponses

  /** What precedes the answer to a request: its 100-continue, if its body is asked for and it expects one. */
  function Prologue(r: HttpRequest): string {
    if 0 < ContentLength(r) <= MAX_BODY && Expects(r) then CONTINUE else ""
  }

  /** Until it is finished, an open connection has accepted the prologue alone. */
  ghost predicate Prefaced(v: Server) {
    !v.http.finished && !v.http.conn.stream.closed ==>
      v.http.conn.stream.log.accepted == if v.phase == AwaitingHead then "" else Prologue(v.http.conn.request)
  }

  lemma ContinueIsAccepted(s: Stream, output: Output)
    requires Sound(s) && WriteFifo(s) && s.writeCb.None? && !WriteBytes(s, CONTINUE, output).0.closed
    ensures WriteBytes(s, CONTINUE, output).0.log.accepted == s.log.accepted + CONTINUE
  {
    hide Sound, Send;
    assert s.(writeCb := None) == s;
    WriteForward(s, CONTINUE, output);
  }

  lemma BodyAskedAccepts(s: Stream, r: HttpRequest, fill: Fill, n: int, input: Input, output: Output)
    requires Sound(s) && WriteFifo(s) && s.writeCb.None? && n > 0 && s.log.accepted == ""
    ensures var s' := ReadBytes(Encourage(s, r, output), fill, n, Some(ON_BODY), input).0;
      !s'.closed ==> s'.log.accepted == if Expects(r) then CONTINUE else ""
  {
    hide Sound, WriteBytes, ReadBytes;
    var s1 := Encourage(s, r, output);
    ReadBytesWrites(s1, fill, n, Some(ON_BODY), input);
    if s1.closed { ReadsStayClosed(s1, fill, n, input); }
    else if Expects(r) { ContinueIsAccepted(s, output); assert "" + CONTINUE == CONTINUE; }
  }

  lemma HeadersPreface(c: Conn, fill: Fill, data: string, input: Input, output: Output)
    requires Sound(c.stream) && WriteFifo(c.stream) && c.stream.writeCb.None?
    requires !c.stream.closed && c.stream.log.accepted == ""
    ensures var (c', go) := OnHeaders(c, fill, data, input, output);
      !c'.stream.closed ==> c'.stream.log.accepted == Prologue(c'.request)
  {
    hide ParseRequest, ReadBytes, Encourage, Sound, WriteFifo;
    var r := ParseRequest(c.request, data).0;
    CloseCloses(c.stream);
    var n := ContentLength(r);
    if 0 < n <= MAX_BODY { BodyAskedAccepts(c.stream, r, fill, n, input, output); }
  }

  lemma NoticePrefaces(v: Server, fill: Fill, input: Input, output: Output)
    requires Orderly(v) && Prefaced(v)
    ensures Prefaced(RunNotice(v, fill, input, output))
  {
    hide OnHeaders, OnRequestBody, Prologue, HeadReady, Sound, WriteFifo;
    var h, posted := v.http, v.http.conn.stream.posted;
    if h.ran < |posted| && posted[h.ran].kind.ReadDone? && v.phase != Dispatched {
      var data := posted[h.ran].kind.data;
      if v.phase == AwaitingHead {
        if h.conn.stream.closed { HeadersStayClosed(h.conn, fill, data, input, output); }
        else { HeadersPreface(h.conn, fill, data, input, output); }
      } else {
        BodyClosesOrNot(h.conn, data);
        BodyKeepsRequest(h.conn, data);
        CloseCloses(h.conn.stream);
      }
    }
  }

  lemma HeadersStayClosed(c: Conn, fill: Fill, data: string, input: Input, output: Output)
    requires c.stream.closed
    ensures OnHeaders(c, fill, data, input, output).0.stream.closed
  {
    hide ParseRequest, Proceed;
    ProceedStaysClosed(c.(request := ParseRequest(c.request, data).0), fill, input, output);
  }

  lemma BodyKeepsRequest(c: Conn, data: string)
    ensures OnRequestBody(c, data).0.request == c.request
  {
    hide Close, ParsePairs;
  }

  lemma EventsPreface(v: Server, fill: Fill, events: Mask, input: Input, output: Output)
    requires Orderly(v) && Prefaced(v)
    ensures Prefaced(Advance(v, fill, StreamEvents(events, input, output)))
  {
    hide HandleEvents, Prologue, Advance, HeadReady, Sound;
    EventsAdvance(v, fill, events, input, output);
    if !v.http.conn.stream.closed { EventsMove(v.http.conn.stream, fill, events, input, output); }
    else { ClosedStreamIdles(v.http.conn.stream, fill, events, input, output); }
  }

  lemma MovePrefaces(v: Server, fill: Fill, m: Move)
    requires Orderly(v) && Prefaced(v)
    ensures Prefaced(Advance(v, fill, m))
  {
    hide RunNotice, HandleEvents, Prologue, Head, ErrorPage, Orderly, JustWrite, StreamModel.WriteBytes;
    match m
    case StreamEvents(events, input, output) => EventsPreface(v, fill, events, input, output);
    case LoopRuns(input, output) => NoticePrefaces(v, fill, input, output);
    case HandlerCalls(_) =>
  }

  lemma {:induction false} AllPrefaced(v: Server, fill: Fill, moves: seq<Move>)
    requires Orderly(v) && Prefaced(v)
    ensures Prefaced(AdvanceAll(v, fill, moves))
    decreases |moves|
  {
    hide Prefaced, Advance, Orderly;
    if moves != [] {
      MovePrefaces(v, fill, moves[0]);
      AdvanceKeeps(v, fill, moves[0]);
      AllPrefaced(Advance(v, fill, moves[0]), fill, moves[1..]);
    }
  }

  lemma AcceptedIsPrefaced(s: Stream, fill: Fill, input: Input)
    requires Fresh(s)
    ensures Prefaced(Accepted(s, fill, input))
  {
    hide ReadUntil;
    ReadUntilWrites(s.(closeCb := Some(ON_CLOSE)), fill, "\r\n\r\n", Some(ON_HEADERS), input);
  }

  // ------------------------------------------------------------------------ the finish

  /** The call that finishes a response. */
  predicate Finishes(v: Server, m: Move) {
    v.phase == Dispatched && !v.http.finished && m.HandlerCalls? && (m.call.CallFinish? || m.call.CallError?)
  }

  /** The bytes of the whole answer: for a plain finish what was written, under the status in force. */
  function AnswerOf(h: Http, call: Action): string
    requires call.CallFinish? || call.CallError?
  {
    match call
    case CallFinish(reason, date, _) => Head(h.status, reason, date, |h.buff|) + h.buff
    case CallError(status, reason, date, _) =>
      var body := h.buff + ErrorPage(status, reason);
      Head(status, reason, date, |body|) + body
  }

  /** The finishing call fixes what will have been accepted. */
  lemma FinishFixesGoal(v: Server, fill: Fill, m: Move)
    requires Finishes(v, m)
    ensures var h' := Advance(v, fill, m).http;
      && h'.finished && h'.goal == v.http.conn.stream.log.accepted + AnswerOf(v.http, m.call)
      && (v.http.conn.stream.closed && !v.http.serverClosed ==> !h'.serverClosed)
  {
    hide Head, ErrorPage, JustWrite, StreamModel.WriteBytes;
    var h := if m.call.CallError?
             then HandlerWrite(v.http.(status := m.call.status), ErrorPage(m.call.status, m.call.reason)) else v.http;
    var head := Head(h.status, m.call.reason, m.call.date, |h.buff|);
    ConcatAssoc(h.conn.stream.log.accepted, head, h.buff);
    if h.conn.stream.closed { FlushStaysClosed(h.conn.stream, head, h.buff, m.call.output); }
  }

  lemma FlushStaysClosed(s: Stream, head: string, body: string, output: Output)
    requires s.closed
    ensures WriteBytesWith(JustWrite(s, head).0, body, output, Some(ON_WRITE_COMPLETE)).0.closed
  {
  }

  /** And nothing after it changes that, or closes for the server what had closed already. */
  lemma GoalStays(v: Server, fill: Fill, m: Move)
    requires v.http.finished && v.phase == Dispatched
    ensures var h' := Advance(v, fill, m).http;
      && h'.finished && h'.goal == v.http.goal
      && (v.http.conn.stream.closed && !v.http.serverClosed ==> h'.conn.stream.closed && !h'.serverClosed)
  {
    hide HandleEvents, ErrorPage;
    if m.StreamEvents? && v.http.conn.stream.closed {
      ClosedStreamIdles(v.http.conn.stream, fill, m.events, m.input, m.output);
    }
  }

  lemma {:induction false} GoalStaysForGood(v: Server, fill: Fill, moves: seq<Move>)
    requires v.http.finished && v.phase == Dispatched
    ensures var h' := AdvanceAll(v, fill, moves).http;
      && h'.finished && h'.goal == v.http.goal && (v.http.conn.stream.closed && !v.http.serverClosed ==> !h'.serverClosed)
    decreases |moves|
  {
    hide Advance;
    if moves != [] {
      var v1 := Advance(v, fill, moves[0]);
      GoalStays(v, fill, moves[0]);
      StaysDispatched(v, fill, moves[0]);
      GoalStaysForGood(v1, fill, moves[1..]);
    }
  }

  lemma StaysDispatched(v: Server, fill: Fill, m: Move)
    requires v.phase == Dispatched
    ensures Advance(v, fill, m).phase == Dispatched
  {
  }

  lemma OnlyFinishFinishes(v: Server, fill: Fill, m: Move)
    requires !v.http.finished && Advance(v, fill, m).http.finished
    ensures Finishes(v, m)
  {
    hide OnHeaders, OnRequestBody, HandleEvents, Close;
  }

  /** A run that has finished its response did so at one of its moves. */
  lemma {:induction false} FinishPoint(v: Server, fill: Fill, moves: seq<Move>) returns (k: nat)
    requires !v.http.finished && AdvanceAll(v, fill, moves).http.finished
    ensures k < |moves| && Finishes(AdvanceAll(v, fill, moves[..k]), moves[k])
    decreases |moves|
  {
    hide Advance, Finishes;
    var v1 := Advance(v, fill, moves[0]);
    if v1.http.finished {
      k := 0;
      OnlyFinishFinishes(v, fill, moves[0]);
      assert moves[..0] == [];
    } else {
      var j := FinishPoint(v1, fill, moves[1..]);
      k := j + 1;
      assert moves[..k][0] == moves[0] && moves[..k][1..] == moves[1..][..j];
    }
  }

  /**
   What is sent, from accept to close, over every run that the server closes: one move of the run
   finished the response, and all the bytes sent are the 100-continue the request was due, if any,
   then the head for the status then in force and the body then gathered, then that body.
   */
  lemma SentIsTheAnswer(s: Stream, fill: Fill, input: Input, moves: seq<Move>) returns (k: nat)
    requires Fresh(s) && AdvanceAll(Accepted(s, fill, input), fill, moves).http.serverClosed
    ensures k < |moves|
    ensures var v := AdvanceAll(Accepted(s, fill, input), fill, moves[..k]);
      && Finishes(v, moves[k])
      && AdvanceAll(Accepted(s, fill, input), fill, moves).http.conn.stream.log.sent
         == Prologue(v.http.conn.request) + AnswerOf(v.http, moves[k].call)
  {
    hide Accepted, Advance, Prefaced, Prologue, AnswerOf, Orderly;
    var v0 := Accepted(s, fill, input);
    AcceptedIsOrderly(s, fill, input);
    AcceptedIsPrefaced(s, fill, input);
    AllAdvancesKeep(v0, fill, moves);
    ConnectionsNeverStick(s, fill, input, moves);
    NotFinishedAtFirst(s, fill, input);
    ClosedHadFinished(AdvanceAll(v0, fill, moves));
    k := FinishPoint(v0, fill, moves);
    var before, after := moves[..k], moves[k + 1..];
    var v := AdvanceAll(v0, fill, before);
    var v1 := Advance(v, fill, moves[k]);
    assert moves == before + ([moves[k]] + after);
    AllAdvancesSplit(v0, fill, before, [moves[k]] + after);
    assert ([moves[k]] + after)[1..] == after;
    AllPrefaced(v0, fill, before);
    AllAdvancesKeep(v0, fill, before);
    FinishFixesGoal(v, fill, moves[k]);
    StaysDispatched(v, fill, moves[k]);
    GoalStaysForGood(v1, fill, after);
    AllAdvancesGrow(v1, fill, after);
    AdvanceReceives(v, fill, moves[k]);
    OpenAtFinish(v);
  }

  lemma NotFinishedAtFirst(s: Stream, fill: Fill, input: Input)
    ensures !Accepted(s, fill, input).http.finished && !Accepted(s, fill, input).http.serverClosed
  {
  }

  lemma ClosedHadFinished(v: Server)
    requires Orderly(v) && v.http.serverClosed
    ensures v.http.finished
  {
  }

  lemma OpenAtFinish(v: Server)
    requires Orderly(v) && Prefaced(v) && !v.http.finished && v.phase == Dispatched
    ensures !v.http.serverClosed
    ensures !v.http.conn.stream.closed ==> v.http.conn.stream.log.accepted == Prologue(v.http.conn.request)
  {
  }

  /** The status a finishing call answers with, and the body. */
  function StatusOf(h: Http, call: Action): int { if call.CallError? then call.status else h.status }

  function BodyOf(h: Http, call: Action): string {
    if call.CallError? then h.buff + ErrorPage(call.status, call.reason) else h.buff
  }

  /** A reason and a date without returns, as the table of the library and its clock give them. */
  predicate PlainCall(call: Action) {
    call.CallFinish? || call.CallError? ==> '\r' !in call.reason && '\r' !in call.date && Trimmed(call.date)
  }

  /** The response its client is to read. */
  function Intended(h: Http, call: Action): Response
    requires call.CallFinish? || call.CallError?
  {
    var body := BodyOf(h, call);
    Response(Status("HTTP/1.1", StatusOf(h, call), call.reason), Fields(call.date, |body|), body)
  }

  lemma AnswerReads(h: Http, call: Action)
    requires (call.CallFinish? || call.CallError?) && PlainCall(call)
    ensures ReadResponse(AnswerOf(h, call)) == Some(Intended(h, call))
  {
    hide Head, ErrorPage, ReadResponse;
    ResponseReads(StatusOf(h, call), call.reason, call.date, BodyOf(h, call));
  }

  /**
   What the client reads of it: after the 100-continue it was due, if any, a response with the status in
   force, its reason, the four fields with the length of the body, and exactly the body.
   */
  lemma SentReadsBack(s: Stream, fill: Fill, input: Input, moves: seq<Move>) returns (k: nat)
    requires Fresh(s) && AdvanceAll(Accepted(s, fill, input), fill, moves).http.serverClosed
    requires forall m <- moves :: m.HandlerCalls? ==> PlainCall(m.call)
    ensures k < |moves|
    ensures var v := AdvanceAll(Accepted(s, fill, input), fill, moves[..k]);
      var sent, h := AdvanceAll(Accepted(s, fill, input), fill, moves).http.conn.stream.log.sent, v.http;
      && Finishes(v, moves[k]) && Prologue(h.conn.request) <= sent
      && ReadResponse(sent[|Prologue(h.conn.request)|..]) == Some(Intended(h, moves[k].call))
  {
    hide Accepted, Advance, Prologue, AnswerOf, ReadResponse, Intended;
    k := SentIsTheAnswer(s, fill, input, moves);
    assert moves[k] in moves;
    AnswerReads(AdvanceAll(Accepted(s, fill, input), fill, moves[..k]).http, moves[k].call);
  }
}
