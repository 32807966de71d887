/** Which request heads a connection refuses, and that a refused request goes nowhere. */
module HttpRefusals {
  import opened Common
  import opened LoopModel
  import opened Buffers
  import opened StreamModel
  import opened StreamGrows
  import opened HttpParse
  import opened HttpModel
  import opened HttpLifecycle
  import opened HttpClosed
  import opened HttpNotices
  import opened HttpArrival
  import opened HttpPieces

  /** The length the Content-Length field of a head declares, read as atoi reads it. */
  function Declared(r: HttpRequest, data: string): int {
    Atoi(Lookup(ParseRequest(r, data).0.headers.fields, "Content-Length"))
  }

  /** A head that is malformed, or declares a body of more than 102400 bytes. */
  ghost predicate Refused(r: HttpRequest, data: string) {
    !Acceptable(r, data) || Declared(r, data) > 102400
  }

  lemma AskingLogs(s: Stream, r: HttpRequest, fill: Fill, n: int, input: Input, output: Output)
    requires n > 0
    ensures var s' := ReadBytes(Encourage(s, r, output), fill, n, Some(ON_BODY), input).0;
      && s'.log.requests == s.log.requests + [Count(n)] && s'.log.callers == s.log.callers + [Some(ON_BODY)]
  {
    hide ReadBytes, WriteBytes;
    var s1 := Encourage(s, r, output);
    if Expects(r) { StepGrows(s, fill, OpWrite(CONTINUE, output)); }
    StepGrows(s1, fill, OpReadBytes(n, Some(ON_BODY), input));
    assert s.log.requests + [] == s.log.requests && s.log.callers + [] == s.log.callers;
  }

  /**
   What a head leads to, whatever it is: refused, the stream is closed and nothing dispatched; without
   a body it is dispatched at once; otherwise it is not, and exactly the declared length is asked for.
   */
  lemma HeadsLeadTo(c: Conn, fill: Fill, data: string, input: Input, output: Output)
    ensures var (c', go) := OnHeaders(c, fill, data, input, output);
      var n, s, s' := Declared(c.request, data), c.stream, c'.stream;
      && c'.request == ParseRequest(c.request, data).0 && c'.requestFinished == c.requestFinished
      && (go <==> !Refused(c.request, data) && n <= 0)
      && if Refused(c.request, data) then s'.closed && s' == Close(s)
         else if n <= 0 then s' == s
         else s'.log.requests == s.log.requests + [Count(n)] && s'.log.callers == s.log.callers + [Some(ON_BODY)]
  {
    RequestParsesIff(c.request, data);
    hide ParseRequest, Encourage, ReadBytes, Close, Acceptable;
    CloseCloses(c.stream);
    var n := Declared(c.request, data);
    if !Refused(c.request, data) && n > 0 {
      AskingLogs(c.stream, ParseRequest(c.request, data).0, fill, n, input, output);
    }
  }

  // ------------------------------------------------------------------------ over a run

  ghost predicate Kept(v: Server) { Tended(v) && Addressed(v) && Early(v) }

  lemma {:induction false} AllKept(v: Server, fill: Fill, moves: seq<Move>)
    requires Kept(v)
    ensures Kept(AdvanceAll(v, fill, moves))
    decreases |moves|
  {
    hide Addressed, Early, Tended, Advance;
    if moves != [] {
      AdvanceTends(v, fill, moves[0]);
      AdvanceAddresses(v, fill, moves[0]);
      AllKept(Advance(v, fill, moves[0]), fill, moves[1..]);
    }
  }

  lemma {:induction false} NoDataCarried(posted: seq<Task>, from: nat)
    requires from <= |posted| && !ReadQueued(posted, from)
    ensures Carried(posted, from) == []
    decreases |posted| - from
  {
    if from < |posted| {
      assert !posted[from].kind.ReadDone?;
      NoDataCarried(posted, from + 1);
    }
  }

  lemma OneNotice(posted: seq<Task>, ran: nat)
    requires AtMostOneRead(posted, ran) && ran < |posted| && posted[ran].kind.ReadDone?
    ensures Carried(posted, ran + 1) == []
  {
    NoDataCarried(posted, ran + 1);
  }

  /** The notice of the head: its data is what the loop runs next, while the head is awaited. */
  predicate HeadIsNext(v: Server, data: string) {
    var posted, ran := v.http.conn.stream.posted, v.http.ran;
    v.phase == AwaitingHead && ran < |posted| && posted[ran].kind == ReadDone(data)
  }

  /** Once its notice has run a refused request is closed, with nothing of it left to run. */
  lemma RefusedIsDoomed(v: Server, fill: Fill, data: string, input: Input, output: Output)
    requires Kept(v) && HeadIsNext(v, data) && Refused(v.http.conn.request, data)
    ensures Doomed(Advance(v, fill, LoopRuns(input, output)))
  {
    var c, s, ran := v.http.conn, v.http.conn.stream, v.http.ran;
    assert s.closed || !s.readUntilClose;
    OneNotice(s.posted, ran);
    hide OnHeaders, Refused, Tended, Addressed, Close;
    HeadsLeadTo(c, fill, data, input, output);
    HeadNoticeIs(v, fill, input, output);
    ClosedAfter(s, ran + 1);
  }

  lemma ClosedAfter(s: Stream, ran: nat)
    requires ran <= |s.posted| && Carried(s.posted, ran) == [] && (s.closed || !s.readUntilClose)
    ensures ran <= |Close(s).posted| && Carried(Close(s).posted, ran) == []
  {
    if !s.closed {
      CloseReadsNothing(s);
      CarriedOn(s, Close(s), ran, []);
    }
  }

  lemma {:induction false} DoomedStaysClosed(v: Server, fill: Fill, moves: seq<Move>)
    requires Doomed(v)
    ensures var v' := AdvanceAll(v, fill, moves); v'.phase != Dispatched && v'.http.conn.stream.closed
    decreases |moves|
  {
    if moves != [] {
      DoomedStays(v, fill, moves[0]);
      DoomedStaysClosed(Advance(v, fill, moves[0]), fill, moves[1..]);
    }
  }

  /**
   Over every run from the accept: once the loop has run the notice of a refused head the connection is
   closed, and whatever happens from there on, stays closed, and the request is never dispatched.
   */
  lemma RefusedRequestsEnd(s: Stream, fill: Fill, first: Input, moves: seq<Move>, data: string,
      input: Input, output: Output, more: seq<Move>)
    requires Fresh(s)
    requires var v := AdvanceAll(Accepted(s, fill, first), fill, moves);
      HeadIsNext(v, data) && Refused(v.http.conn.request, data)
    ensures var v := AdvanceAll(Accepted(s, fill, first), fill, moves);
      var v' := AdvanceAll(Advance(v, fill, LoopRuns(input, output)), fill, more);
      v'.phase != Dispatched && v'.http.conn.stream.closed
  {
    var v := AdvanceAll(Accepted(s, fill, first), fill, moves);
    AcceptedIsTended(s, fill, first);
    AcceptedIsAddressed(s, fill, first);
    AllKept(Accepted(s, fill, first), fill, moves);
    hide Accepted, Advance, Refused, Kept, Doomed;
    RefusedIsDoomed(v, fill, data, input, output);
    DoomedStaysClosed(Advance(v, fill, LoopRuns(input, output)), fill, more);
  }
}
