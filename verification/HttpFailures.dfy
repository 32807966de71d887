/** Runs of a connection, from its first read on, that go wrong: the inputs that make them. */
module HttpFailures {
  import opened Common
  import opened LoopModel
  import opened Buffers
  import opened StreamModel
  import opened StreamProofs
  import opened StreamClosed
  import opened StreamReads
  import opened StreamFill
  import opened StreamNotices
  import opened Text
  import opened HttpParse
  import opened HttpRoundTrip
  import opened HttpModel
  import opened HttpProofs
  import opened HttpHead
  import opened HttpLifecycle
  import opened HttpClosed
  import opened HttpNotices
  import opened HttpArrival
  import opened HttpEndings

  // ------------------------------------------------------------------- the requests

  /** A request that declares a body of the given length. */
  function PostOf(n: nat): Message {
    Message("POST", "/", None, "HTTP/1.1", [Field("Content-Length", Decimal(n), [])], [])
  }

  /** And one that also waits for the 100-continue answer. */
  function AskingPostOf(n: nat): Message {
    PostOf(n).(fields := [Field("Content-Length", Decimal(n), []), Field("Expect", "100-continue", [])])
  }

  const GET := Message("GET", "/", None, "HTTP/1.1", [], [])

  lemma PostIsGood(n: nat)
    ensures Good(PostOf(n))
  {
    LengthField(n);
    assert forall f <- PostOf(n).fields :: f == Field("Content-Length", Decimal(n), []);
  }

  lemma PlainTarget(m: Message)
    requires m.query.None? && m.path == "/"
    ensures |Join([m.verb, Uri(m), m.version], ' ')| == |m.verb| + |m.version| + 3
  {
    var start := [m.verb, Uri(m), m.version];
    assert start[1..][1..] == [m.version];
    assert Join(start[1..], ' ') == m.path + [' '] + Join([m.version], ' ');
    assert Join(start, ' ') == m.verb + [' '] + Join(start[1..], ' ');
  }

  /** The length of such a head over its lines, two at most. */
  lemma PrintLength(m: Message)
    requires m.query.None? && m.path == "/" && m.cookies == [] && |m.fields| <= 2
    requires forall f <- m.fields :: f.more == []
    ensures |Print(m)| == |m.verb| + |m.version| + 7
      + (if |m.fields| > 0 then |m.fields[0].key| + |m.fields[0].first| + 4 else 0)
      + (if |m.fields| > 1 then |m.fields[1].key| + |m.fields[1].first| + 4 else 0)
  {
    PlainTarget(m);
    PrintedLines(m);
    var line, fs := Join([m.verb, Uri(m), m.version], ' '), m.fields;
    assert AllFields(m) == fs;
    assert ([line] + AllLines(fs))[1..] == AllLines(fs);
    if |fs| > 0 { OneFieldLine(fs); }
    if |fs| > 1 {
      assert fs[1] in fs;
      OneFieldLine(fs[1..]);
      assert fs[1..][1..] == [];
    } else if |fs| == 1 {
      assert fs[1..] == [];
    }
  }

  lemma OneFieldLine(fields: seq<Field>)
    requires |fields| > 0 && fields[0].more == []
    ensures |Unlines(AllLines(fields))| == |fields[0].key| + |fields[0].first| + 4 + |Unlines(AllLines(fields[1..]))|
  {
    var line := fields[0].key + ": " + fields[0].first;
    assert FieldLines(fields[0]) == [line];
    assert AllLines(fields)[1..] == AllLines(fields[1..]);
  }

  /** Printed and parsed again it is accepted, and declares that length. */
  lemma PostDeclares(n: nat)
    ensures Good(PostOf(n)) && |Print(PostOf(n))| == 37 + |Decimal(n)|
    ensures var (r, ret) := ParseRequest(NO_REQUEST, Print(PostOf(n)));
      ret == 0 && ContentLength(r) == n && !Expects(r) && r.headers.fields.Keys == {"Content-Length"}
  {
    PostIsGood(n);
    ParsePrint(PostOf(n));
    AtoiDecimal(n);
    var m := PostOf(n);
    var pair := Pair("Content-Length", Decimal(n));
    assert AllFields(m) == m.fields;
    assert Unfolded(Decimal(n), []) == Decimal(n);
    assert FieldPairs(m.fields) == [pair];
    assert [pair][1..] == [];
    assert Bind(map[], [pair]) == map["Content-Length" := Decimal(n)];
    PrintLength(m);
  }

  lemma AskingPostIsGood(n: nat)
    ensures Good(AskingPostOf(n))
  {
    PostIsGood(n);
    ExpectIsGood();
    hide GoodField, Decimal;
    var m, fields := AskingPostOf(n), PostOf(n).fields + [Field("Expect", "100-continue", [])];
    assert m == PostOf(n).(fields := fields);
    forall f <- fields ensures GoodField(f) && f.key != "Cookie" { assert f in PostOf(n).fields || f.key == "Expect"; }
  }

  lemma ExpectIsGood()
    ensures GoodField(Field("Expect", "100-continue", []))
  {
    PlainField("Expect", "100-continue", "Expect: 100-continue");
  }

  lemma AskingPostDeclares(n: nat)
    ensures Good(AskingPostOf(n)) && |Print(AskingPostOf(n))| == 59 + |Decimal(n)|
    ensures var (r, ret) := ParseRequest(NO_REQUEST, Print(AskingPostOf(n)));
      ret == 0 && ContentLength(r) == n && Expects(r)
  {
    AskingPostIsGood(n);
    ParsePrint(AskingPostOf(n));
    AtoiDecimal(n);
    var m := AskingPostOf(n);
    var pairs := [Pair("Content-Length", Decimal(n)), Pair("Expect", "100-continue")];
    assert AllFields(m) == m.fields;
    assert Unfolded(Decimal(n), []) == Decimal(n) && Unfolded("100-continue", []) == "100-continue";
    assert FieldPairs(m.fields) == pairs;
    var first := map["Content-Length" := Decimal(n)];
    assert pairs[1..] == [Pair("Expect", "100-continue")] && pairs[1..][1..] == [];
    assert Bind(map[], pairs) == Bind(first, pairs[1..]) == first["Expect" := "100-continue"];
    PrintLength(m);
  }

  lemma GetParses()
    ensures Good(GET) && |Print(GET)| == 18
    ensures var (r, ret) := ParseRequest(NO_REQUEST, Print(GET));
      ret == 0 && ContentLength(r) == 0
  {
    GetIsGood();
    hide ParseRequest, Good;
    ParsePrint(GET);
    assert AllFields(GET) == [];
    assert FieldPairs([]) == [];
    assert Lookup(map[], "Content-Length") == "";
    PrintLength(GET);
  }

  lemma GetIsGood()
    ensures Good(GET)
  {
  }

  // ------------------------------------------------------------------ the head arrives

  /** What one chunk, a head and what follows it, does to a stream that waits for the head. */
  lemma HeadExtracted(s: Stream, fill: Fill, m: Message, more: string)
    requires s.readBytes == 0 && s.readDelimiter == BLANK && Readable(s.readBuf) == 0
    requires |s.readBuf.bytes| == DEFAULT_SIZE && Good(m) && |Print(m) + more| <= READ_CHUNK
    ensures var (s', failed) := HandleRead(s, fill, Bytes(Print(m) + more, WouldBlock));
      && !failed && Contents(s'.readBuf) == more
      && s'.log.consumed == s.log.consumed + [Chunk(Print(m), s.readCb)]
      && s' == s.(readBuf := s'.readBuf, log := s'.log, readDelimiter := "", readCb := None,
                  posted := s.posted + Notice(ReadDone(Print(m)), s.readCb))
  {
    hide ReadPass, Print, Contents;
    var data, input := Print(m) + more, Bytes(Print(m) + more, WouldBlock);
    HeadEndsFirst(m, more);
    OneChunkRead(s.readBuf, fill, data);
    var p := ReadPass(fill, s.readBuf, input);
    var s1 := Receive(s, p);
    assert data[..|Print(m)|] == Print(m);
    assert data[|Print(m)|..] == more;
    assert Extract(s1) == Deliver(s1, |Print(m)|, s.readCb).(readDelimiter := "", readCb := None);
    TakenContents(p.buf, |Print(m)|);
  }

  lemma OneChunkRead(b: Window, fill: Fill, data: string)
    requires Readable(b) == 0 && |b.bytes| == DEFAULT_SIZE && 0 < |data| <= READ_CHUNK
    ensures var p := ReadPass(fill, b, Bytes(data, WouldBlock));
      p.ok && Contents(p.buf) == data && Readable(p.buf) == |data|
  {
    var input := Bytes(data, WouldBlock);
    PassesAgree(b, input);
    MeantPassIsFifo(b, input);
    ReadPassTakesAll(fill, b, input);
    assert Incoming(input) == data + Incoming(WouldBlock);
    assert Contents(b) + data == data;
  }

  /** A connection whose first read brings the head and what follows it. */
  lemma HeadAccepted(s: Stream, fill: Fill, m: Message, more: string)
    requires Fresh(s) && Good(m) && |Print(m) + more| <= READ_CHUNK
    ensures var v := Accepted(s, fill, Bytes(Print(m) + more, WouldBlock)); var t := v.http.conn.stream;
      && v == Server(Http(Conn(t, NO_REQUEST, map[], "", false), false, 200, "", "", "", 0, false), AwaitingHead)
      && !t.closed && t.closeCb == Some(ON_CLOSE) && t.posted == [Task(ReadDone(Print(m)), ON_HEADERS)]
      && Contents(t.readBuf) == more && t.writeBuf == s.writeBuf
      && t.log.consumed == [Chunk(Print(m), Some(ON_HEADERS))]
      && StreamModel.Idle(t) && t.writeCb.None? && !t.connecting
  {
    hide HandleRead, Good, Print, Find;
    var s0 := s.(closeCb := Some(ON_CLOSE));
    var asked := Requested(s0, Until(BLANK), Some(ON_HEADERS)).(readDelimiter := BLANK, readCb := Some(ON_HEADERS));
    assert BLANK == "\r\n\r\n";
    HeadExtracted(asked, fill, m, more);
    NothingFound(s, BLANK);
  }

  // ------------------------------------------------------------------- the failing runs

  lemma OneMove(v: Server, fill: Fill, m: Move)
    ensures AdvanceAll(v, fill, [m]) == Advance(v, fill, m)
    ensures AnyInVain(v, fill, [m]) <==> AsksInVain(v, m)
  {
    assert [m][1..] == [];
    var v' := Advance(v, fill, m);
    assert AdvanceAll(v', fill, []) == v' && !AnyInVain(v', fill, []);
  }

  lemma TwoMoves(v: Server, fill: Fill, m: Move, m': Move)
    ensures AdvanceAll(v, fill, [m, m']) == Advance(Advance(v, fill, m), fill, m')
    ensures AnyInVain(v, fill, [m, m']) <==> AsksInVain(v, m) || AsksInVain(Advance(v, fill, m), m')
  {
    OneMove(Advance(v, fill, m), fill, m');
    assert [m, m'][1..] == [m'];
  }

  /** A closed stream that offers no bytes keeps the callback of a body it does not hold. */
  lemma StrandedRead(s: Stream, r: HttpRequest, fill: Fill, n: int, input: Input, output: Output)
    requires Sound(s) && StreamModel.Idle(s) && s.writeCb.None? && !s.connecting && Readable(s.readBuf) == 0 < n
    requires Encourage(s, r, output).closed && !input.Bytes?
    ensures var s' := ReadBytes(Encourage(s, r, output), fill, n, Some(ON_BODY), input).0;
      s'.closed && s'.readCb == Some(ON_BODY)
  {
    var s1 := Encourage(s, r, output);
    EncourageDoes(s, r, output);
    ClosedReadBytes(s1, fill, n, Some(ON_BODY), input);
  }

  /** A connection that has read such a request, and nothing after it. */
  lemma AskingHeadRead(s: Stream, fill: Fill, n: nat)
    requires Fresh(s) && 0 < n <= MAX_BODY
    ensures var v := Accepted(s, fill, Bytes(Print(AskingPostOf(n)), WouldBlock)); var t := v.http.conn.stream;
      && Tended(v) && v.phase == AwaitingHead && v.http.ran == 0 && v.http.conn.request == NO_REQUEST
      && t.posted == [Task(ReadDone(Print(AskingPostOf(n))), ON_HEADERS)]
      && Sound(t) && StreamModel.Idle(t) && t.writeCb.None? && !t.connecting && Readable(t.readBuf) == 0
  {
    hide ParseRequest, Print, AskingPostOf, Sound, Tended, HandleRead;
    var m := AskingPostOf(n);
    AskingPostDeclares(n);
    DecimalLengthIff(n, 6);
    assert Print(m) + "" == Print(m);
    HeadAccepted(s, fill, m, "");
    AcceptedIsTended(s, fill, Bytes(Print(m), WouldBlock));
  }

  /**
   The first failure. A client asks for a 100-continue and is gone when it is written: the body is
   asked for all the same, and its callback stays stored in the closed stream.
   */
  lemma ContinueStrandsItsCallback(s: Stream, fill: Fill, n: nat, input: Input)
    requires Fresh(s) && 0 < n <= MAX_BODY && !input.Bytes?
    ensures var v, moves := Accepted(s, fill, Bytes(Print(AskingPostOf(n)), WouldBlock)), [LoopRuns(input, Breaks)];
      var t := AdvanceAll(v, fill, moves).http.conn.stream;
      AnyInVain(v, fill, moves) && t.closed && t.readCb == Some(ON_BODY) && !Sound(t)
  {
    hide ParseRequest, Print, AskingPostOf, Sound, Accepted, Encourage, Tended, Contents;
    var m := AskingPostOf(n);
    AskingPostDeclares(n);
    var v, move := Accepted(s, fill, Bytes(Print(m), WouldBlock)), LoopRuns(input, Breaks);
    AskingHeadRead(s, fill, n);
    OneMove(v, fill, move);
    AdvanceTends(v, fill, move);
    assert AsksInVain(v, move);
    var t, r := v.http.conn.stream, ParseRequest(NO_REQUEST, Print(m)).0;
    EncourageDoes(t, r, Breaks);
    BodyAwaited(v.http.conn, fill, Print(m), input, Breaks);
    StrandedRead(t, r, fill, n, input, Breaks);
  }

  /** A pass that brings a head and what follows it, on a stream that has an error as well. */
  lemma ErrorAfterHead(s: Stream, fill: Fill, m: Message, more: string)
    requires !s.closed && !s.connecting && s.connectCb.None? && s.writeCb.None? && s.readCb == Some(ON_HEADERS)
    requires s.readBytes == 0 && s.readDelimiter == BLANK && !s.readUntilClose && Contents(s.readBuf) == ""
    requires s.posted == [] && s.closeCb == Some(ON_CLOSE)
    requires |s.readBuf.bytes| == DEFAULT_SIZE && Good(m) && |Print(m) + more| <= READ_CHUNK
    ensures var t := HandleEvents(s, fill, Mask(true, false, true), None, Bytes(Print(m) + more, WouldBlock), Refuses);
      && t.closed && StreamModel.Idle(t) && Contents(t.readBuf) == more
      && t.posted == [Task(ReadDone(Print(m)), ON_HEADERS), Task(CloseDone, ON_CLOSE)]
  {
    assert m.query.Some? ==> m.query.value != [];
    assert Readable(s.readBuf) == |Contents(s.readBuf)|;
    hide Print, Good, HandleRead, Contents;
    HeadExtracted(s, fill, m, more);
  }

  lemma HeadThenError(s: Stream, fill: Fill, m: Message, more: string)
    requires Fresh(s) && s.reachable && Good(m) && |Print(m) + more| <= READ_CHUNK
    ensures var move := StreamEvents(Mask(true, false, true), Bytes(Print(m) + more, WouldBlock), Refuses);
      var v := Advance(Accepted(s, fill, WouldBlock), fill, move); var t := v.http.conn.stream;
      && v == Server(Http(Conn(t, NO_REQUEST, map[], "", false), false, 200, "", "", "", 0, false), AwaitingHead)
      && t.closed && StreamModel.Idle(t) && Contents(t.readBuf) == more
      && t.posted == [Task(ReadDone(Print(m)), ON_HEADERS), Task(CloseDone, ON_CLOSE)]
  {
    assert m.query.Some? ==> m.query.value != [];
    assert |s.readBuf.bytes| == DEFAULT_SIZE;
    hide Print, Good, HandleEvents, Contents, Accepted, Advance;
    HeadWaits(s, fill);
    var v := Accepted(s, fill, WouldBlock);
    EventsAdvance(v, fill, Mask(true, false, true), Bytes(Print(m) + more, WouldBlock), Refuses);
    ErrorAfterHead(v.http.conn.stream, fill, m, more);
  }

  /** A closed stream that holds a body answers for it at once. */
  lemma BufferedBody(s: Stream, fill: Fill, body: string, input: Input)
    requires s.closed && StreamModel.Idle(s) && Contents(s.readBuf) == body != ""
    ensures ReadBytes(s, fill, |body|, Some(ON_BODY), input).0.posted == s.posted + [Task(ReadDone(body), ON_BODY)]
  {
    assert Readable(s.readBuf) == |body| && body[..|body|] == body;
  }

  /**
   The second failure. A request and its whole body arrive together with an error: the stream closes
   with the body buffered, and onHeaders has it delivered after the close notice.
   */
  lemma BodyCanFollowTheClose(s: Stream, fill: Fill, body: string, input: Input, output: Output)
    requires Fresh(s) && s.reachable && body != "" && |Print(PostOf(|body|)) + body| <= READ_CHUNK
    ensures var head := Print(PostOf(|body|));
      var v, moves := Accepted(s, fill, WouldBlock),
        [StreamEvents(Mask(true, false, true), Bytes(head + body, WouldBlock), Refuses), LoopRuns(input, output)];
      var t := AdvanceAll(v, fill, moves).http.conn.stream;
      && AnyInVain(v, fill, moves) && !Sound(t)
      && t.posted == [Task(ReadDone(head), ON_HEADERS), Task(CloseDone, ON_CLOSE), Task(ReadDone(body), ON_BODY)]
  {
    hide ParseRequest, Print, PostOf, Sound, ReadBytes, Accepted, HandleEvents;
    var m := PostOf(|body|);
    PostDeclares(|body|);
    HeadThenError(s, fill, m, body);
    var move := StreamEvents(Mask(true, false, true), Bytes(Print(m) + body, WouldBlock), Refuses);
    var next := LoopRuns(input, output);
    var v := Accepted(s, fill, WouldBlock);
    var v1 := Advance(v, fill, move);
    TwoMoves(v, fill, move, next);
    AcceptedIsTended(s, fill, WouldBlock);
    AdvanceTends(v, fill, move);
    AdvanceTends(v1, fill, next);
    assert AsksInVain(v1, next);
    var t, r := v1.http.conn.stream, ParseRequest(NO_REQUEST, Print(m)).0;
    BodyAwaited(v1.http.conn, fill, Print(m), input, output);
    BufferedBody(t, fill, body, input);
    assert Encourage(t, r, output) == t;
  }

  /** A request without a body is dispatched as soon as its head has arrived. */
  lemma GetIsDispatched(s: Stream, fill: Fill, input: Input, output: Output)
    requires Fresh(s)
    ensures var v := Advance(Accepted(s, fill, Bytes(Print(GET), WouldBlock)), fill, LoopRuns(input, output));
      var h := v.http;
      && Orderly(v) && v.phase == Dispatched && !h.finished && h.buff == "" && h.status == 200
      && !h.conn.stream.closed && Room(h.conn.stream.writeBuf) == DEFAULT_SIZE
  {
    hide ParseRequest, Print, HandleRead;
    var arrives := Bytes(Print(GET), WouldBlock);
    GetParses();
    assert Print(GET) + "" == Print(GET);
    HeadAccepted(s, fill, GET, "");
    var v := Accepted(s, fill, arrives);
    AcceptedIsOrderly(s, fill, arrives);
    AdvanceKeeps(v, fill, LoopRuns(input, output));
    assert Readable(s.writeBuf) == |Contents(s.writeBuf)|;
  }

  /** What finish() formats for the status a handler starts with. */
  function FinishesAt(t: Time, output: Output): Move
    requires OnCalendar(t)
  {
    HandlerCalls(CallFinish(Reason(200), GmtDate(t), output))
  }

  lemma ShortHead(t: Time, body: string)
    requires OnCalendar(t) && |body| < DEFAULT_SIZE
    ensures |Head(200, Reason(200), GmtDate(t), |body|)| < FORMAT_BUFFER
  {
    HeadAlwaysFits(200, t, body);
  }

  /**
   The third failure. A request without a body is dispatched, and its handler finishes with nothing
   written: the connection is left open with a response that is not live.
   */
  lemma EmptyAnswerHangs(s: Stream, fill: Fill, t: Time, input: Input, output: Output)
    requires Fresh(s) && OnCalendar(t)
    ensures var v, moves := Accepted(s, fill, Bytes(Print(GET), WouldBlock)),
        [LoopRuns(input, output), FinishesAt(t, output)];
      var v' := AdvanceAll(v, fill, moves); var h := v'.http;
      && v'.phase == Dispatched && h.finished && h.answer == "" && !h.conn.stream.closed && !Live(h)
  {
    hide Accepted, RunNotice, Print, HandlerFinish, Head, Sound, Reason, GmtDate;
    var v, first, next := Accepted(s, fill, Bytes(Print(GET), WouldBlock)), LoopRuns(input, output), FinishesAt(t, output);
    var v1 := Advance(v, fill, first);
    GetIsDispatched(s, fill, input, output);
    TwoMoves(v, fill, first, next);
    ShortHead(t, "");
    FinishIsLiveIff(v1.http, Reason(200), GmtDate(t), output);
    FinishAnswers(v1.http, Reason(200), GmtDate(t), output);
  }

  // --------------------------------------------- outside the handler table, or refused

  /** A socket that refuses takes nothing of a head and a body there is room for. */
  lemma RefusedAnswer(s: Stream, head: string, body: string)
    requires !s.closed && !s.connecting && head != "" && body != "" && |head| + |body| <= Room(s.writeBuf)
    ensures var s' := WriteBytesWith(JustWrite(s, head).0, body, Refuses, Some(ON_WRITE_COMPLETE)).0;
      !s'.closed && Readable(s'.writeBuf) == Readable(s.writeBuf) + |head| + |body|
  {
    hide Contents;
    var s1 := JustWrite(s, head).0;
    assert !s1.closed && Readable(s1.writeBuf) == Readable(s.writeBuf) + |head| && |s1.writeBuf.bytes| == |s.writeBuf.bytes|;
    var s2 := JustWrite(s1.(writeCb := Some(ON_WRITE_COMPLETE)), body).0;
    assert !s2.closed && Readable(s2.writeBuf) == Readable(s1.writeBuf) + |body|;
  }

  lemma RefusedFinish(h: Http, t: Time)
    requires Sane(h) && Answering(h) && !h.conn.stream.closed && h.status == 200 && OnCalendar(t)
    requires h.buff != "" && |h.buff| + FORMAT_BUFFER <= Room(h.conn.stream.writeBuf) <= DEFAULT_SIZE
    ensures var h' := HandlerFinish(h, Reason(200), GmtDate(t), Refuses);
      !h'.conn.stream.closed && Writing(h'.conn.stream) && !CompletionQueued(h') && !h'.serverClosed
  {
    var head := Head(200, Reason(200), GmtDate(t), |h.buff|);
    assert head != "";
    ShortHead(t, h.buff);
    hide Head, Reason, GmtDate, JustWrite, WriteBytesWith;
    RefusedAnswer(h.conn.stream, head, h.buff);
    FinishAnswers(h, Reason(200), GmtDate(t), Refuses);
  }

  lemma GetReaches(s: Stream, fill: Fill, input: Input, output: Output)
    requires Fresh(s)
    ensures var v := Advance(Accepted(s, fill, Bytes(Print(GET), WouldBlock)), fill, LoopRuns(input, output));
      v.http.conn.stream.reachable == s.reachable
  {
    hide Accepted, RunNotice;
    AcceptedReaches(s, fill, Bytes(Print(GET), WouldBlock));
    AdvanceReceives(Accepted(s, fill, Bytes(Print(GET), WouldBlock)), fill, LoopRuns(input, output));
  }

  /** Its handler writes something and finishes, on a socket that would block. */
  function Answers(chunk: string, t: Time, input: Input, output: Output): seq<Move>
    requires OnCalendar(t)
  {
    [LoopRuns(input, output), HandlerCalls(CallWrite(chunk)), FinishesAt(t, Refuses)]
  }

  lemma AnswerIsForgotten(s: Stream, fill: Fill, t: Time, chunk: string, input: Input, output: Output, heard: bool)
    requires Fresh(s) && !(s.reachable && heard) && OnCalendar(t) && chunk != "" && |chunk| + FORMAT_BUFFER <= DEFAULT_SIZE
    ensures var v := AdvanceAll(Accepted(s, fill, Bytes(Print(GET), WouldBlock)), fill, Answers(chunk, t, input, output));
      && Forgotten(v, heard) && v.http.answer == chunk && Unsent(v) > 0 && !v.http.serverClosed
      && v.http.conn.stream.reachable == s.reachable
  {
    hide Accepted, RunNotice, Print, HandlerFinish, Reason, GmtDate, Sound, Live;
    var v, moves := Accepted(s, fill, Bytes(Print(GET), WouldBlock)), Answers(chunk, t, input, output);
    var v1 := Advance(v, fill, moves[0]);
    var v2 := Advance(v1, fill, moves[1]);
    GetIsDispatched(s, fill, input, output);
    GetReaches(s, fill, input, output);
    assert moves[1..][1..] == [moves[2]];
    TwoMoves(v1, fill, moves[1], moves[2]);
    assert moves[1..] == [moves[1], moves[2]];
    AdvanceKeeps(v1, fill, moves[1]);
    AdvanceKeeps(v2, fill, moves[2]);
    AdvanceReceives(v2, fill, moves[2]);
    FinishAnswers(v2.http, Reason(200), GmtDate(t), Refuses);
    RefusedFinish(v2.http, t);
  }

  /**
   The fourth failure. On a descriptor outside the handler table, or one epoll would not register, a
   request that came with the accept is answered, but what the socket refuses at once is never sent:
   whatever can happen then, the connection stays open, with bytes unsent and nothing queued.
   */
  lemma UnregisteredAnswerHangs(s: Stream, fill: Fill, t: Time, chunk: string, input: Input, output: Output,
      heard: bool, more: seq<Move>)
    requires Fresh(s) && !(s.reachable && heard) && Possible(more, heard)
    requires OnCalendar(t) && chunk != "" && |chunk| + FORMAT_BUFFER <= DEFAULT_SIZE
    ensures var v := AdvanceAll(Accepted(s, fill, Bytes(Print(GET), WouldBlock)), fill, Answers(chunk, t, input, output) + more);
      && v.phase == Dispatched && v.http.finished && v.http.answer != "" && !v.http.conn.stream.closed
      && Unsent(v) > 0 && !CompletionQueued(v.http) && (!s.reachable ==> v.http.conn.stream.slot.None?)
  {
    hide Accepted, Advance, Print, Answers;
    var v := Accepted(s, fill, Bytes(Print(GET), WouldBlock));
    AnswerIsForgotten(s, fill, t, chunk, input, output, heard);
    AllAdvancesSplit(v, fill, Answers(chunk, t, input, output), more);
    ForgottenForGood(AdvanceAll(v, fill, Answers(chunk, t, input, output)), fill, more, heard);
  }

  // ---------------------------------------------------------------- the body too long

  /** A connection that waits for a body which cannot arrive. */
  ghost predicate Hopeless(v: Server) {
    var s := v.http.conn.stream;
    Tended(v) && v.phase == AwaitingBody && Starved(s) && !ReadQueued(s.posted, v.http.ran)
  }

  lemma HopelessEvents(s: Stream, fill: Fill, events: Mask, input: Input, output: Output, ran: nat)
    requires Starved(s) && !ReadQueued(s.posted, ran) && (s.closed || (Disciplined(s) && !s.connecting))
    ensures var s' := HandleEvents(s, fill, events, None, input, output);
      Starved(s') && s'.log.consumed == s.log.consumed && !ReadQueued(s'.posted, ran)
  {
    hide ServeEvents;
    StarvedEvents(s, fill, events, None, input, output);
    if !s.closed {
      EventsRead(s, fill, events, input, output);
      EventsMove(s, fill, events, input, output);
      var s' := HandleEvents(s, fill, events, None, input, output);
      forall i | ran <= i < |s'.posted| ensures !s'.posted[i].kind.ReadDone? {
        if i < |s.posted| { assert s'.posted[i] == s.posted[i]; }
      }
    }
  }

  lemma HopelessStays(v: Server, fill: Fill, m: Move)
    requires Hopeless(v)
    ensures Hopeless(Advance(v, fill, m))
    ensures Advance(v, fill, m).http.conn.stream.log.consumed == v.http.conn.stream.log.consumed
  {
    hide Starved, Wakeful, CloseIsLast, HandleEvents;
    AdvanceTends(v, fill, m);
    match m
    case StreamEvents(events, input, output) =>
      HopelessEvents(v.http.conn.stream, fill, events, input, output, v.http.ran);
    case LoopRuns(_, _) =>
    case HandlerCalls(_) =>
  }

  lemma {:induction false} HopelessForGood(v: Server, fill: Fill, moves: seq<Move>)
    requires Hopeless(v)
    ensures var v' := AdvanceAll(v, fill, moves);
      v'.phase == AwaitingBody && v'.http.conn.stream.log.consumed == v.http.conn.stream.log.consumed
    decreases |moves|
  {
    if moves != [] {
      HopelessStays(v, fill, moves[0]);
      HopelessForGood(Advance(v, fill, moves[0]), fill, moves[1..]);
    }
  }

  /** Asking for such a body posts no notice of one, and leaves the stream starved. */
  lemma StarvedFromTheStart(s: Stream, fill: Fill, n: int, input: Input)
    requires Sound(s) && !s.closed && StreamModel.Idle(s) && DEFAULT_SIZE - READ_CHUNK < n
    ensures var s' := ReadBytes(s, fill, n, Some(ON_BODY), input).0;
      && Starved(s') && s'.log.consumed == s.log.consumed
      && s.posted <= s'.posted && !ReadQueued(s'.posted, |s.posted|)
      && (input == WouldBlock ==> !s'.closed && s'.readBytes == n)
  {
    OversizedReadStarves(s, fill, n, Some(ON_BODY), input);
    var asked := Requested(s, Count(n), Some(ON_BODY)).(readBytes := n, readCb := Some(ON_BODY));
    ReadPassTakesAll(fill, s.readBuf, input);
    var s1 := HandleRead(asked, fill, input).0;
    assert s1.posted == s.posted;
    CloseRead(s1);
  }

  lemma HopelessBegins(s: Stream, fill: Fill, n: nat, input: Input, output: Output)
    requires Fresh(s) && DEFAULT_SIZE - READ_CHUNK < n <= MAX_BODY
    ensures var v := Accepted(s, fill, Bytes(Print(PostOf(n)), WouldBlock));
      var v1 := Advance(v, fill, LoopRuns(input, output));
      var t := v1.http.conn.stream;
      && Hopeless(v1) && t.log.consumed == [Chunk(Print(PostOf(n)), Some(ON_HEADERS))]
      && (input == WouldBlock ==> !t.closed && t.readBytes == n)
  {
    hide ParseRequest, Print, PostOf, ReadBytes, HandleRead, Starved, Sound;
    var m := PostOf(n);
    PostDeclares(n);
    DecimalLengthIff(n, 6);
    assert Print(m) + "" == Print(m);
    HeadAccepted(s, fill, m, "");
    var arrives := Bytes(Print(m), WouldBlock);
    var v := Accepted(s, fill, arrives);
    var t := v.http.conn.stream;
    AcceptedIsTended(s, fill, arrives);
    AdvanceTends(v, fill, LoopRuns(input, output));
    BodyAwaited(v.http.conn, fill, Print(m), input, output);
    StarvedFromTheStart(t, fill, n, input);
    assert Encourage(t, ParseRequest(NO_REQUEST, Print(m)).0, output) == t;
  }

  /**
   The fifth failure. A printed request whose body is longer than 101376 bytes, but not than the
   102400 onHeaders allows, is accepted and waited for; over every run from there it is never
   dispatched, and nothing but its head is ever delivered.
   */
  lemma LongPostIsStranded(s: Stream, fill: Fill, n: nat, input: Input, output: Output, moves: seq<Move>)
    requires Fresh(s) && DEFAULT_SIZE - READ_CHUNK < n <= MAX_BODY
    ensures var head := Print(PostOf(n));
      var v := Accepted(s, fill, Bytes(head, WouldBlock));
      var v' := AdvanceAll(v, fill, [LoopRuns(input, output)] + moves);
      && v'.phase == AwaitingBody
      && v'.http.conn.stream.log.consumed == [Chunk(head, Some(ON_HEADERS))]
      && (input == WouldBlock && moves == [] ==> !v'.http.conn.stream.closed && v'.http.conn.stream.readBytes == n)
  {
    hide Print, Accepted, Advance;
    HopelessBegins(s, fill, n, input, output);
    var v := Accepted(s, fill, Bytes(Print(PostOf(n)), WouldBlock));
    var run := [LoopRuns(input, output)] + moves;
    assert run[1..] == moves;
    HopelessForGood(Advance(v, fill, run[0]), fill, moves);
  }
}
