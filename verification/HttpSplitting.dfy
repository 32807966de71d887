/**
 What the pieces of a request, and the place where reads land, do to a connection: two requests that
 reach their handler when they arrive one way, and not when they arrive another.
 */
module HttpSplitting {
  import opened Common
  import opened LoopModel
  import opened Buffers
  import opened StreamModel
  import opened StreamProofs
  import opened StreamReads
  import opened StreamFill
  import opened Text
  import opened HttpParse
  import opened HttpRoundTrip
  import opened HttpModel
  import opened HttpHead
  import opened HttpLifecycle
  import opened HttpClosed
  import opened HttpNotices
  import opened HttpArrival
  import opened HttpPieces
  import opened HttpFill
  import opened HttpEndings
  import opened HttpFailures

  // ------------------------------------------------------------- the unlucky splitting

  lemma PlainPost(body: string)
    requires body != "" && |body| <= MAX_BODY
    ensures Declares(PostOf(|body|), body) && |Print(PostOf(|body|))| <= 43
    ensures "Content-Encoding" !in Meant(PostOf(|body|)).headers.fields
  {
    PostDeclares(|body|);
    DecimalLengthIff(|body|, 6);
    var r := Meant(PostOf(|body|));
    assert "Content-Encoding" !in r.headers.fields.Keys;
  }

  /** The first piece, at most a chunk, is read alike under both fills. */
  lemma HeadPieceAgrees(s: Stream, piece: string)
    requires Fresh(s) && |piece| <= READ_CHUNK
    ensures var v := Accepted(s, AtWriteEnd, WouldBlock);
      && Accepted(s, AtReadEnd, WouldBlock) == v
      && AdvanceAll(v, AtReadEnd, Moments([piece])) == AdvanceAll(v, AtWriteEnd, Moments([piece]))
  {
    hide Accepted, Advance;
    var v := Accepted(s, AtWriteEnd, WouldBlock);
    AcceptedAgrees(s, WouldBlock);
    HeadWaits(s, AtWriteEnd);
    assert [piece][1..] == [];
    var v1 := Advance(v, AtReadEnd, Arrives(piece));
    assert Readable(v.http.conn.stream.readBuf) == |Contents(v.http.conn.stream.readBuf)|;
    assert GentleMoves(Advance(v1, AtReadEnd, TICK), [TICK]);
    assert [TICK, TICK][1..] == [TICK];
    assert GentleMoves(v1, [TICK, TICK]);
    assert Moments([piece])[1..] == [TICK, TICK];
    CodedConnectionIsMeant(v, Moments([piece]));
  }

  /** As many bytes as a pending request wants are handed over, whatever place they were read into. */
  lemma CountIsHanded(s: Stream, fill: Fill, piece: string)
    requires Listens(s) && OneMode(s) && s.readBytes == |piece| > 0 && s.readCb.Some?
    requires Readable(s.readBuf) == 0 && |piece| + READ_CHUNK <= DEFAULT_SIZE
    ensures var s' := HandleEvents(s, fill, READ, None, Bytes(piece, WouldBlock), Refuses);
      s.posted < s'.posted && s'.posted[|s.posted|].kind.ReadDone?
  {
    hide ReadPass, Wakeful, CloseIsLast;
    var input := Bytes(piece, WouldBlock);
    ReadPassTakesAll(fill, s.readBuf, input);
    assert Incoming(input) == piece + Incoming(WouldBlock) == piece;
    assert Blocks(input);
  }

  lemma AnyBodyIsTaken(c: Conn, data: string)
    requires "Content-Encoding" !in c.request.headers.fields
    ensures OnRequestBody(c, data).1
  {
  }

  /** The data of the body in hand, the request goes to its handler: not being a form it is not parsed. */
  lemma BodyNoticeDispatches(v: Server, fill: Fill)
    requires v.phase == AwaitingBody && v.http.ran < |v.http.conn.stream.posted|
    requires v.http.conn.stream.posted[v.http.ran].kind.ReadDone?
    requires "Content-Encoding" !in v.http.conn.request.headers.fields
    ensures Advance(v, fill, TICK).phase == Dispatched
  {
    hide OnRequestBody;
    AnyBodyIsTaken(v.http.conn, v.http.conn.stream.posted[v.http.ran].kind.data);
    BodyNoticeIs(v, fill, WouldBlock, Refuses);
  }

  /** The body after its head, on a connection that waits for it. */
  lemma BodyPieceArrives(v: Server, fill: Fill, m: Message, body: string)
    requires Declares(m, body) && AtRest(v, m, body) && v.phase == AwaitingBody && |body| + READ_CHUNK <= DEFAULT_SIZE
    requires v.http.conn.stream.log.received == Print(m) && "Content-Encoding" !in Meant(m).headers.fields
    ensures AdvanceAll(v, fill, Moments([body])).phase == Dispatched
  {
    ReadingListens(v, m, body);
    RestsAt(v, m, body);
    BodyAsksFor(v, m, body);
    hide Good, Declares, Print, Meant, AtRest, Listens, HandleEvents, Advance, OneMode;
    var s := v.http.conn.stream;
    CountIsHanded(s, fill, body);
    EventsAdvance(v, fill, READ, Bytes(body, WouldBlock), Refuses);
    var v1 := Advance(v, fill, Arrives(body));
    BodyNoticeDispatches(v1, fill);
    DispatchedNow(Advance(v1, fill, TICK), fill, TICK);
    assert [body][1..] == [];
    ThreeMoves(v, fill, Arrives(body), TICK, TICK, []);
  }

  lemma BodyAsksFor(v: Server, m: Message, body: string)
    requires Good(m) && AtRest(v, m, body) && v.phase == AwaitingBody
    ensures var c := v.http.conn;
      && c.request == Meant(m) && OneMode(c.stream) && c.stream.readBytes == |body| > 0 && c.stream.readCb.Some?
      && v.http.ran == |c.stream.posted|
  {
    hide Good, Meant, Tended, Early, ServeOne;
    assert Carried(v.http.conn.stream.posted, v.http.ran) == [];
  }

  /** After the head alone a connection waits for the body. */
  lemma HeadPieceArrives(s: Stream, fill: Fill, m: Message, body: string)
    requires Fresh(s) && s.reachable && Declares(m, body) && body != "" && |Print(m)| <= READ_CHUNK
    ensures var v := AdvanceAll(Accepted(s, fill, WouldBlock), fill, Moments([Print(m)]));
      AtRest(v, m, body) && v.phase == AwaitingBody && v.http.conn.stream.log.received == Print(m)
  {
    HeadEndsFirst(m, "");
    HeadPieceAgrees(s, Print(m));
    AcceptedRests(s, m, body);
    assert Good(m) && (m.query.Some? ==> m.query.value != []);
    hide Accepted, Advance, Good, Declares, AtRest, Print;
    var v := Accepted(s, AtWriteEnd, WouldBlock);
    RestsAt(v, m, body);
    assert "" + Print(m) == Print(m) && [Print(m)][1..] == [];
    PieceComesTo(v, Print(m), m, body);
    ThreeMoves(v, AtWriteEnd, Arrives(Print(m)), TICK, TICK, []);
  }

  /** A piece too long for the buffer closes the connection. */
  lemma LongPieceCloses(s: Stream, fill: Fill, piece: string)
    requires Fresh(s) && s.reachable && |piece| + READ_CHUNK > DEFAULT_SIZE
    ensures AdvanceAll(Accepted(s, fill, WouldBlock), fill, Moments([piece])).phase != Dispatched
  {
    HeadWaits(s, fill);
    AcceptedIsTended(s, fill, WouldBlock);
    var v, t := Accepted(s, fill, WouldBlock), Accepted(s, fill, WouldBlock).http.conn.stream;
    assert Sound(t);
    hide Accepted, Advance, Sound, Tended, HandleEvents;
    PieceRead(t, fill, piece);
    EventsAdvance(v, fill, READ, Bytes(piece, WouldBlock), Refuses);
    assert [piece][1..] == [];
    DoomedForGood(Advance(v, fill, Arrives(piece)), fill, [TICK, TICK]);
    ThreeMoves(v, fill, Arrives(piece), TICK, TICK, []);
    TwoMoves(Advance(v, fill, Arrives(piece)), fill, TICK, TICK);
  }

  lemma HeadThenBody(s: Stream, fill: Fill, body: string)
    requires Fresh(s) && s.reachable && |body| == DEFAULT_SIZE - READ_CHUNK
    ensures AdvanceAll(Accepted(s, fill, WouldBlock), fill, Moments([Print(PostOf(|body|)), body])).phase == Dispatched
  {
    PlainPost(body);
    hide Declares, Accepted, AdvanceAll, Print, PostOf, Meant, AtRest, Moments, Good;
    var m := PostOf(|body|);
    var v, head := Accepted(s, fill, WouldBlock), Print(m);
    HeadPieceArrives(s, fill, m, body);
    BodyPieceArrives(AdvanceAll(v, fill, Moments([head])), fill, m, body);
    AllAdvancesSplit(v, fill, Moments([head]), Moments([body]));
    TwoPieces(head, body);
  }

  lemma TwoPieces(a: string, b: string)
    ensures Moments([a, b]) == Moments([a]) + Moments([b])
  {
    assert [a, b][1..] == [b] && [a][1..] == [];
  }

  /**
   The longest body that can arrive does, when it comes after its head, wherever reads land; the very
   same bytes in one piece close the connection unanswered.
   */
  lemma SplittingMatters(s: Stream, fill: Fill, body: string)
    requires Fresh(s) && s.reachable && |body| == DEFAULT_SIZE - READ_CHUNK
    ensures var v, head := Accepted(s, fill, WouldBlock), Print(PostOf(|body|));
      && AdvanceAll(v, fill, Moments([head, body])).phase == Dispatched
      && AdvanceAll(v, fill, Moments([head + body])).phase != Dispatched
  {
    hide Accepted, AdvanceAll, Print, Moments;
    HeadThenBody(s, fill, body);
    PrintsSomething(PostOf(|body|), body);
    LongPieceCloses(s, fill, Print(PostOf(|body|)) + body);
  }

  lemma PrintsSomething(m: Message, body: string)
    requires m == PostOf(|body|)
    ensures |Print(m)| > 0
  {
    PostIsGood(|body|);
    HeadEndsFirst(m, "");
  }

  // ------------------------------------------------------------ a head of two chunks

  /** A request whose one field has a long value. */
  function LongGet(value: string): Message { GET.(fields := [Field("X", value, [])]) }

  /** A value without white space that reaches into the second chunk of the head, and not beyond it. */
  predicate Straddles(value: string) {
    1006 <= |value| <= 2025 && ' ' !in value && '\r' !in value && Trimmed(value)
  }

  lemma LongGetIsGood(value: string)
    requires Straddles(value)
    ensures Good(LongGet(value)) && FieldLines(Field("X", value, [])) == ["X: " + value]
  {
    PlainField("X", value, "X: " + value);
    hide GoodField;
    assert forall f <- LongGet(value).fields :: f == Field("X", value, []);
  }

  lemma LongGetPrints(value: string)
    requires Straddles(value)
    ensures Declares(LongGet(value), "")
    ensures var head := Print(LongGet(value));
      |head| == |value| + 23 && head[READ_CHUNK..] == value[1005..] + CRLF + CRLF
  {
    var m := LongGet(value);
    LongGetIsGood(value);
    hide Good, Trimmed, FieldLines, ParseRequest;
    ParsePrint(m);
    assert AllFields(m) == m.fields && m.fields[1..] == [];
    assert AllLines(m.fields) == ["X: " + value] + [];
    PrintedLines(m);
    LongGetText(value);
    LongGetFields(m, value);
  }

  lemma GetLine()
    ensures Join(["GET", "/", "HTTP/1.1"], ' ') == "GET / HTTP/1.1"
  {
    assert ["GET", "/", "HTTP/1.1"][1..][1..] == ["HTTP/1.1"];
    assert Join(["GET", "/", "HTTP/1.1"][1..], ' ') == "/ HTTP/1.1";
  }

  lemma LongGetText(value: string)
    requires |value| >= 1006
    ensures var text := Unlines([Join(["GET", "/", "HTTP/1.1"], ' ')] + ["X: " + value]) + CRLF;
      |text| == |value| + 23 && text[READ_CHUNK..] == value[1005..] + CRLF + CRLF
  {
    GetLine();
    hide Join;
    var start, line := "GET / HTTP/1.1", "X: " + value;
    assert ([start] + [line])[1..] == [line] && [line][1..] == [];
    assert Unlines([line]) == line + CRLF + "";
    assert Unlines([start] + [line]) == start + CRLF + Unlines([line]);
    var before := start + CRLF + "X: ";
    assert Unlines([start] + [line]) + CRLF == before + value + CRLF + CRLF;
    assert |before| == 19;
  }

  lemma LongGetFields(m: Message, value: string)
    requires m == LongGet(value) && Good(m) && AllFields(m) == m.fields
    requires ParseRequest(NO_REQUEST, Print(m)).0.headers.fields == Bind(map[], FieldPairs(AllFields(m)))
    ensures ContentLength(Meant(m)) == 0
  {
    assert Unfolded(value, []) == value;
    assert FieldPairs(m.fields) == [Pair("X", value)];
    assert [Pair("X", value)][1..] == [];
    assert Bind(map[], [Pair("X", value)]) == map["X" := value];
  }

  /** Two chunks read into an empty buffer by the code: the second lies over the first. */
  lemma TwoChunksRead(b: Window, data: string)
    requires Readable(b) == 0 && |b.bytes| == DEFAULT_SIZE && READ_CHUNK < |data| <= 2 * READ_CHUNK
    ensures var p := ReadPass(AtReadEnd, b, Bytes(data, WouldBlock)); var last := data[READ_CHUNK..];
      p.ok && |last| <= |Contents(p.buf)| && Contents(p.buf)[..|last|] == last
  {
    var first, last := data[..READ_CHUNK], data[READ_CHUNK..];
    var parts := [first, last];
    assert parts[1..] == [last] && [last][1..] == [];
    assert Chunks([last], WouldBlock) == Bytes(last, Chunks([], WouldBlock));
    assert Chunks(parts, WouldBlock) == Bytes(first, Bytes(last, WouldBlock));
    assert RoomFor(READ_CHUNK, DEFAULT_SIZE, [last]);
    LastChunkComesFirst(b, parts, WouldBlock);
    assert first[..READ_CHUNK] == first;
    ReadPassTakesAll(AtReadEnd, b, Bytes(data, WouldBlock));
    assert Incoming(Bytes(data, WouldBlock)) == data + Incoming(WouldBlock);
  }

  /** What a stream that waits for a head makes of an unread text with a blank line. */
  lemma BlankExtracted(s: Stream, line: string, more: string)
    requires s.readBytes == 0 && s.readDelimiter == BLANK && '\r' !in line
    requires Contents(s.readBuf) == line + CRLF + CRLF + more
    ensures Extract(s).posted == s.posted + Notice(ReadDone(line + CRLF + CRLF), s.readCb)
    ensures Extract(s).closed == s.closed && Extract(s).closeCb == s.closeCb && !Extract(s).readUntilClose == !s.readUntilClose
  {
    var c := Contents(s.readBuf);
    BlankAfterLastLine(line, more);
    FirstIsFound(c, BLANK, |line|);
    assert c[..|line| + 4] == line + CRLF + CRLF;
  }

  /** A line without spaces is no request: the connection closes. */
  lemma NoRequestCloses(c: Conn, fill: Fill, line: string, input: Input, output: Output)
    requires ' ' !in line && '\r' !in line
    ensures var (c', go) := OnHeaders(c, fill, line + CRLF + CRLF, input, output);
      !go && c'.stream == Close(c.stream) && c'.requestFinished == c.requestFinished
  {
    FindCrlfFirst(line, CRLF);
    SplitOnce(line, ' ', "");
    assert (line + CRLF + CRLF)[..|line|] == line;
  }

  lemma MangledRead(s: Stream, value: string)
    requires Straddles(value) && s.readBytes == 0 && s.readDelimiter == BLANK && Contents(s.readBuf) == ""
    requires |s.readBuf.bytes| == DEFAULT_SIZE
    ensures var (s', failed) := HandleRead(s, AtReadEnd, Bytes(Print(LongGet(value)), WouldBlock));
      && !failed && s'.posted == s.posted + Notice(ReadDone(value[1005..] + CRLF + CRLF), s.readCb)
      && s'.closed == s.closed && s'.closeCb == s.closeCb && s'.readUntilClose == s.readUntilClose
  {
    LongGetPrints(value);
    assert Readable(s.readBuf) == |Contents(s.readBuf)|;
    hide ReadPass, Print, LongGet, Contents, Trimmed, Extract;
    var head, last := Print(LongGet(value)), value[1005..] + CRLF + CRLF;
    TwoChunksRead(s.readBuf, head);
    var p := ReadPass(AtReadEnd, s.readBuf, Bytes(head, WouldBlock));
    var c := Contents(p.buf);
    assert c == last + c[|last|..];
    BlankExtracted(Receive(s, p), value[1005..], c[|last|..]);
  }

  /** The event pass over such a head announces its second chunk as the head. */
  lemma MangledPass(s: Stream, value: string)
    requires Straddles(value) && s.readBytes == 0 && s.readDelimiter == BLANK && Contents(s.readBuf) == ""
    requires |s.readBuf.bytes| == DEFAULT_SIZE && !s.closed && !s.connecting && !s.readUntilClose
    requires s.posted == [] && s.readCb == Some(ON_HEADERS)
    ensures var s' := HandleEvents(s, AtReadEnd, READ, None, Bytes(Print(LongGet(value)), WouldBlock), Refuses);
      && s'.posted == [Task(ReadDone(value[1005..] + CRLF + CRLF), ON_HEADERS)]
      && !s'.closed && !s'.readUntilClose
  {
    LongGetIsGood(value);
    hide Print, LongGet, HandleRead, Trimmed;
    MangledRead(s, value);
  }

  lemma MangledIsDoomed(s: Stream, value: string)
    requires Fresh(s) && s.reachable && Straddles(value)
    ensures var v := Accepted(s, AtReadEnd, WouldBlock);
      Doomed(Advance(Advance(v, AtReadEnd, Arrives(Print(LongGet(value)))), AtReadEnd, TICK))
  {
    LongGetIsGood(value);
    HeadWaits(s, AtReadEnd);
    var v, head := Accepted(s, AtReadEnd, WouldBlock), Print(LongGet(value));
    assert |v.http.conn.stream.readBuf.bytes| == DEFAULT_SIZE by { AcceptedIsTended(s, AtReadEnd, WouldBlock); }
    hide Accepted, Print, LongGet, HandleEvents, OnHeaders, Trimmed, Close;
    MangledPass(v.http.conn.stream, value);
    EventsAdvance(v, AtReadEnd, READ, Bytes(head, WouldBlock), Refuses);
    var v1 := Advance(v, AtReadEnd, Arrives(head));
    var c := v1.http.conn;
    assert ' ' !in value[1005..] && '\r' !in value[1005..];
    NoRequestCloses(c, AtReadEnd, value[1005..], WouldBlock, Refuses);
    HeadNoticeIs(v1, AtReadEnd, WouldBlock, Refuses);
    CloseReadsNothing(c.stream);
    CloseCloses(c.stream);
    CarriedOn(c.stream, Close(c.stream), 1, []);
  }

  lemma LongHeadArrives(s: Stream, value: string)
    requires Fresh(s) && s.reachable && Straddles(value)
    ensures AdvanceAll(Accepted(s, AtWriteEnd, WouldBlock), AtWriteEnd, Moments([Print(LongGet(value))])).phase == Dispatched
  {
    LongGetPrints(value);
    var m := LongGet(value);
    assert Good(m) && Form(m, "").1;
    hide Declares, Form, Accepted, Advance, AdvanceAll, Moments, Print, LongGet, Exact, Good, Trimmed;
    var head := Print(m);
    assert [head][1..] == [] && Flatten([head]) == head + Flatten([]) && head + "" == head;
    assert HeadFits(0, |head|, [head]) by { assert HeadFits(|head|, |head|, []); }
    RequestArrivesIff(s, m, "", [head]);
  }

  /**
   What the place of a read does to a connection: a head of more than a chunk, in one piece, reaches
   the handler when reads land at the write end. Where the code has them land, its second chunk is
   taken for the head, which closes the connection for good.
   */
  lemma LongHeadIsMangled(s: Stream, value: string, more: seq<Move>)
    requires Fresh(s) && s.reachable && Straddles(value)
    ensures var moves := Moments([Print(LongGet(value))]);
      && AdvanceAll(Accepted(s, AtWriteEnd, WouldBlock), AtWriteEnd, moves).phase == Dispatched
      && AdvanceAll(Accepted(s, AtReadEnd, WouldBlock), AtReadEnd, moves + more).phase != Dispatched
  {
    hide Accepted, Advance, Print, Doomed, Straddles;
    LongHeadArrives(s, value);
    MangledIsDoomed(s, value);
    var head, v := Print(LongGet(value)), Accepted(s, AtReadEnd, WouldBlock);
    assert [head][1..] == [];
    assert Moments([head]) + more == [Arrives(head), TICK, TICK] + more;
    ThreeMoves(v, AtReadEnd, Arrives(head), TICK, TICK, more);
    var v2 := Advance(Advance(v, AtReadEnd, Arrives(head)), AtReadEnd, TICK);
    DoomedStays(v2, AtReadEnd, TICK);
    DoomedForGood(Advance(v2, AtReadEnd, TICK), AtReadEnd, more);
  }
}
