/**
 A client that sends one request in pieces of its own choosing: exactly when the request reaches
 its handler. Each piece is read as it arrives, and the loop then runs what that has posted.
 */
module HttpPieces {
  import opened Common
  import opened LoopModel
  import opened Buffers
  import opened StreamModel
  import opened StreamProofs
  import opened StreamReads
  import opened StreamGrows
  import opened Text
  import opened HttpParse
  import opened HttpRoundTrip
  import opened HttpModel
  import opened HttpProofs
  import opened HttpLifecycle
  import opened HttpClosed
  import opened HttpNotices
  import opened HttpArrival

  const TICK := LoopRuns(WouldBlock, Refuses)

  function Arrives(piece: string): Move { StreamEvents(READ, Bytes(piece, WouldBlock), Refuses) }

  /** A piece, and two turns of the loop: the notice of the head may post that of the body. */
  function Moments(pieces: seq<string>): seq<Move> {
    if pieces == [] then [] else [Arrives(pieces[0]), TICK, TICK] + Moments(pieces[1..])
  }

  /** What arrives before the head is complete, with the piece that completes it, leaves a chunk of room. */
  predicate HeadFits(held: nat, head: nat, pieces: seq<string>)
    decreases |pieces|
  {
    held >= head || pieces == []
    || (held + |pieces[0]| + READ_CHUNK <= DEFAULT_SIZE && HeadFits(held + |pieces[0]|, head, pieces[1..]))
  }

  // ------------------------------------------------------------------ nothing more comes

  /** Closed, with no data left to hand over. */
  ghost predicate Doomed(v: Server) {
    var s, ran := v.http.conn.stream, v.http.ran;
    && v.phase != Dispatched && s.closed && !v.http.conn.requestFinished
    && ran <= |s.posted| && Carried(s.posted, ran) == []
  }

  lemma DoomedStays(v: Server, fill: Fill, mv: Move)
    requires Doomed(v)
    ensures Doomed(Advance(v, fill, mv))
  {
    match mv
    case StreamEvents(events, input, output) => ClosedStreamIdles(v.http.conn.stream, fill, events, input, output);
    case HandlerCalls(_) =>
    case LoopRuns(input, output) =>
      var posted, ran := v.http.conn.stream.posted, v.http.ran;
      if ran < |posted| { NextCarried(posted, ran); }
      OtherNotice(v, fill, input, output);
  }

  lemma {:induction false} DoomedForGood(v: Server, fill: Fill, moves: seq<Move>)
    requires Doomed(v)
    ensures AdvanceAll(v, fill, moves).phase != Dispatched
    decreases |moves|
  {
    if moves != [] {
      DoomedStays(v, fill, moves[0]);
      DoomedForGood(Advance(v, fill, moves[0]), fill, moves[1..]);
    }
  }

  /** The request has reached its handler as it was meant. */
  ghost predicate Reached(v: Server, m: Message, body: string)
    requires Good(m)
  {
    v.phase == Dispatched && Exact(v.http.conn, m, body)
  }

  lemma ReachedStays(v: Server, fill: Fill, mv: Move, m: Message, body: string)
    requires Good(m) && Reached(v, m, body)
    ensures Reached(Advance(v, fill, mv), m, body)
  {
    DispatchedStaysExact(v, fill, mv, m, body);
    DispatchedNow(v, fill, mv);
  }

  lemma DispatchedNow(v: Server, fill: Fill, mv: Move)
    requires v.phase == Dispatched
    ensures Advance(v, fill, mv).phase == Dispatched
  {
  }

  lemma {:induction false} ReachedForGood(v: Server, fill: Fill, moves: seq<Move>, m: Message, body: string)
    requires Good(m) && Reached(v, m, body)
    ensures Reached(AdvanceAll(v, fill, moves), m, body)
    decreases |moves|
  {
    hide Advance, Good, Reached;
    if moves != [] {
      ReachedStays(v, fill, moves[0], m, body);
      ReachedForGood(Advance(v, fill, moves[0]), fill, moves[1..], m, body);
    }
  }

  // --------------------------------------------------------------------- staying open

  /** Only data is announced from there on. */
  ghost predicate OnlyData(posted: seq<Task>, from: nat) {
    forall i :: from <= i < |posted| ==> posted[i].kind.ReadDone?
  }

  lemma {:induction false} DataIsCarried(posted: seq<Task>, from: nat)
    requires from <= |posted| && OnlyData(posted, from)
    ensures |Carried(posted, from)| == |posted| - from
    decreases |posted| - from
  {
    if from < |posted| { DataIsCarried(posted, from + 1); }
  }

  /** A stream on which nothing is written, waiting for data. */
  ghost predicate Listens(s: Stream) { Sound(s) && !s.closed && !s.connecting && s.writeCb.None? }

  /** One pass over a piece on such a stream, with or without room for it. */
  lemma PieceRead(s: Stream, fill: Fill, piece: string)
    requires Listens(s) && !s.readUntilClose && piece != ""
    ensures var s' := HandleEvents(s, fill, READ, None, Bytes(piece, WouldBlock), Refuses);
      && s.posted <= s'.posted
      && if Readable(s.readBuf) + |piece| + READ_CHUNK <= DEFAULT_SIZE
         then !s'.closed && s'.writeBuf == s.writeBuf && OnlyData(s'.posted, |s.posted|)
              && s'.log.received == s.log.received + piece && s'.reachable == s.reachable
         else s'.closed && Hands(s, s', [])
  {
    hide ReadPass, Wakeful, CloseIsLast, Extract, Close;
    var input := Bytes(piece, WouldBlock);
    ReadPassTakesAll(fill, s.readBuf, input);
    assert Incoming(input) == piece + Incoming(WouldBlock) == piece;
    assert Blocks(input);
    var s1 := Receive(s, ReadPass(fill, s.readBuf, input));
    NothingHanded(s, s1);
    CloseReadsNothing(s1);
    CloseCloses(s1);
    HandsOn(s, s1, Close(s1), [], []);
    ExtractAnnounces(s1);
  }

  lemma ExtractAnnounces(s: Stream)
    requires !s.readUntilClose
    ensures var s' := Extract(s);
      && s.posted <= s'.posted && OnlyData(s'.posted, |s.posted|) && !s'.readUntilClose
      && s'.closed == s.closed && s'.writeBuf == s.writeBuf && s'.writeCb == s.writeCb
      && s'.log.received == s.log.received && s'.reachable == s.reachable
  {
    hide Find, Contents;
  }

  lemma ContinueGoesOut(s: Stream, r: HttpRequest)
    requires Listens(s) && StreamModel.Idle(s) && |CONTINUE| <= Room(s.writeBuf)
    ensures var s1 := Encourage(s, r, Refuses);
      && Listens(s1) && StreamModel.Idle(s1) && s1.posted == s.posted && s1.log.received == s.log.received
      && s1.reachable == s.reachable
  {
    hide Sound, WriteBytes;
    EncourageDoes(s, r, Refuses);
    EncourageSteady(s, r, Refuses);
    EncourageReadsNothing(s, r, Refuses);
    if Expects(r) {
      BytesGrow(s, CONTINUE, Refuses);
      ContinueDoes(s, Refuses);
      assert s.posted + [] == s.posted;
    }
  }

  /** Asking an idle listening stream for a body leaves it open. */
  lemma AskingLeavesOpen(s: Stream, n: int)
    requires Listens(s) && StreamModel.Idle(s) && n > 0
    ensures var s' := ReadBytes(s, AtWriteEnd, n, Some(ON_BODY), WouldBlock).0;
      && !s'.closed && s.posted <= s'.posted && OnlyData(s'.posted, |s.posted|)
      && s'.log.received == s.log.received && s'.reachable == s.reachable
  {
    hide Wakeful, CloseIsLast, Extract, Contents;
    var asked := Requested(s, Count(n), Some(ON_BODY)).(readBytes := n, readCb := Some(ON_BODY));
    var s1 := Receive(asked, ReadPass(AtWriteEnd, s.readBuf, WouldBlock));
    assert s.log.received + "" == s.log.received;
    ExtractAnnounces(s1);
  }

  // --------------------------------------------------------------------- a connection

  /** Still reading the request, on an open stream, with nothing but data announced. */
  ghost predicate Reading(v: Server, m: Message, body: string)
    requires Good(m)
  {
    var s, ran := v.http.conn.stream, v.http.ran;
    && Tended(v) && Early(v) && OnItsWay(v, m, body) && v.phase != Dispatched && !s.closed
    && OnlyData(s.posted, ran) && (v.phase == AwaitingHead ==> |CONTINUE| <= Room(s.writeBuf))
    && s.reachable
  }

  /** And every notice has been run. */
  ghost predicate AtRest(v: Server, m: Message, body: string)
    requires Good(m)
  {
    Reading(v, m, body) && v.http.ran == |v.http.conn.stream.posted|
  }

  lemma ReadingListens(v: Server, m: Message, body: string)
    requires Good(m) && Reading(v, m, body)
    ensures Listens(v.http.conn.stream) && !v.http.conn.stream.readUntilClose && v.http.ran <= |v.http.conn.stream.posted|
    ensures !v.http.conn.requestFinished && Disciplined(v.http.conn.stream)
    ensures Readable(v.http.conn.stream.readBuf) + READ_CHUNK <= DEFAULT_SIZE && v.http.conn.stream.slot.Some?
  {
    hide Good, CloseIsLast, Meant;
  }

  /** How much of the request is there, by what is still to be run. */
  lemma ReadingHead(v: Server, m: Message, body: string)
    requires Good(m) && Reading(v, m, body) && v.phase == AwaitingHead && v.http.conn.stream.log.received <= Print(m) + body
    ensures var s := v.http.conn.stream;
      && (v.http.ran == |s.posted| <==> |s.log.received| < |Print(m)|)
      && (v.http.ran == |s.posted| ==> Contents(s.readBuf) == s.log.received)
      && (v.http.ran < |s.posted| ==>
            v.http.ran + 1 == |s.posted| && HeadOnItsWay(v.http.conn, [Print(m)], m))
  {
    assert m.query.Some? ==> m.query.value != [];
    hide Good, Print, Wakeful, CloseIsLast, Tended, Early, ServeOne;
    var s := v.http.conn.stream;
    DataIsCarried(s.posted, v.http.ran);
    if v.http.ran == |s.posted| && |Print(m)| <= |s.log.received| {
      assert s.log.received == Print(m) + s.log.received[|Print(m)|..];
      HeadIsFound(m, s.log.received[|Print(m)|..]);
    }
  }

  lemma HeadIsFound(m: Message, more: string)
    requires Good(m)
    ensures ServeOne(Until(BLANK), Print(m) + more).Some?
  {
    HeadEndsFirst(m, more);
  }

  lemma ReadingBody(v: Server, m: Message, body: string)
    requires Good(m) && Reading(v, m, body) && v.phase == AwaitingBody && v.http.conn.stream.log.received <= Print(m) + body
    ensures var s := v.http.conn.stream;
      && body != ""
      && (v.http.ran == |s.posted| <==> s.log.received != Print(m) + body)
      && (v.http.ran == |s.posted| ==> s.log.received == Print(m) + Contents(s.readBuf))
      && (v.http.ran < |s.posted| ==>
            v.http.ran + 1 == |s.posted| && BodyOnItsWay(v.http.conn, [body], m, body))
  {
    assert m.query.Some? ==> m.query.value != [];
    hide Good, Print, Wakeful, CloseIsLast, Tended, Early, Meant;
    var s := v.http.conn.stream;
    DataIsCarried(s.posted, v.http.ran);
  }

  lemma PieceStep(v: Server, piece: string, m: Message, body: string)
    requires Declares(m, body) && AtRest(v, m, body) && piece != ""
    requires v.http.conn.stream.log.received + piece <= Print(m) + body
    ensures var s, v1 := v.http.conn.stream, Advance(v, AtWriteEnd, Arrives(piece));
      if Readable(s.readBuf) + |piece| + READ_CHUNK <= DEFAULT_SIZE
      then Reading(v1, m, body) && v1.phase == v.phase && v1.http.conn.stream.log.received == s.log.received + piece
      else Doomed(v1)
  {
    ReadingListens(v, m, body);
    assert Good(m) && (m.query.Some? ==> m.query.value != []);
    hide Good, Declares, Print, Sound, HandleEvents, OnItsWay, Tended, Early, Advance;
    var s, mv := v.http.conn.stream, Arrives(piece);
    var s' := HandleEvents(s, AtWriteEnd, READ, None, Bytes(piece, WouldBlock), Refuses);
    EventsAdvance(v, AtWriteEnd, READ, Bytes(piece, WouldBlock), Refuses);
    PieceRead(s, AtWriteEnd, piece);
    if Readable(s.readBuf) + |piece| + READ_CHUNK <= DEFAULT_SIZE {
      AdvanceTends(v, AtWriteEnd, mv);
      AdvanceStaysEarly(v, AtWriteEnd, mv);
      AdvanceOnItsWay(v, mv, m, body, Print(m) + body);
    } else {
      CarriedOn(s, s', v.http.ran, []);
    }
  }

  /** With every notice run, a turn of the loop does nothing. */
  lemma TickRests(v: Server, fill: Fill)
    requires v.http.ran == |v.http.conn.stream.posted|
    ensures Advance(v, fill, TICK) == v
  {
  }

  /** What the head leads to: the handler at once, or a body asked for on a stream that stays open. */
  lemma HeadLeads(c: Conn, m: Message, body: string)
    requires Declares(m, body) && c.request == NO_REQUEST
    requires Listens(c.stream) && StreamModel.Idle(c.stream) && |CONTINUE| <= Room(c.stream.writeBuf)
    ensures var (c', go) := OnHeaders(c, AtWriteEnd, Print(m), WouldBlock, Refuses); var s, s' := c.stream, c'.stream;
      && (go <==> body == "")
      && (body != "" ==>
            && !s'.closed && s.posted <= s'.posted && OnlyData(s'.posted, |s.posted|)
            && s'.log.received == s.log.received && s'.reachable == s.reachable)
  {
    ParsePrint(m);
    assert m.query.Some? ==> m.query.value != [];
    hide ParseRequest, Print, Good, ReadBytes, Encourage, Sound;
    if body != "" {
      BodyAwaited(c, AtWriteEnd, Print(m), WouldBlock, Refuses);
      ContinueGoesOut(c.stream, Meant(m));
      AskingLeavesOpen(Encourage(c.stream, Meant(m), Refuses), |body|);
    }
  }

  lemma TickHead(v: Server, m: Message, body: string)
    requires Declares(m, body) && Reading(v, m, body) && v.phase == AwaitingHead
    requires v.http.conn.stream.log.received <= Print(m) + body && v.http.ran < |v.http.conn.stream.posted|
    ensures var v1 := Advance(v, AtWriteEnd, TICK);
      if body == "" then Reached(v1, m, body)
      else Reading(v1, m, body) && v1.phase == AwaitingBody
           && v1.http.conn.stream.log.received == v.http.conn.stream.log.received
  {
    ReadingListens(v, m, body);
    ReadingHead(v, m, body);
    var c, s, ran := v.http.conn, v.http.conn.stream, v.http.ran;
    NextCarried(s.posted, ran);
    assert Good(m) && (m.query.Some? ==> m.query.value != []);
    hide Good, Declares, Print, OnHeaders, Sound, Tended, Early, Meant;
    HeadCarried(c, Print(m), [], m);
    HeadTask(v, m);
    HeadNoticeIs(v, AtWriteEnd, WouldBlock, Refuses);
    HeadLeads(c, m, body);
    AdvanceTends(v, AtWriteEnd, TICK);
    AdvanceStaysEarly(v, AtWriteEnd, TICK);
    AdvanceOnItsWay(v, TICK, m, body, Print(m) + body);
  }

  lemma HeadTask(v: Server, m: Message)
    requires Good(m) && v.phase == AwaitingHead && v.http.ran + 1 == |v.http.conn.stream.posted|
    requires OnlyData(v.http.conn.stream.posted, v.http.ran)
    requires HeadOnItsWay(v.http.conn, Carried(v.http.conn.stream.posted, v.http.ran), m)
    ensures v.http.conn.stream.posted[v.http.ran].kind == ReadDone(Print(m))
  {
    var posted, ran := v.http.conn.stream.posted, v.http.ran;
    NextCarried(posted, ran);
    assert Carried(posted, ran + 1) == [] && posted[ran].kind.ReadDone?;
    assert Carried(posted, ran)[0] == posted[ran].kind.data;
  }

  lemma BodyTask(v: Server, m: Message, body: string)
    requires Good(m) && v.phase == AwaitingBody && v.http.ran + 1 == |v.http.conn.stream.posted|
    requires OnlyData(v.http.conn.stream.posted, v.http.ran) && !v.http.conn.stream.closed
    requires BodyOnItsWay(v.http.conn, Carried(v.http.conn.stream.posted, v.http.ran), m, body)
    ensures v.http.conn.stream.posted[v.http.ran].kind == ReadDone(body)
  {
    var posted, ran := v.http.conn.stream.posted, v.http.ran;
    NextCarried(posted, ran);
    assert Carried(posted, ran + 1) == [] && posted[ran].kind.ReadDone?;
    assert Carried(posted, ran)[0] == posted[ran].kind.data;
  }

  lemma BodyNoticeIs(v: Server, fill: Fill, input: Input, output: Output)
    requires v.phase == AwaitingBody && v.http.ran < |v.http.conn.stream.posted|
    requires v.http.conn.stream.posted[v.http.ran].kind.ReadDone?
    ensures var h := v.http; var (c, go) := OnRequestBody(h.conn, h.conn.stream.posted[h.ran].kind.data);
      RunNotice(v, fill, input, output) ==
      Server(h.(conn := c, ran := h.ran + 1), if go then Dispatched else AwaitingBody)
  {
    hide OnRequestBody;
  }

  lemma RefusedBodyCloses(c: Conn, data: string)
    requires !OnRequestBody(c, data).1
    ensures OnRequestBody(c, data).0.stream == Close(c.stream)
    ensures OnRequestBody(c, data).0.requestFinished == c.requestFinished
  {
    hide Close, ParsePairs, Split;
  }

  lemma TickBody(v: Server, m: Message, body: string)
    requires Declares(m, body) && Reading(v, m, body) && v.phase == AwaitingBody
    requires v.http.conn.stream.log.received <= Print(m) + body && v.http.ran < |v.http.conn.stream.posted|
    ensures var v1 := Advance(v, AtWriteEnd, TICK); if Form(m, body).1 then Reached(v1, m, body) else Doomed(v1)
  {
    ReadingListens(v, m, body);
    ReadingBody(v, m, body);
    var c, s, ran := v.http.conn, v.http.conn.stream, v.http.ran;
    BodyTask(v, m, body);
    NextCarried(s.posted, ran);
    hide OnRequestBody, Form, Meant, Declares, Sound, Close, Tended, Early;
    BodyCarried(c, body, [], m, body);
    BodyNoticeIs(v, AtWriteEnd, WouldBlock, Refuses);
    BodyRuns(c, ran + 1, m, body);
    if !Form(m, body).1 {
      RefusedBodyCloses(c, body);
      CloseReadsNothing(s);
      CloseCloses(s);
      CarriedOn(s, Close(s), ran + 1, []);
    }
  }

  /** The state after two turns of the loop. */
  function Turned(v: Server): Server { Advance(Advance(v, AtWriteEnd, TICK), AtWriteEnd, TICK) }

  /** How a piece that found room ends, by how much of the request is then there. */
  ghost predicate CameTo(v: Server, all: string, inHead: bool, m: Message, body: string)
    requires Good(m)
  {
    var received := v.http.conn.stream.log.received;
    if inHead && |all| < |Print(m)| then AtRest(v, m, body) && v.phase == AwaitingHead && received == all
    else if all != Print(m) + body then AtRest(v, m, body) && v.phase == AwaitingBody && received == all
    else if Form(m, body).1 then Reached(v, m, body)
    else Doomed(v)
  }

  lemma BodyTurns(v: Server, m: Message, body: string)
    requires Declares(m, body) && Reading(v, m, body) && v.phase == AwaitingBody
    requires v.http.conn.stream.log.received <= Print(m) + body
    ensures CameTo(Advance(v, AtWriteEnd, TICK), v.http.conn.stream.log.received, false, m, body)
    ensures CameTo(Turned(v), v.http.conn.stream.log.received, false, m, body)
  {
    ReadingBody(v, m, body);
    var v1 := Advance(v, AtWriteEnd, TICK);
    if v.http.ran == |v.http.conn.stream.posted| {
      TickRests(v, AtWriteEnd);
    } else {
      TickBody(v, m, body);
      hide Advance, Doomed, Reading, Form, Meant, Declares, Exact;
      if Form(m, body).1 { ReachedStays(v1, AtWriteEnd, TICK, m, body); } else { DoomedStays(v1, AtWriteEnd, TICK); }
    }
  }

  lemma HeadTurns(v: Server, m: Message, body: string)
    requires Declares(m, body) && Reading(v, m, body) && v.phase == AwaitingHead
    requires v.http.conn.stream.log.received <= Print(m) + body
    ensures CameTo(Turned(v), v.http.conn.stream.log.received, true, m, body)
  {
    ReadingHead(v, m, body);
    var v1, received := Advance(v, AtWriteEnd, TICK), v.http.conn.stream.log.received;
    if v.http.ran == |v.http.conn.stream.posted| {
      TickRests(v, AtWriteEnd);
    } else {
      TickHead(v, m, body);
      assert body == "" ==> Form(m, body).1;
      hide Advance, Doomed, Reading, Form, Meant, Declares, Exact, AtRest, OnlyData, Print, Good;
      if body == "" {
        ReachedStays(v1, AtWriteEnd, TICK, m, body);
        assert received == Print(m) + body;
      } else {
        BodyTurns(v1, m, body);
      }
    }
  }

  lemma ThreeMoves(v: Server, fill: Fill, a: Move, b: Move, c: Move, rest: seq<Move>)
    ensures AdvanceAll(v, fill, [a, b, c] + rest) ==
      AdvanceAll(Advance(Advance(Advance(v, fill, a), fill, b), fill, c), fill, rest)
  {
    hide Advance;
    var v1 := Advance(v, fill, a);
    assert [a, b, c] + rest == [a] + ([b] + ([c] + rest));
    MoveFirst(v, fill, a, [b] + ([c] + rest));
    MoveFirst(v1, fill, b, [c] + rest);
    MoveFirst(Advance(v1, fill, b), fill, c, rest);
  }

  lemma MoveFirst(v: Server, fill: Fill, mv: Move, rest: seq<Move>)
    ensures AdvanceAll(v, fill, [mv] + rest) == AdvanceAll(Advance(v, fill, mv), fill, rest)
  {
    hide Advance;
    assert ([mv] + rest)[1..] == rest;
  }

  /** A piece with its two turns of the loop. */
  lemma PieceComesTo(v: Server, piece: string, m: Message, body: string)
    requires Declares(m, body) && AtRest(v, m, body) && piece != ""
    requires v.http.conn.stream.log.received + piece <= Print(m) + body
    ensures var s, v3 := v.http.conn.stream, Turned(Advance(v, AtWriteEnd, Arrives(piece)));
      if Readable(s.readBuf) + |piece| + READ_CHUNK <= DEFAULT_SIZE
      then CameTo(v3, s.log.received + piece, v.phase == AwaitingHead, m, body)
      else Doomed(v3)
  {
    PieceStep(v, piece, m, body);
    hide Advance, Doomed, Reading, Declares, CameTo, Good;
    var s, v1 := v.http.conn.stream, Advance(v, AtWriteEnd, Arrives(piece));
    if Readable(s.readBuf) + |piece| + READ_CHUNK <= DEFAULT_SIZE {
      if v.phase == AwaitingHead { HeadTurns(v1, m, body); } else { BodyTurnsHere(v, v1, m, body); }
    } else {
      DoomedStays(v1, AtWriteEnd, TICK);
      DoomedStays(Advance(v1, AtWriteEnd, TICK), AtWriteEnd, TICK);
    }
  }

  lemma BodyTurnsHere(v: Server, v1: Server, m: Message, body: string)
    requires Declares(m, body) && AtRest(v, m, body) && v.phase != AwaitingHead && v1.phase == v.phase
    requires Reading(v1, m, body) && v1.http.conn.stream.log.received <= Print(m) + body
    ensures CameTo(Turned(v1), v1.http.conn.stream.log.received, false, m, body)
  {
    hide Tended, Early, OnItsWay, Print;
    BodyTurns(v1, m, body);
  }

  // ----------------------------------------------------------------------- all pieces

  /** Where a connection with every notice run stands. */
  lemma RestsAt(v: Server, m: Message, body: string)
    requires Good(m) && AtRest(v, m, body) && v.http.conn.stream.log.received <= Print(m) + body
    ensures var s := v.http.conn.stream;
      if v.phase == AwaitingHead then |s.log.received| < |Print(m)| && Readable(s.readBuf) == |s.log.received|
      else s.log.received != Print(m) + body && |Print(m)| <= |s.log.received|
           && Readable(s.readBuf) == |s.log.received| - |Print(m)|
  {
    if v.phase == AwaitingHead { ReadingHead(v, m, body); } else { ReadingBody(v, m, body); }
  }

  lemma NextPieces(received: string, pieces: seq<string>, all: string)
    requires pieces != [] && received + Flatten(pieces) == all
    ensures received + pieces[0] <= all && (received + pieces[0]) + Flatten(pieces[1..]) == all
    ensures received + pieces[0] == all <==> |received| + |pieces[0]| == |all|
  {
    ConcatAssoc(received, pieces[0], Flatten(pieces[1..]));
  }

  /** The condition, in numbers: how much has come of a head and a body this long. */
  predicate WillArrive(inHead: bool, come: nat, head: nat, body: nat, form: bool, pieces: seq<string>) {
    (inHead ==> HeadFits(come, head, pieces)) && body + READ_CHUNK <= DEFAULT_SIZE && form
  }

  lemma WillArriveNext(inHead: bool, come: nat, head: nat, body: nat, form: bool, pieces: seq<string>)
    requires pieces != [] && (if inHead then come < head else head <= come)
    requires come + |pieces[0]| <= head + body
    ensures var now, rest := come + |pieces[0]|, pieces[1..];
      WillArrive(inHead, come, head, body, form, pieces) ==
        if (if inHead then come else come - head) + |pieces[0]| + READ_CHUNK > DEFAULT_SIZE then false
        else if inHead && now < head then WillArrive(true, now, head, body, form, rest)
        else if now < head + body then WillArrive(false, now, head, body, form, rest)
        else form
  {
    var now, rest := come + |pieces[0]|, pieces[1..];
    if inHead {
      assert HeadFits(come, head, pieces) <==> now + READ_CHUNK <= DEFAULT_SIZE && HeadFits(now, head, rest);
      if head <= now { assert HeadFits(now, head, rest); }
    }
  }

  /** The request arrives if and only if the condition says so, and then unchanged. */
  ghost predicate ArrivesIff(v: Server, moves: seq<Move>, condition: bool, m: Message, body: string)
    requires Good(m)
  {
    var v' := AdvanceAll(v, AtWriteEnd, moves);
    (v'.phase == Dispatched <==> condition) && (v'.phase == Dispatched ==> Exact(v'.http.conn, m, body))
  }

  lemma EndedIff(v: Server, moves: seq<Move>, m: Message, body: string)
    requires Good(m) && if Form(m, body).1 then Reached(v, m, body) else Doomed(v)
    ensures ArrivesIff(v, moves, Form(m, body).1, m, body)
  {
    hide Form, Doomed, Good, Exact;
    if Form(m, body).1 { ReachedForGood(v, AtWriteEnd, moves, m, body); } else { DoomedForGood(v, AtWriteEnd, moves); }
  }

  lemma ArrivesLater(v: Server, v3: Server, piece: string, rest: seq<Move>, condition: bool, m: Message, body: string)
    requires Good(m) && v3 == Turned(Advance(v, AtWriteEnd, Arrives(piece))) && ArrivesIff(v3, rest, condition, m, body)
    ensures ArrivesIff(v, [Arrives(piece), TICK, TICK] + rest, condition, m, body)
  {
    hide Advance, Good, Exact;
    ThreeMoves(v, AtWriteEnd, Arrives(piece), TICK, TICK, rest);
  }

  lemma DoomedIff(v: Server, moves: seq<Move>, m: Message, body: string)
    requires Good(m) && Doomed(v)
    ensures ArrivesIff(v, moves, false, m, body)
  {
    hide Doomed, Good, Exact;
    DoomedForGood(v, AtWriteEnd, moves);
  }

  /** The condition on the pieces still to come, at a connection this far. */
  predicate Coming(v: Server, m: Message, body: string, pieces: seq<string>)
    requires Good(m)
  {
    WillArrive(v.phase == AwaitingHead, |v.http.conn.stream.log.received|, |Print(m)|, |body|, Form(m, body).1, pieces)
  }

  /** A piece first, under a condition that comes to the same. */
  lemma PieceFirst(v: Server, pieces: seq<string>, here: bool, there: bool, m: Message, body: string)
    requires Good(m) && pieces != [] && here == there
    requires ArrivesIff(Turned(Advance(v, AtWriteEnd, Arrives(pieces[0]))), Moments(pieces[1..]), there, m, body)
    ensures ArrivesIff(v, Moments(pieces), here, m, body)
  {
    hide Advance, Good, Exact;
    ArrivesLater(v, Turned(Advance(v, AtWriteEnd, Arrives(pieces[0]))), pieces[0], Moments(pieces[1..]), there, m, body);
  }

  /** The condition before and after a piece, by where the piece leads. */
  lemma ComingNext(v: Server, pieces: seq<string>, m: Message, body: string)
    requires Declares(m, body) && AtRest(v, m, body) && pieces != []
    requires v.http.conn.stream.log.received + pieces[0] <= Print(m) + body
    ensures var s, now := v.http.conn.stream, |v.http.conn.stream.log.received| + |pieces[0]|;
      var inHead, form := v.phase == AwaitingHead && now < |Print(m)|, Form(m, body).1;
      Coming(v, m, body, pieces) ==
        if Readable(s.readBuf) + |pieces[0]| + READ_CHUNK > DEFAULT_SIZE then false
        else if now < |Print(m) + body| then WillArrive(inHead, now, |Print(m)|, |body|, form, pieces[1..])
        else form
  {
    RestsAt(v, m, body);
    hide Good, Declares, AtRest, Print, Form, WillArrive, HeadFits;
    WillArriveNext(v.phase == AwaitingHead, |v.http.conn.stream.log.received|, |Print(m)|, |body|, Form(m, body).1, pieces);
  }

  predicate HasRoom(v: Server, piece: string) {
    Readable(v.http.conn.stream.readBuf) + |piece| + READ_CHUNK <= DEFAULT_SIZE
  }

  lemma NoRoomLeads(v: Server, v3: Server, m: Message, body: string, pieces: seq<string>)
    requires Declares(m, body) && AtRest(v, m, body) && pieces != [] && pieces[0] != ""
    requires v.http.conn.stream.log.received + pieces[0] <= Print(m) + body
    requires v3 == Turned(Advance(v, AtWriteEnd, Arrives(pieces[0])))
    requires !HasRoom(v, pieces[0])
    ensures ArrivesIff(v, Moments(pieces), Coming(v, m, body, pieces), m, body)
  {
    assert Good(m) && (m.query.Some? ==> m.query.value != []);
    hide Good, Declares, Print, AtRest, Advance, Doomed, Form, Reached, ArrivesIff, WillArrive, Turned, Contents, Moments;
    PieceComesTo(v, pieces[0], m, body);
    ComingNext(v, pieces, m, body);
    DoomedIff(v3, Moments(pieces[1..]), m, body);
    PieceFirst(v, pieces, Coming(v, m, body, pieces), false, m, body);
  }

  lemma LastPieceLeads(v: Server, v3: Server, m: Message, body: string, pieces: seq<string>)
    requires Declares(m, body) && AtRest(v, m, body) && pieces != [] && pieces[0] != ""
    requires v.http.conn.stream.log.received + pieces[0] <= Print(m) + body
    requires v3 == Turned(Advance(v, AtWriteEnd, Arrives(pieces[0])))
    requires HasRoom(v, pieces[0]) && v.http.conn.stream.log.received + pieces[0] == Print(m) + body
    ensures ArrivesIff(v, Moments(pieces), Coming(v, m, body, pieces), m, body)
  {
    assert Good(m) && (m.query.Some? ==> m.query.value != []);
    hide Good, Declares, Print, AtRest, Advance, Doomed, Form, Reached, ArrivesIff, WillArrive, Turned, Contents, Moments;
    PieceComesTo(v, pieces[0], m, body);
    ComingNext(v, pieces, m, body);
    EndedIff(v3, Moments(pieces[1..]), m, body);
    PieceFirst(v, pieces, Coming(v, m, body, pieces), Form(m, body).1, m, body);
  }

  lemma ComingAfter(v3: Server, all: string, inHead: bool, rest: seq<string>, m: Message, body: string)
    requires Good(m) && CameTo(v3, all, inHead, m, body) && all <= Print(m) + body && all != Print(m) + body
    ensures |all| < |Print(m) + body|
    ensures Coming(v3, m, body, rest) ==
      WillArrive(inHead && |all| < |Print(m)|, |all|, |Print(m)|, |body|, Form(m, body).1, rest)
  {
    assert m.query.Some? ==> m.query.value != [];
    hide Good, Print, AtRest, Form, WillArrive;
    var t := Print(m) + body;
    assert all == t[..|all|] && t[..|t|] == t;
  }

  /** With more to come the condition is that of the pieces left, where the piece leads. */
  lemma ComingOn(v: Server, v3: Server, m: Message, body: string, pieces: seq<string>)
    requires Declares(m, body) && AtRest(v, m, body) && pieces != [] && HasRoom(v, pieces[0])
    requires var all := v.http.conn.stream.log.received + pieces[0];
      all <= Print(m) + body && all != Print(m) + body && CameTo(v3, all, v.phase == AwaitingHead, m, body)
    ensures Coming(v, m, body, pieces) == Coming(v3, m, body, pieces[1..])
  {
    assert Good(m) && (m.query.Some? ==> m.query.value != []);
    hide Good, Declares, Print, AtRest, CameTo, Coming, Form, WillArrive, Contents;
    var all := v.http.conn.stream.log.received + pieces[0];
    assert |all| == |v.http.conn.stream.log.received| + |pieces[0]|;
    ComingNext(v, pieces, m, body);
    ComingAfter(v3, all, v.phase == AwaitingHead, pieces[1..], m, body);
  }

  /** A piece with more to come, when that arrives under its own condition. */
  lemma PieceLeads(v: Server, v3: Server, m: Message, body: string, pieces: seq<string>)
    requires Declares(m, body) && AtRest(v, m, body) && pieces != [] && pieces[0] != ""
    requires v.http.conn.stream.log.received + pieces[0] <= Print(m) + body
    requires v3 == Turned(Advance(v, AtWriteEnd, Arrives(pieces[0])))
    requires HasRoom(v, pieces[0]) && v.http.conn.stream.log.received + pieces[0] != Print(m) + body
    requires ArrivesIff(v3, Moments(pieces[1..]), Coming(v3, m, body, pieces[1..]), m, body)
    ensures ArrivesIff(v, Moments(pieces), Coming(v, m, body, pieces), m, body)
  {
    assert Good(m) && (m.query.Some? ==> m.query.value != []);
    hide Good, Declares, Print, AtRest, Advance, ArrivesIff, Turned, Contents, Moments, CameTo, Coming;
    PieceComesTo(v, pieces[0], m, body);
    ComingOn(v, v3, m, body, pieces);
    PieceFirst(v, pieces, Coming(v, m, body, pieces), Coming(v3, m, body, pieces[1..]), m, body);
  }

  /** From any point between two pieces on. */
  lemma {:induction false} RestArrivesIff(v: Server, m: Message, body: string, pieces: seq<string>)
    requires Declares(m, body) && AtRest(v, m, body) && (forall p <- pieces :: p != "")
    requires v.http.conn.stream.log.received + Flatten(pieces) == Print(m) + body
    ensures ArrivesIff(v, Moments(pieces), Coming(v, m, body, pieces), m, body)
    decreases |pieces|
  {
    var received := v.http.conn.stream.log.received;
    assert Good(m) && (m.query.Some? ==> m.query.value != []);
    assert received + "" == received && received <= Print(m) + body;
    assert pieces == [] ==> received + Flatten(pieces) == received;
    hide Good, Declares, Print, AtRest, Advance, ArrivesIff, Coming, Turned, Moments, Flatten, Contents;
    RestsAt(v, m, body);
    if pieces == [] {
      assert false;
    } else {
      assert pieces[0] in pieces;
      forall p <- pieces[1..] ensures p != "" { assert p in pieces; }
      NextPieces(received, pieces, Print(m) + body);
      var v3 := Turned(Advance(v, AtWriteEnd, Arrives(pieces[0])));
      PieceComesTo(v, pieces[0], m, body);
      if !HasRoom(v, pieces[0]) {
        NoRoomLeads(v, v3, m, body, pieces);
      } else if received + pieces[0] == Print(m) + body {
        LastPieceLeads(v, v3, m, body, pieces);
      } else {
        RestArrivesIff(v3, m, body, pieces[1..]);
        PieceLeads(v, v3, m, body, pieces);
      }
    }
  }

  /** A connection the loop never calls for stays as it is. */
  lemma {:induction false} UncalledRests(v: Server, fill: Fill, pieces: seq<string>)
    requires v.http.conn.stream.slot.None? && v.http.ran == |v.http.conn.stream.posted|
    ensures AdvanceAll(v, fill, Moments(pieces)) == v
    decreases |pieces|
  {
    if pieces != [] {
      ThreeMoves(v, fill, Arrives(pieces[0]), TICK, TICK, Moments(pieces[1..]));
      TickRests(v, fill);
      UncalledRests(v, fill, pieces[1..]);
    }
  }

  lemma AcceptedRests(s: Stream, m: Message, body: string)
    requires Fresh(s) && Good(m)
    ensures var v := Accepted(s, AtWriteEnd, WouldBlock); var t := v.http.conn.stream;
      && v.phase == AwaitingHead && t.log.received == "" && v.http.ran == |t.posted|
      && if s.reachable then AtRest(v, m, body) else t.slot.None?
  {
    AcceptedIsTended(s, AtWriteEnd, WouldBlock);
    AcceptedIsAddressed(s, AtWriteEnd, WouldBlock);
    HeadWaits(s, AtWriteEnd);
    var v := Accepted(s, AtWriteEnd, WouldBlock);
    assert Sound(v.http.conn.stream);
    hide Good, ReadPass, Find, Tended, Accepted;
    AcceptedOnItsWay(s, WouldBlock, m, body, Print(m));
  }

  /**
   A client sends a printed message and the body it declares, in pieces of any number and size: the
   request reaches its handler if and only if the descriptor is in the handler table, all that
   arrives up to the piece that completes the head, and the body, each leave a chunk of room in the
   buffer, and a form body is well-formed. It is then that message with exactly that body.
   */
  lemma RequestArrivesIff(s: Stream, m: Message, body: string, pieces: seq<string>)
    requires Fresh(s) && Declares(m, body)
    requires (forall p <- pieces :: p != "") && Flatten(pieces) == Print(m) + body
    ensures var v := AdvanceAll(Accepted(s, AtWriteEnd, WouldBlock), AtWriteEnd, Moments(pieces));
      && (v.phase == Dispatched <==>
            s.reachable && HeadFits(0, |Print(m)|, pieces) && |body| + READ_CHUNK <= DEFAULT_SIZE && Form(m, body).1)
      && (v.phase == Dispatched ==> Exact(v.http.conn, m, body))
  {
    var v := Accepted(s, AtWriteEnd, WouldBlock);
    AcceptedRests(s, m, body);
    assert "" + Flatten(pieces) == Flatten(pieces);
    assert Good(m) && (m.query.Some? ==> m.query.value != []);
    hide Accepted, AdvanceAll, Good, Declares, Print, AtRest, HeadFits, Exact, Form, Fresh, Flatten, Moments;
    if s.reachable { RestArrivesIff(v, m, body, pieces); } else { UncalledRests(v, AtWriteEnd, pieces); }
  }
}
