/**
 Which member a read notice of a connection enters: the one awaited head is bound to onHeaders, and
 everything after it to onRequestBody.
 */
module HttpNotices {
  import opened Common
  import opened LoopModel
  import opened Buffers
  import opened StreamModel
  import opened StreamProofs
  import opened HttpParse
  import opened HttpModel
  import opened HttpProofs
  import opened HttpLifecycle
  import opened HttpClosed

  /** Every read notice from there on is bound to this callback. */
  ghost predicate BoundTo(posted: seq<Task>, from: nat, cb: Script) {
    forall i :: from <= i < |posted| && posted[i].kind.ReadDone? ==> posted[i].callback == cb
  }

  ghost predicate AtMostOneRead(posted: seq<Task>, from: nat) {
    forall i, j :: from <= i < j < |posted| ==> !posted[i].kind.ReadDone? || !posted[j].kind.ReadDone?
  }

  /** A stream whose stored read callback, if any, is this one. */
  ghost predicate Stores(s: Stream, cb: Script) { s.readCb.Some? ==> s.readCb.value == cb }

  /** What a step adds to the notices of a stream that stores the callback. */
  ghost predicate Adds(s: Stream, s': Stream, cb: Script) {
    s.posted <= s'.posted && BoundTo(s'.posted, |s.posted|, cb) && Stores(s', cb)
  }

  lemma AddsCompose(a: Stream, b: Stream, c: Stream, cb: Script)
    requires Adds(a, b, cb) && Adds(b, c, cb)
    ensures Adds(a, c, cb)
  {
    forall i | |a.posted| <= i < |c.posted| && c.posted[i].kind.ReadDone? ensures c.posted[i].callback == cb {
      if i < |b.posted| { assert c.posted[i] == b.posted[i]; }
    }
  }

  lemma CloseAdds(s: Stream, cb: Script)
    requires Stores(s, cb)
    ensures Adds(s, Close(s), cb)
  {
  }

  lemma DeliverAdds(s: Stream, len: nat, cb: Script)
    requires Stores(s, cb) && len <= Readable(s.readBuf)
    ensures var s' := Deliver(s, len, s.readCb); Adds(s, s', cb) && |s'.posted| <= |s.posted| + 1
  {
    hide Contents;
  }

  lemma ExtractAdds(s: Stream, cb: Script)
    requires Stores(s, cb)
    ensures Adds(s, Extract(s), cb) && |Extract(s).posted| <= |s.posted| + 1
  {
    assert |Contents(s.readBuf)| == Readable(s.readBuf);
    hide Find, Contents, Deliver;
    var i := Find(Contents(s.readBuf), s.readDelimiter);
    if s.readBytes > 0 && Readable(s.readBuf) >= s.readBytes { DeliverAdds(s, s.readBytes, cb); }
    else if s.readDelimiter != "" && i >= 0 { DeliverAdds(s, i + |s.readDelimiter|, cb); }
    else if s.readUntilClose && Readable(s.readBuf) > 0 { DeliverAdds(s, Readable(s.readBuf), cb); }
  }

  lemma ReadAdds(s: Stream, fill: Fill, input: Input, cb: Script)
    requires Stores(s, cb)
    ensures Adds(s, HandleRead(s, fill, input).0, cb)
    ensures |HandleRead(s, fill, input).0.posted| <= |s.posted| + 1
  {
    hide ReadPass, Extract;
    ExtractAdds(Receive(s, ReadPass(fill, s.readBuf, input)), cb);
  }

  lemma WriteAdds(s: Stream, output: Output, cb: Script)
    requires Stores(s, cb)
    ensures Adds(s, HandleWrite(s, output).0, cb)
  {
    hide WritePass;
  }

  lemma FinishAdds(s: Stream, events: Mask, output: Output, cb: Script)
    requires Stores(s, cb)
    ensures Adds(s, FinishEvents(s, events, output), cb)
  {
    hide HandleWrite, Close;
    WriteAdds(s, output, cb);
    var (s1, failed) := if events.write then HandleWrite(s, output) else (s, false);
    CloseAdds(s1, cb);
    AddsCompose(s, s1, Close(s1), cb);
  }

  lemma EventsAdd(s: Stream, fill: Fill, events: Mask, input: Input, output: Output, cb: Script)
    requires Stores(s, cb) && !s.connecting
    ensures Adds(s, HandleEvents(s, fill, events, None, input, output), cb)
  {
    hide HandleRead, Close, FinishEvents;
    if !s.closed {
      ReadAdds(s, fill, input, cb);
      var (s1, failed) := if events.read then HandleRead(s, fill, input) else (s, false);
      CloseAdds(s1, cb);
      AddsCompose(s, s1, Close(s1), cb);
      FinishAdds(s1, events, output, cb);
      AddsCompose(s, s1, FinishEvents(s1, events, output), cb);
    }
  }

  /** One event pass posts at most one read notice, unless reading until close. */
  lemma EventsReadOnce(s: Stream, fill: Fill, events: Mask, input: Input, output: Output)
    requires !s.connecting && !s.closed && !s.readUntilClose && Disciplined(s)
    ensures AtMostOneRead(HandleEvents(s, fill, events, None, input, output).posted, |s.posted|)
  {
    hide HandleRead, Close, FinishEvents, Disciplined;
    var (s1, failed) := if events.read then HandleRead(s, fill, input) else (s, false);
    HandleReadOnce(s, fill, input);
    CloseRead(s1);
    FinishEventsRead(s1, events, output);
    var s' := HandleEvents(s, fill, events, None, input, output);
    assert s' == Close(s1) || s' == FinishEvents(s1, events, output);
    assert s1.posted <= s'.posted && !ReadQueued(s'.posted, |s1.posted|);
  }

  lemma HandleReadOnce(s: Stream, fill: Fill, input: Input)
    requires !s.readUntilClose && Disciplined(s) && !s.closed
    ensures var s1 := HandleRead(s, fill, input).0;
      s.posted <= s1.posted && |s1.posted| <= |s.posted| + 1 && !s1.readUntilClose
  {
    hide ReadPass, Find;
    ReadAdds(s, fill, input, if s.readCb.Some? then s.readCb.value else ON_BODY);
  }

  lemma StartReadAdds(s: Stream, fill: Fill, input: Input, failure: int, cb: Script)
    requires Stores(s, cb)
    ensures Adds(s, StartRead(s, fill, input, failure).0, cb)
  {
    hide HandleRead, Close;
    ReadAdds(s, fill, input, cb);
    var s1 := HandleRead(s, fill, input).0;
    CloseAdds(s1, cb);
    AddsCompose(s, s1, Close(s1), cb);
  }

  lemma ReadBytesAdds(s: Stream, fill: Fill, n: int, input: Input)
    requires Stores(s, ON_BODY)
    ensures Adds(s, ReadBytes(s, fill, n, Some(ON_BODY), input).0, ON_BODY)
  {
    hide StartRead, Contents;
    if n > 0 {
      var asked := Requested(s, Count(n), Some(ON_BODY)).(readBytes := n, readCb := Some(ON_BODY));
      StartReadAdds(asked, fill, input, -2, ON_BODY);
    }
  }

  lemma SendAdds(s: Stream, output: Output, cb: Script)
    requires Stores(s, cb)
    ensures Adds(s, Send(s, output).0, cb)
  {
    hide HandleWrite, Close;
    WriteAdds(s, output, cb);
    var s1 := HandleWrite(s, output).0;
    CloseAdds(s1, cb);
    AddsCompose(s, s1, Close(s1), cb);
  }

  lemma WriteBytesAdds(s: Stream, data: string, output: Output, cb: Script)
    requires Stores(s, cb)
    ensures Adds(s, WriteBytes(s, data, output).0, cb)
  {
    hide Send, Close;
    CloseAdds(s, cb);
    SendAdds(JustWrite(s, data).0, output, cb);
  }

  // ------------------------------------------------------------------------ connections

  ghost predicate Addressed(v: Server) {
    var s, ran := v.http.conn.stream, v.http.ran;
    match v.phase
    case AwaitingHead => BoundTo(s.posted, ran, ON_HEADERS) && AtMostOneRead(s.posted, ran) && Stores(s, ON_HEADERS)
    case AwaitingBody => BoundTo(s.posted, ran, ON_BODY) && Stores(s, ON_BODY)
    case Dispatched => true
  }

  lemma BoundGrows(a: seq<Task>, b: seq<Task>, from: nat, cb: Script)
    requires BoundTo(a, from, cb) && a <= b && BoundTo(b, |a|, cb)
    ensures BoundTo(b, from, cb)
  {
    forall i | from <= i < |b| && b[i].kind.ReadDone? ensures b[i].callback == cb {
      if i < |a| { assert b[i] == a[i]; }
    }
  }

  lemma OneReadGrows(a: seq<Task>, b: seq<Task>, from: nat)
    requires a <= b && AtMostOneRead(b, |a|) && AtMostOneRead(a, from) && from <= |a|
    requires !ReadQueued(a, from) || !ReadQueued(b, |a|)
    ensures AtMostOneRead(b, from)
  {
    forall i, j | from <= i < j < |b| ensures !b[i].kind.ReadDone? || !b[j].kind.ReadDone? {
      if i < |a| { assert b[i] == a[i]; }
      if j < |a| { assert b[j] == a[j]; }
    }
  }

  lemma EventsAddressHead(s: Stream, ran: nat, fill: Fill, events: Mask, input: Input, output: Output)
    requires !s.closed && !s.connecting && Disciplined(s) && HeadReady(s, ran) && ran <= |s.posted|
    requires BoundTo(s.posted, ran, ON_HEADERS) && AtMostOneRead(s.posted, ran) && Stores(s, ON_HEADERS)
    ensures var s' := HandleEvents(s, fill, events, None, input, output);
      BoundTo(s'.posted, ran, ON_HEADERS) && AtMostOneRead(s'.posted, ran) && Stores(s', ON_HEADERS)
  {
    hide HandleEvents, Disciplined, BoundTo, AtMostOneRead;
    var s' := HandleEvents(s, fill, events, None, input, output);
    EventsAdd(s, fill, events, input, output, ON_HEADERS);
    BoundGrows(s.posted, s'.posted, ran, ON_HEADERS);
    EventsReadOnce(s, fill, events, input, output);
    IdleReadsNothing(s, fill, events, input, output);
    OneReadGrows(s.posted, s'.posted, ran);
  }

  lemma EventsAddressBody(s: Stream, ran: nat, fill: Fill, events: Mask, input: Input, output: Output)
    requires !s.connecting && ran <= |s.posted| && BoundTo(s.posted, ran, ON_BODY) && Stores(s, ON_BODY)
    ensures var s' := HandleEvents(s, fill, events, None, input, output);
      BoundTo(s'.posted, ran, ON_BODY) && Stores(s', ON_BODY)
  {
    hide HandleEvents, BoundTo;
    EventsAdd(s, fill, events, input, output, ON_BODY);
    BoundGrows(s.posted, HandleEvents(s, fill, events, None, input, output).posted, ran, ON_BODY);
  }

  lemma EventsAdvance(v: Server, fill: Fill, events: Mask, input: Input, output: Output)
    ensures var c, s' := v.http.conn, OnEvents(v.http.conn.stream, fill, events, input, output);
      Advance(v, fill, StreamEvents(events, input, output)) == v.(http := v.http.(conn := c.(stream := s')))
  {
    hide HandleEvents;
  }

  lemma OrderlyGives(v: Server)
    requires Orderly(v) && !v.http.conn.stream.closed
    ensures Disciplined(v.http.conn.stream)
    ensures v.phase == AwaitingHead ==> HeadReady(v.http.conn.stream, v.http.ran)
  {
  }

  lemma EventsAddress(v: Server, fill: Fill, events: Mask, input: Input, output: Output)
    requires Orderly(v) && Addressed(v) && !v.http.conn.stream.connecting && v.http.ran <= |v.http.conn.stream.posted|
    ensures Addressed(Advance(v, fill, StreamEvents(events, input, output)))
  {
    hide HandleEvents, BoundTo, AtMostOneRead, Stores, Orderly, Disciplined, HeadReady, Advance;
    var s, ran := v.http.conn.stream, v.http.ran;
    EventsAdvance(v, fill, events, input, output);
    if s.closed {
      ClosedStreamIdles(s, fill, events, input, output);
    } else {
      OrderlyGives(v);
      if v.phase == AwaitingHead {
        EventsAddressHead(s, ran, fill, events, input, output);
      } else if v.phase == AwaitingBody {
        EventsAddressBody(s, ran, fill, events, input, output);
      }
    }
  }

  lemma ClosedStreamIdles(s: Stream, fill: Fill, events: Mask, input: Input, output: Output)
    requires s.closed
    ensures HandleEvents(s, fill, events, None, input, output) == s
  {
  }

  /** With no read pending an event pass posts no read notice. */
  lemma IdleReadsNothing(s: Stream, fill: Fill, events: Mask, input: Input, output: Output)
    requires !s.connecting && !s.closed && !s.readUntilClose && Disciplined(s)
    ensures StreamModel.Idle(s) ==> !ReadQueued(HandleEvents(s, fill, events, None, input, output).posted, |s.posted|)
  {
    hide HandleRead, Close, FinishEvents;
    if StreamModel.Idle(s) {
      IdlePass(s, fill, input);
      var (s1, failed) := if events.read then HandleRead(s, fill, input) else (s, false);
      CloseRead(s1);
      FinishEventsRead(s1, events, output);
      var s' := HandleEvents(s, fill, events, None, input, output);
      assert s' == Close(s1) || s' == FinishEvents(s1, events, output);
    }
  }

  lemma IdlePass(s: Stream, fill: Fill, input: Input)
    requires StreamModel.Idle(s)
    ensures HandleRead(s, fill, input).0.posted == s.posted && !HandleRead(s, fill, input).0.readUntilClose
  {
    hide ReadPass;
  }

  /** What onHeaders adds to an idle stream is bound to onRequestBody. */
  lemma OnHeadersAdds(c: Conn, fill: Fill, data: string, input: Input, output: Output)
    requires StreamModel.Idle(c.stream)
    ensures Adds(c.stream, OnHeaders(c, fill, data, input, output).0.stream, ON_BODY)
  {
    hide ParseRequest, WriteBytes, ReadBytes, Close;
    var r := ParseRequest(c.request, data).0;
    CloseAdds(c.stream, ON_BODY);
    WriteBytesAdds(c.stream, CONTINUE, output, ON_BODY);
    var s1 := Encourage(c.stream, r, output);
    ReadBytesAdds(s1, fill, ContentLength(r), input);
    AddsCompose(c.stream, s1, ReadBytes(s1, fill, ContentLength(r), Some(ON_BODY), input).0, ON_BODY);
  }

  lemma NoneAfterTheFirst(posted: seq<Task>, ran: nat, cb: Script)
    requires ran < |posted| && posted[ran].kind.ReadDone? && AtMostOneRead(posted, ran)
    ensures BoundTo(posted, ran + 1, cb)
  {
  }

  lemma HeadAddresses(v: Server, fill: Fill, input: Input, output: Output)
    requires Orderly(v) && Addressed(v) && v.phase == AwaitingHead && v.http.ran < |v.http.conn.stream.posted|
    requires v.http.conn.stream.posted[v.http.ran].kind.ReadDone?
    ensures Addressed(RunNotice(v, fill, input, output))
  {
    hide OnHeaders;
    var h, s := v.http, v.http.conn.stream;
    assert ReadQueued(s.posted, h.ran);
    OnHeadersAdds(h.conn, fill, s.posted[h.ran].kind.data, input, output);
    NoneAfterTheFirst(s.posted, h.ran, ON_BODY);
    BoundGrows(s.posted, RunNotice(v, fill, input, output).http.conn.stream.posted, h.ran + 1, ON_BODY);
  }

  lemma CloseAddresses(s: Stream, ran: nat, cb: Script)
    requires BoundTo(s.posted, ran, cb) && Stores(s, cb)
    ensures BoundTo(Close(s).posted, ran + 1, cb) && Stores(Close(s), cb) && BoundTo(s.posted, ran + 1, cb)
  {
    CloseAdds(s, cb);
    BoundGrows(s.posted, Close(s).posted, ran, cb);
  }

  lemma BodyAddresses(v: Server, fill: Fill, input: Input, output: Output)
    requires Addressed(v) && v.phase == AwaitingBody && v.http.ran < |v.http.conn.stream.posted|
    requires v.http.conn.stream.posted[v.http.ran].kind.ReadDone?
    ensures Addressed(RunNotice(v, fill, input, output))
  {
    hide OnRequestBody, Close;
    BodyClosesOrNot(v.http.conn, v.http.conn.stream.posted[v.http.ran].kind.data);
    CloseAddresses(v.http.conn.stream, v.http.ran, ON_BODY);
  }

  lemma OtherAddresses(v: Server, fill: Fill, input: Input, output: Output)
    requires Addressed(v) && v.phase != Dispatched && v.http.ran <= |v.http.conn.stream.posted|
    requires v.http.ran < |v.http.conn.stream.posted| ==> !v.http.conn.stream.posted[v.http.ran].kind.ReadDone?
    requires !v.http.conn.requestFinished
    ensures Addressed(RunNotice(v, fill, input, output))
  {
  }

  lemma RunAddresses(v: Server, fill: Fill, input: Input, output: Output)
    requires Tended(v) && Addressed(v) && Early(v)
    ensures Addressed(RunNotice(v, fill, input, output))
  {
    hide BoundTo, AtMostOneRead, RunNotice;
    var h, posted := v.http, v.http.conn.stream.posted;
    if v.phase == Dispatched {
      DispatchedStays(v, fill, input, output);
    } else if h.ran < |posted| && posted[h.ran].kind.ReadDone? {
      if v.phase == AwaitingHead { HeadAddresses(v, fill, input, output); } else { BodyAddresses(v, fill, input, output); }
    } else {
      OtherAddresses(v, fill, input, output);
    }
  }

  lemma DispatchedStays(v: Server, fill: Fill, input: Input, output: Output)
    requires v.phase == Dispatched
    ensures RunNotice(v, fill, input, output).phase == Dispatched
  {
  }

  /** Before the request is dispatched: not finished, and no notice run that was not posted. */
  ghost predicate Early(v: Server) {
    v.phase != Dispatched ==> !v.http.conn.requestFinished && v.http.ran <= |v.http.conn.stream.posted|
  }

  lemma EventsStayEarly(v: Server, fill: Fill, events: Mask, input: Input, output: Output)
    requires Early(v) && !v.http.conn.stream.connecting
    ensures Early(Advance(v, fill, StreamEvents(events, input, output)))
  {
    hide HandleEvents;
    EventsMove(v.http.conn.stream, fill, events, input, output);
  }

  lemma OnHeadersEarly(c: Conn, fill: Fill, data: string, input: Input, output: Output)
    requires StreamModel.Idle(c.stream)
    ensures var c' := OnHeaders(c, fill, data, input, output).0;
      c'.requestFinished == c.requestFinished && c.stream.posted <= c'.stream.posted
  {
    hide ParseRequest, WriteBytes, ReadBytes, Close;
    OnHeadersAdds(c, fill, data, input, output);
  }

  lemma BodyEarly(c: Conn, data: string)
    ensures var c' := OnRequestBody(c, data).0;
      c'.requestFinished == c.requestFinished && c.stream.posted <= c'.stream.posted
  {
    hide Close;
    CloseMoves(c.stream);
  }

  lemma RunStaysEarly(v: Server, fill: Fill, input: Input, output: Output)
    requires Early(v) && Orderly(v)
    ensures Early(RunNotice(v, fill, input, output))
  {
    hide OnHeaders, OnRequestBody;
    var h, s := v.http, v.http.conn.stream;
    if v.phase != Dispatched && h.ran < |s.posted| && s.posted[h.ran].kind.ReadDone? {
      assert ReadQueued(s.posted, h.ran);
      if v.phase == AwaitingHead { OnHeadersEarly(h.conn, fill, s.posted[h.ran].kind.data, input, output); }
      else { BodyEarly(h.conn, s.posted[h.ran].kind.data); }
    }
  }

  lemma AdvanceAddresses(v: Server, fill: Fill, m: Move)
    requires Tended(v) && Addressed(v) && Early(v)
    ensures Addressed(Advance(v, fill, m)) && Early(Advance(v, fill, m))
  {
    hide RunNotice, Act;
    match m
    case StreamEvents(events, input, output) => EventsMatter(v, fill, events, input, output);
    case HandlerCalls(_) =>
    case LoopRuns(input, output) =>
      RunAddresses(v, fill, input, output);
      RunStaysEarly(v, fill, input, output);
  }

  lemma EventsMatter(v: Server, fill: Fill, events: Mask, input: Input, output: Output)
    requires Tended(v) && Addressed(v) && Early(v)
    ensures var v' := Advance(v, fill, StreamEvents(events, input, output)); Addressed(v') && Early(v')
  {
    hide HandleEvents, BoundTo, AtMostOneRead;
    EventsStayEarly(v, fill, events, input, output);
    if v.phase != Dispatched { EventsAddress(v, fill, events, input, output); }
  }

  lemma {:induction false} AllAdvancesAddress(v: Server, fill: Fill, moves: seq<Move>)
    requires Tended(v) && Addressed(v) && Early(v)
    ensures Addressed(AdvanceAll(v, fill, moves))
    decreases |moves|
  {
    hide Addressed, Early, Tended, Advance;
    if moves != [] {
      AdvanceTends(v, fill, moves[0]);
      AdvanceAddresses(v, fill, moves[0]);
      AllAdvancesAddress(Advance(v, fill, moves[0]), fill, moves[1..]);
    }
  }

  lemma AcceptedIsAddressed(s: Stream, fill: Fill, input: Input)
    requires Fresh(s)
    ensures Addressed(Accepted(s, fill, input)) && Early(Accepted(s, fill, input))
  {
    hide HandleRead, Close;
    var asked := Requested(s.(closeCb := Some(ON_CLOSE)), Until("\r\n\r\n"), Some(ON_HEADERS))
                 .(readDelimiter := "\r\n\r\n", readCb := Some(ON_HEADERS));
    HandleReadOnce(asked, fill, input);
    ReadAdds(asked, fill, input, ON_HEADERS);
    var s1 := HandleRead(asked, fill, input).0;
    CloseAdds(s1, ON_HEADERS);
    CloseRead(s1);
    AddsCompose(asked, s1, Close(s1), ON_HEADERS);
  }

  /**
   Over every run of a connection: the read notice run while the head is awaited is bound to
   onHeaders, and the one run while the body is awaited to onRequestBody.
   */
  lemma NoticesFindTheirMember(s: Stream, fill: Fill, input: Input, moves: seq<Move>)
    requires Fresh(s)
    ensures var v := AdvanceAll(Accepted(s, fill, input), fill, moves);
      var posted := v.http.conn.stream.posted;
      v.phase != Dispatched && v.http.ran < |posted| && posted[v.http.ran].kind.ReadDone? ==>
        posted[v.http.ran].callback == if v.phase == AwaitingHead then ON_HEADERS else ON_BODY
  {
    AcceptedIsTended(s, fill, input);
    AcceptedIsAddressed(s, fill, input);
    AllAdvancesAddress(Accepted(s, fill, input), fill, moves);
  }
}
