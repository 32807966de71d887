/**
 Connections that differ only in what is unread: when reading has lost the difference they go the
 same way for ever, whatever their clients sent.
 */
module HttpTwins {
  import opened Common
  import opened LoopModel
  import opened Buffers
  import opened StreamModel
  import opened StreamTwins
  import opened Text
  import opened HttpParse
  import opened HttpModel
  import opened HttpLifecycle
  import opened HttpNotices
  import opened HttpArrival
  import opened HttpPieces

  ghost predicate KinConns(c: Conn, d: Conn) { d == c.(stream := d.stream) && Kin(c.stream, d.stream) }
  ghost predicate TwinConns(c: Conn, d: Conn) { d == c.(stream := d.stream) && Twins(c.stream, d.stream) }

  ghost predicate KinServers(v: Server, w: Server) {
    w == v.(http := v.http.(conn := w.http.conn)) && KinConns(v.http.conn, w.http.conn)
  }

  ghost predicate TwinServers(v: Server, w: Server) {
    KinServers(v, w) && w.http.conn.stream.readBuf == v.http.conn.stream.readBuf
  }

  /** They differ in the first unread byte at most. */
  ghost predicate NearServers(v: Server, w: Server) {
    KinServers(v, w) && Differ(v.http.conn.stream.readBuf, w.http.conn.stream.readBuf, 0)
  }

  // ---------------------------------------------------------------------------- twins

  lemma EncourageAlongside(s: Stream, t: Stream, r: HttpRequest, output: Output)
    requires Kin(s, t)
    ensures Alongside(s, t, Encourage(s, r, output), Encourage(t, r, output))
  {
    hide WriteBytes;
    BytesAlongside(s, t, CONTINUE, output);
  }

  lemma ProceedTwins(c: Conn, d: Conn, fill: Fill, input: Input, output: Output)
    requires TwinConns(c, d)
    ensures var (c', go) := Proceed(c, fill, input, output); var (d', go') := Proceed(d, fill, input, output);
      go == go' && TwinConns(c', d')
  {
    hide Encourage, ReadBytes, Close;
    CloseAlongside(c.stream, d.stream);
    EncourageAlongside(c.stream, d.stream, c.request, output);
    var s, t := Encourage(c.stream, c.request, output), Encourage(d.stream, c.request, output);
    CountTwins(s, t, fill, ContentLength(c.request), Some(ON_BODY), input);
  }

  lemma HeadersTwins(c: Conn, d: Conn, fill: Fill, data: string, input: Input, output: Output)
    requires TwinConns(c, d)
    ensures var (c', go) := OnHeaders(c, fill, data, input, output);
      var (d', go') := OnHeaders(d, fill, data, input, output);
      go == go' && TwinConns(c', d')
  {
    hide ParseRequest, Proceed, Close;
    var r := ParseRequest(c.request, data).0;
    CloseAlongside(c.stream, d.stream);
    ProceedTwins(c.(request := r), d.(request := r), fill, input, output);
  }

  lemma BodyTwins(c: Conn, d: Conn, data: string)
    requires TwinConns(c, d)
    ensures var (c', go) := OnRequestBody(c, data); var (d', go') := OnRequestBody(d, data);
      go == go' && TwinConns(c', d')
  {
    hide ParsePairs, Close, StartsWith;
    CloseAlongside(c.stream, d.stream);
  }

  lemma NextTwins(v: Server, w: Server)
    requires TwinServers(v, w)
    ensures TwinServers(v.(http := RunNext(v.http)), w.(http := RunNext(w.http)))
  {
    hide Close;
    CloseAlongside(v.http.conn.stream, w.http.conn.stream);
  }

  /** The loop's next notice holds data still expected. */
  predicate DataIsNext(v: Server) {
    var posted, ran := v.http.conn.stream.posted, v.http.ran;
    v.phase != Dispatched && ran < |posted| && posted[ran].kind.ReadDone?
  }

  lemma HeadNoticeTwins(v: Server, w: Server, fill: Fill, input: Input, output: Output)
    requires TwinServers(v, w) && DataIsNext(v) && v.phase == AwaitingHead
    ensures TwinServers(RunNotice(v, fill, input, output), RunNotice(w, fill, input, output))
  {
    hide OnHeaders, RunNotice;
    HeadersTwins(v.http.conn, w.http.conn, fill, v.http.conn.stream.posted[v.http.ran].kind.data, input, output);
    HeadNoticeIs(v, fill, input, output);
    HeadNoticeIs(w, fill, input, output);
  }

  lemma BodyNoticeTwins(v: Server, w: Server, fill: Fill, input: Input, output: Output)
    requires TwinServers(v, w) && DataIsNext(v) && v.phase == AwaitingBody
    ensures TwinServers(RunNotice(v, fill, input, output), RunNotice(w, fill, input, output))
  {
    hide OnRequestBody, RunNotice;
    BodyTwins(v.http.conn, w.http.conn, v.http.conn.stream.posted[v.http.ran].kind.data);
    BodyNoticeIs(v, fill, input, output);
    BodyNoticeIs(w, fill, input, output);
  }

  lemma NoticeTwins(v: Server, w: Server, fill: Fill, input: Input, output: Output)
    requires TwinServers(v, w)
    ensures TwinServers(RunNotice(v, fill, input, output), RunNotice(w, fill, input, output))
  {
    hide OnHeaders, OnRequestBody, RunNext;
    if DataIsNext(v) {
      hide RunNotice, TwinServers;
      if v.phase == AwaitingHead { HeadNoticeTwins(v, w, fill, input, output); }
      else { BodyNoticeTwins(v, w, fill, input, output); }
    } else {
      NextTwins(v, w);
    }
  }

  lemma EventsTwins(v: Server, w: Server, fill: Fill, events: Mask, input: Input, output: Output)
    requires TwinServers(v, w)
    ensures TwinServers(Advance(v, fill, StreamEvents(events, input, output)),
                        Advance(w, fill, StreamEvents(events, input, output)))
  {
    hide HandleEvents;
    EventTwins(v.http.conn.stream, w.http.conn.stream, fill, events, None, input, output);
  }

  /** Twins stay twins, whatever the client sends next. */
  lemma {:induction false} TwinsForGood(v: Server, w: Server, fill: Fill, pieces: seq<string>)
    requires TwinServers(v, w)
    ensures TwinServers(AdvanceAll(v, fill, Moments(pieces)), AdvanceAll(w, fill, Moments(pieces)))
    decreases |pieces|
  {
    hide Advance, TwinServers;
    if pieces != [] {
      var a, rest := Arrives(pieces[0]), Moments(pieces[1..]);
      ThreeMoves(v, fill, a, TICK, TICK, rest);
      ThreeMoves(w, fill, a, TICK, TICK, rest);
      var v1, w1 := Advance(v, fill, a), Advance(w, fill, a);
      EventsTwins(v, w, fill, READ, Bytes(pieces[0], WouldBlock), Refuses);
      TicksTwins(v1, w1, fill);
      TwinsForGood(Ticked(v1, fill), Ticked(w1, fill), fill, pieces[1..]);
    }
  }

  /** The state after two turns of the loop. */
  function Ticked(v: Server, fill: Fill): Server { Advance(Advance(v, fill, TICK), fill, TICK) }

  lemma TicksTwins(v: Server, w: Server, fill: Fill)
    requires TwinServers(v, w)
    ensures TwinServers(Ticked(v, fill), Ticked(w, fill))
  {
    hide TwinServers, RunNotice;
    NoticeTwins(v, w, fill, WouldBlock, Refuses);
    NoticeTwins(Advance(v, fill, TICK), Advance(w, fill, TICK), fill, WouldBlock, Refuses);
  }

  // ------------------------------------------------------------------------ becoming so

  /** A piece in which reading loses the difference, or which covers it up. */
  lemma PieceMakesTwins(v: Server, w: Server, piece: string, other: string)
    requires KinServers(v, w) && !v.http.conn.stream.closed && !v.http.conn.stream.connecting
    requires EndAlike(ReadPass(AtReadEnd, v.http.conn.stream.readBuf, Bytes(piece, WouldBlock)),
                      ReadPass(AtReadEnd, w.http.conn.stream.readBuf, Bytes(other, WouldBlock)))
    requires v.http.conn.stream.slot.Some?
    ensures TwinServers(Advance(v, AtReadEnd, Arrives(piece)), Advance(w, AtReadEnd, Arrives(other)))
  {
    hide HandleEvents, ReadPass;
    var s, t := v.http.conn.stream, w.http.conn.stream;
    EventMakesTwins(s, t, AtReadEnd, Bytes(piece, WouldBlock), Bytes(other, WouldBlock), Refuses);
  }

  /** The pieces from there on. */
  lemma ThenTwins(v: Server, w: Server, piece: string, other: string, rest: seq<string>)
    requires TwinServers(Advance(v, AtReadEnd, Arrives(piece)), Advance(w, AtReadEnd, Arrives(other)))
    ensures TwinServers(AdvanceAll(v, AtReadEnd, Moments([piece] + rest)), AdvanceAll(w, AtReadEnd, Moments([other] + rest)))
  {
    hide Advance, TwinServers;
    var v1, w1 := Advance(v, AtReadEnd, Arrives(piece)), Advance(w, AtReadEnd, Arrives(other));
    MomentsFirst(v, AtReadEnd, piece, rest);
    MomentsFirst(w, AtReadEnd, other, rest);
    TicksTwins(v1, w1, AtReadEnd);
    TwinsForGood(Ticked(v1, AtReadEnd), Ticked(w1, AtReadEnd), AtReadEnd, rest);
  }

  lemma MomentsFirst(v: Server, fill: Fill, piece: string, rest: seq<string>)
    ensures AdvanceAll(v, fill, Moments([piece] + rest)) ==
      AdvanceAll(Ticked(Advance(v, fill, Arrives(piece)), fill), fill, Moments(rest))
  {
    hide Advance;
    assert ([piece] + rest)[1..] == rest;
    ThreeMoves(v, fill, Arrives(piece), TICK, TICK, Moments(rest));
  }

  // -------------------------------------------------------------------------- a loss

  /** Between two pieces: every notice run, an empty buffer, and events that come through. */
  ghost predicate Waiting(v: Server) {
    var s := v.http.conn.stream;
    Awaits(s) && s.slot.Some? && v.http.ran == |s.posted|
  }

  /** Open to the next piece, with room for a chunk. */
  ghost predicate Hears(v: Server) {
    var s := v.http.conn.stream;
    !s.closed && !s.connecting && s.slot.Some? && READ_CHUNK <= Writable(s.readBuf)
  }

  lemma LongPieceMakesTwins(v: Server, q: string, r: string)
    requires Waiting(v) && READ_CHUNK < |q| && SameBut(q, r, 0)
    ensures TwinServers(Advance(v, AtReadEnd, Arrives(q)), Advance(v, AtReadEnd, Arrives(r)))
  {
    hide Advance, ReadPass;
    FirstByteLost(v.http.conn.stream.readBuf, q, r);
    PieceMakesTwins(v, v, q, r);
  }

  /** With every notice run the loop has nothing to do. */
  lemma NothingToRun(v: Server, fill: Fill)
    requires v.http.ran == |v.http.conn.stream.posted|
    ensures Ticked(v, fill) == v
  {
    TickRests(v, fill);
  }

  lemma ShortPieceMakesNear(v: Server, q: string, r: string)
    requires Waiting(v) && |q| <= READ_CHUNK && SameBut(q, r, 0)
    requires Unserved(v.http.conn.stream, q) && Unserved(v.http.conn.stream, r)
    ensures var v1 := Ticked(Advance(v, AtReadEnd, Arrives(q)), AtReadEnd);
      var w1 := Ticked(Advance(v, AtReadEnd, Arrives(r)), AtReadEnd);
      NearServers(v1, w1) && Hears(v1)
  {
    hide HandleEvents, Unserved, SameBut, Differ, Ticked, Advance;
    ChunkMakesNear(v.http.conn.stream, q, r);
    EventsAdvance(v, AtReadEnd, READ, Bytes(q, WouldBlock), Refuses);
    EventsAdvance(v, AtReadEnd, READ, Bytes(r, WouldBlock), Refuses);
    NothingToRun(Advance(v, AtReadEnd, Arrives(q)), AtReadEnd);
    NothingToRun(Advance(v, AtReadEnd, Arrives(r)), AtReadEnd);
  }

  /** The next piece lies over the byte that differs. */
  lemma NearThenPiece(v: Server, w: Server, pieces: seq<string>)
    requires NearServers(v, w) && Hears(v) && pieces != [] && pieces[0] != ""
    ensures TwinServers(AdvanceAll(v, AtReadEnd, Moments(pieces)), AdvanceAll(w, AtReadEnd, Moments(pieces)))
  {
    hide AdvanceAll, Moments, ReadPass, Advance, TwinServers;
    PassMeets(v.http.conn.stream.readBuf, w.http.conn.stream.readBuf, Bytes(pieces[0], WouldBlock));
    PieceMakesTwins(v, w, pieces[0], pieces[0]);
    ThenTwins(v, w, pieces[0], pieces[0], pieces[1..]);
    assert [pieces[0]] + pieces[1..] == pieces;
  }

  /**
   The first byte of a piece read into an empty buffer makes no difference in the end: if the piece is
   longer than a chunk, or serves nothing and is followed by another.
   */
  lemma FirstMakesNoDifference(v: Server, q: string, r: string, rest: seq<string>)
    requires Waiting(v) && SameBut(q, r, 0)
    requires |q| <= READ_CHUNK ==>
      Unserved(v.http.conn.stream, q) && Unserved(v.http.conn.stream, r) && rest != [] && rest[0] != ""
    ensures TwinServers(AdvanceAll(v, AtReadEnd, Moments([q] + rest)), AdvanceAll(v, AtReadEnd, Moments([r] + rest)))
  {
    hide AdvanceAll, Moments, Advance, TwinServers, Unserved, SameBut, Waiting, NearServers, Ticked;
    if |q| <= READ_CHUNK {
      ShortPieceMakesNear(v, q, r);
      MomentsFirst(v, AtReadEnd, q, rest);
      MomentsFirst(v, AtReadEnd, r, rest);
      NearThenPiece(Ticked(Advance(v, AtReadEnd, Arrives(q)), AtReadEnd),
                    Ticked(Advance(v, AtReadEnd, Arrives(r)), AtReadEnd), rest);
    } else {
      LongPieceMakesTwins(v, q, r);
      ThenTwins(v, v, q, r, rest);
    }
  }

  // ------------------------------------------------------- a head with more behind it

  /** A head that asks for more than is unread. */
  predicate AsksForMore(c: Conn, data: string) {
    var (r, ret) := ParseRequest(c.request, data);
    ret == 0 && Readable(c.stream.readBuf) < ContentLength(r) <= MAX_BODY
  }

  lemma HeadersNear(c: Conn, d: Conn, data: string)
    requires d == c.(stream := d.stream) && Near(c.stream, d.stream, 0) && AsksForMore(c, data)
    requires READ_CHUNK <= Writable(c.stream.readBuf) && c.stream.readDelimiter == ""
    ensures var (c', go) := OnHeaders(c, AtReadEnd, data, WouldBlock, Refuses);
      var (d', go') := OnHeaders(d, AtReadEnd, data, WouldBlock, Refuses);
      go == go' && d' == c'.(stream := d'.stream) && Near(c'.stream, d'.stream, 0) && c'.stream.readBuf == c.stream.readBuf
  {
    hide ParseRequest, Encourage, ReadBytes, Differ, ContentLength;
    var r := ParseRequest(c.request, data).0;
    EncourageAlongside(c.stream, d.stream, r, Refuses);
    CountNear(Encourage(c.stream, r, Refuses), Encourage(d.stream, r, Refuses), 0, ContentLength(r), Some(ON_BODY));
  }

  lemma HeadTickNear(v: Server, w: Server, data: string)
    requires NearServers(v, w) && DataIsNext(v) && v.phase == AwaitingHead
    requires v.http.conn.stream.posted[v.http.ran].kind.data == data && AsksForMore(v.http.conn, data)
    requires READ_CHUNK <= Writable(v.http.conn.stream.readBuf) && v.http.conn.stream.readDelimiter == ""
    ensures var v1, w1 := Advance(v, AtReadEnd, TICK), Advance(w, AtReadEnd, TICK);
      NearServers(v1, w1) && v1.http.conn.stream.readBuf == v.http.conn.stream.readBuf
  {
    hide OnHeaders, AsksForMore, RunNotice, Differ;
    HeadersNear(v.http.conn, w.http.conn, data);
    HeadNoticeIs(v, AtReadEnd, WouldBlock, Refuses);
    HeadNoticeIs(w, AtReadEnd, WouldBlock, Refuses);
  }

  // ------------------------------------------------------------- where the bytes lie

  lemma EncourageKeepsBuffer(s: Stream, r: HttpRequest)
    requires !s.readUntilClose
    ensures Encourage(s, r, Refuses).readBuf == s.readBuf
  {
    hide Encourage;
    EncourageAlongside(s, s, r, Refuses);
  }

  lemma HeadersKeepEnd(c: Conn, data: string)
    requires READ_CHUNK <= Writable(c.stream.readBuf) && !c.stream.readUntilClose
    ensures KeepsEnd(c.stream.readBuf, OnHeaders(c, AtReadEnd, data, WouldBlock, Refuses).0.stream.readBuf)
  {
    hide ParseRequest, Encourage, ReadBytes, Close;
    var r := ParseRequest(c.request, data).0;
    CloseKeepsEnd(c.stream);
    EncourageKeepsBuffer(c.stream, r);
    CountKeepsEnd(Encourage(c.stream, r, Refuses), ContentLength(r), Some(ON_BODY));
  }

  /** Running the notice of a head moves no bytes. */
  lemma HeadTickKeepsEnd(v: Server)
    requires v.phase == AwaitingHead && !v.http.conn.stream.readUntilClose
    requires DataIsNext(v) && READ_CHUNK <= Writable(v.http.conn.stream.readBuf)
    ensures KeepsEnd(v.http.conn.stream.readBuf, Advance(v, AtReadEnd, TICK).http.conn.stream.readBuf)
  {
    hide OnHeaders, RunNotice;
    HeadNoticeIs(v, AtReadEnd, WouldBlock, Refuses);
    HeadersKeepEnd(v.http.conn, v.http.conn.stream.posted[v.http.ran].kind.data);
  }
}
