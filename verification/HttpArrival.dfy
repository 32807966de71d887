/**
 A whole request, from the bytes a client sends to the handler: whatever the pieces in which it
 arrives, the request dispatched is the one that was printed, with exactly its body. This is for
 the meant fill, at the write end of the read buffer.
 */
module HttpArrival {
  import opened Common
  import opened LoopModel
  import opened Buffers
  import opened StreamModel
  import opened StreamProofs
  import opened StreamReads
  import opened StreamGrows
  import opened Text
  import opened HttpParse
  import opened HttpRoundTrip
  import opened HttpModel
  import opened HttpProofs
  import opened HttpLifecycle
  import opened HttpClosed
  import opened HttpNotices

  // ----------------------------------------------------------------- notices of data

  /** What the read notices from there on carry. */
  function Carried(posted: seq<Task>, from: nat): seq<string>
    requires from <= |posted|
    decreases |posted| - from
  {
    if from == |posted| then []
    else (if posted[from].kind.ReadDone? then [posted[from].kind.data] else []) + Carried(posted, from + 1)
  }

  lemma {:induction false} CarriedGrows(a: seq<Task>, b: seq<Task>, from: nat)
    requires a <= b && from <= |a|
    ensures Carried(b, from) == Carried(a, from) + Carried(b, |a|)
    decreases |a| - from
  {
    if from < |a| {
      assert b[from] == a[from];
      CarriedGrows(a, b, from + 1);
    }
  }

  /** The notices a step adds carry this data. */
  ghost predicate Hands(s: Stream, s': Stream, data: seq<string>) {
    s.posted <= s'.posted && Carried(s'.posted, |s.posted|) == data
  }

  lemma HandsOn(a: Stream, b: Stream, c: Stream, x: seq<string>, y: seq<string>)
    requires Hands(a, b, x) && Hands(b, c, y)
    ensures Hands(a, c, x + y)
  {
    CarriedGrows(b.posted, c.posted, |a.posted|);
  }

  lemma NoticeHands(s: Stream, s': Stream, kind: Kind, cb: Option<Script>)
    requires s'.posted == s.posted + Notice(kind, cb)
    ensures Hands(s, s', if kind.ReadDone? && cb.Some? then [kind.data] else [])
  {
    if cb.Some? {
      assert Carried(s'.posted, |s'.posted|) == [];
      assert s'.posted[|s.posted|] == Task(kind, cb.value);
    }
  }

  lemma NothingHanded(s: Stream, s': Stream)
    requires s'.posted == s.posted
    ensures Hands(s, s', [])
  {
  }

  // ---------------------------------------------------------- steps that read nothing

  ghost predicate SameMode(s: Stream, s': Stream) {
    && s'.readBytes == s.readBytes && s'.readDelimiter == s.readDelimiter
    && s'.readUntilClose == s.readUntilClose && s'.readCb == s.readCb
  }

  ghost predicate ReadsNothing(s: Stream, s': Stream) {
    && Hands(s, s', []) && Contents(s'.readBuf) == Contents(s.readBuf) && s'.log.received == s.log.received
    && (s.closed ==> s'.closed) && !s'.readUntilClose
    && (!s'.closed ==> SameMode(s, s')) && (StreamModel.Idle(s) ==> StreamModel.Idle(s'))
  }

  lemma NothingOn(a: Stream, b: Stream, c: Stream)
    requires ReadsNothing(a, b) && ReadsNothing(b, c)
    ensures ReadsNothing(a, c)
  {
    HandsOn(a, b, c, [], []);
  }

  lemma SameReadSide(s: Stream, s': Stream)
    requires s'.posted == s.posted && s'.readBuf == s.readBuf && s'.log.received == s.log.received
    requires s'.closed == s.closed && SameMode(s, s') && !s.readUntilClose
    ensures ReadsNothing(s, s')
  {
    NothingHanded(s, s');
  }

  lemma CloseReadsNothing(s: Stream)
    requires !s.readUntilClose
    ensures ReadsNothing(s, Close(s))
  {
    if s.closed { NothingHanded(s, Close(s)); } else { NoticeHands(s, Close(s), CloseDone, s.closeCb); }
  }

  lemma WriteReadsNothing(s: Stream, output: Output)
    requires !s.readUntilClose
    ensures ReadsNothing(s, HandleWrite(s, output).0)
  {
    hide WritePass;
    var s' := HandleWrite(s, output).0;
    if s'.posted == s.posted { NothingHanded(s, s'); } else { NoticeHands(s, s', WriteDone, s.writeCb); }
  }

  lemma AddStateReadsNothing(s: Stream, m: Mask)
    requires !s.readUntilClose
    ensures ReadsNothing(s, AddState(s, m))
  {
    SameReadSide(s, AddState(s, m));
  }

  lemma FinishReadsNothing(s: Stream, events: Mask, output: Output)
    requires !s.readUntilClose
    ensures ReadsNothing(s, FinishEvents(s, events, output))
  {
    hide HandleWrite, Close, ReadsNothing;
    SameReadSide(s, s);
    WriteReadsNothing(s, output);
    var (s1, failed) := if events.write then HandleWrite(s, output) else (s, false);
    StillNotUntilClose(s, s1);
    CloseReadsNothing(s1);
    SameReadSide(s1, s1);
    SameReadSide(s1, Updated(s1, NextState(s1)));
    NothingOn(s, s1, FinishEvents(s, events, output));
  }

  lemma StillNotUntilClose(s: Stream, s': Stream)
    requires ReadsNothing(s, s')
    ensures !s'.readUntilClose
  {
  }

  lemma SendReadsNothing(s: Stream, output: Output)
    requires !s.readUntilClose
    ensures ReadsNothing(s, Send(s, output).0)
  {
    hide HandleWrite, Close, AddState, ReadsNothing;
    var s1 := HandleWrite(s, output).0;
    WriteReadsNothing(s, output);
    StillNotUntilClose(s, s1);
    CloseReadsNothing(s1);
    AddStateReadsNothing(s1, WRITE);
    SameReadSide(s1, s1);
    NothingOn(s, s1, Send(s, output).0);
  }

  lemma BytesReadNothing(s: Stream, data: string, output: Output)
    requires !s.readUntilClose
    ensures ReadsNothing(s, WriteBytes(s, data, output).0)
  {
    hide Send, Close, ReadsNothing;
    var (s1, ret) := JustWrite(s, data);
    CloseReadsNothing(s);
    if ret != -3 { SameReadSide(s, s1); }
    StillNotUntilClose(s, s1);
    SendReadsNothing(s1, output);
    SameReadSide(s1, s1);
    NothingOn(s, s1, WriteBytes(s, data, output).0);
  }

  // --------------------------------------------------------------- steps that may read

  /** A request that waits: while the stream is open it is stored, and cannot be served yet. */
  ghost predicate Asking(s: Stream, r: Request) {
    && !r.ToClose? && !s.readUntilClose
    && (!s.closed ==> OneMode(s) && Pending(s) == Some(r) && s.readCb.Some? && ServeOne(r, Contents(s.readBuf)).None?)
  }

  /** The unread bytes with those a step has received. */
  function Unread(s: Stream, s': Stream): string
    requires s.log.received <= s'.log.received
  {
    Contents(s.readBuf) + s'.log.received[|s.log.received|..]
  }

  /** A step leaves the request waiting, or serves it. */
  ghost predicate Waits(s: Stream, s': Stream, r: Request)
    requires s.log.received <= s'.log.received
  {
    Hands(s, s', []) && Contents(s'.readBuf) == Unread(s, s') && Asking(s', r)
  }

  ghost predicate Serves(s: Stream, s': Stream, r: Request)
    requires s.log.received <= s'.log.received
  {
    var x := Unread(s, s');
    && ServeOne(r, x).Some? && Hands(s, s', [x[..ServeOne(r, x).value]])
    && Contents(s'.readBuf) == x[ServeOne(r, x).value..] && StreamModel.Idle(s')
  }

  ghost predicate Moves(s: Stream, s': Stream, r: Request) {
    && s.log.received <= s'.log.received && (s.closed ==> s'.closed)
    && (Waits(s, s', r) || Serves(s, s', r))
  }

  lemma MovesOn(a: Stream, b: Stream, c: Stream, r: Request)
    requires Moves(a, b, r) && ReadsNothing(b, c)
    ensures Moves(a, c, r)
  {
    if Waits(a, b, r) {
      HandsOn(a, b, c, [], []);
      assert Unread(a, c) == Unread(a, b);
    } else {
      var x := Unread(a, b);
      HandsOn(a, b, c, [x[..ServeOne(r, x).value]], []);
      assert [x[..ServeOne(r, x).value]] + [] == [x[..ServeOne(r, x).value]];
    }
  }

  /** A stored request after a pass, served if it can be. */
  lemma PassServes(s: Stream, r: Request, input: Input)
    requires OneMode(s) && Pending(s) == Some(r) && !s.readUntilClose && s.readCb.Some?
    ensures var (s', failed) := HandleRead(s, AtWriteEnd, input);
      && s.log.received <= s'.log.received && s'.closed == s.closed
      && if !failed && ServeOne(r, Unread(s, s')).Some? then Serves(s, s', r)
         else Hands(s, s', []) && Contents(s'.readBuf) == Unread(s, s') && SameMode(s, s')
  {
    hide ReadPass, ServeOne;
    var p := ReadPass(AtWriteEnd, s.readBuf, input);
    var s1 := Receive(s, p);
    MeantPassIsFifo(s.readBuf, input);
    assert s1.log.received[|s.log.received|..] == p.bytes;
    NothingHanded(s, s1);
    if p.ok {
      ExtractServes(s1);
      var n := ServeOne(r, Contents(s1.readBuf));
      if n.Some? {
        var s' := Extract(s1);
        NoticeHands(s, s', ReadDone(Contents(s1.readBuf)[..n.value]), s.readCb);
        TakenContents(s1.readBuf, n.value);
      }
    }
  }

  /** A stored request, its pass, and what follows it whether the pass succeeded or not. */
  lemma PassThenMoves(s: Stream, r: Request, input: Input, s': Stream)
    requires OneMode(s) && Pending(s) == Some(r) && !s.readUntilClose && s.readCb.Some?
    requires var (s1, failed) := HandleRead(s, AtWriteEnd, input);
      ReadsNothing(s1, s') && (failed ==> s'.closed)
    ensures Moves(s, s', r)
  {
    hide HandleRead, ServeOne, Contents;
    PassServes(s, r, input);
    var (s1, failed) := HandleRead(s, AtWriteEnd, input);
    if !failed && ServeOne(r, Unread(s, s1)).Some? {
      MovesOn(s, s1, s', r);
    } else {
      HandsOn(s, s1, s', [], []);
    }
  }

  lemma ReadLeavesMode(s: Stream, input: Input)
    requires !s.readUntilClose
    ensures var s1 := HandleRead(s, AtWriteEnd, input).0; !s1.readUntilClose && s1.closed == s.closed
  {
    hide ReadPass, Find;
  }

  lemma StartReadMoves(s: Stream, r: Request, input: Input, failure: int)
    requires OneMode(s) && Pending(s) == Some(r) && !s.readUntilClose && s.readCb.Some?
    ensures Moves(s, StartRead(s, AtWriteEnd, input, failure).0, r)
  {
    hide HandleRead, Close, AddState, Moves, ReadsNothing;
    var (s1, failed) := HandleRead(s, AtWriteEnd, input);
    ReadLeavesMode(s, input);
    CloseReadsNothing(s1);
    AddStateReadsNothing(s1, READ);
    CloseCloses(s1);
    PassThenMoves(s, r, input, StartRead(s, AtWriteEnd, input, failure).0);
  }

  lemma CloseCloses(s: Stream)
    ensures Close(s).closed
  {
  }

  /** An event pass with a request waiting. */
  lemma EventsServe(s: Stream, r: Request, events: Mask, input: Input, output: Output)
    requires Asking(s, r) && !s.connecting
    ensures Moves(s, HandleEvents(s, AtWriteEnd, events, None, input, output), r)
  {
    hide HandleRead, Close, FinishEvents, ServeOne;
    var s' := HandleEvents(s, AtWriteEnd, events, None, input, output);
    NothingHanded(s, s);
    assert Contents(s.readBuf) + "" == Contents(s.readBuf);
    assert Moves(s, s, r);
    if !s.closed {
      ReadLeavesMode(s, input);
      var (s1, failed) := if events.read then HandleRead(s, AtWriteEnd, input) else (s, false);
      CloseReadsNothing(s1);
      CloseCloses(s1);
      FinishReadsNothing(s1, events, output);
      if events.read { PassThenMoves(s, r, input, s'); } else { MovesOn(s, s, s', r); }
    }
  }

  /** With nothing asked for a step only receives. */
  ghost predicate Receives(s: Stream, s': Stream) {
    && s.log.received <= s'.log.received && (s.closed ==> s'.closed)
    && Hands(s, s', []) && Contents(s'.readBuf) == Unread(s, s') && StreamModel.Idle(s')
  }

  lemma IdleReads(s: Stream, input: Input)
    requires StreamModel.Idle(s)
    ensures Receives(s, HandleRead(s, AtWriteEnd, input).0)
  {
    hide ReadPass;
    var s1 := Receive(s, ReadPass(AtWriteEnd, s.readBuf, input));
    MeantPassIsFifo(s.readBuf, input);
    NothingHanded(s, s1);
  }

  lemma ReceivesOn(a: Stream, b: Stream, c: Stream)
    requires Receives(a, b) && ReadsNothing(b, c)
    ensures Receives(a, c)
  {
    HandsOn(a, b, c, [], []);
    assert Unread(a, c) == Unread(a, b);
  }

  lemma IdleEvents(s: Stream, events: Mask, input: Input, output: Output)
    requires StreamModel.Idle(s) && !s.connecting
    ensures Receives(s, HandleEvents(s, AtWriteEnd, events, None, input, output))
  {
    hide HandleRead, Close, FinishEvents;
    var s' := HandleEvents(s, AtWriteEnd, events, None, input, output);
    NothingHanded(s, s);
    assert Contents(s.readBuf) + "" == Contents(s.readBuf);
    assert Receives(s, s);
    if !s.closed {
      IdleReads(s, input);
      var (s1, failed) := if events.read then HandleRead(s, AtWriteEnd, input) else (s, false);
      CloseReadsNothing(s1);
      FinishReadsNothing(s1, events, output);
      ReceivesOn(s, s1, s');
    }
  }

  /** A request the buffer serves at once. */
  lemma ServedNow(s: Stream, r: Request, n: nat, cb: Script)
    requires StreamModel.Idle(s) && !r.ToClose? && ServeOne(r, Contents(s.readBuf)) == Some(n)
    ensures Moves(s, Deliver(Requested(s, r, Some(cb)), n, Some(cb)), r)
  {
    hide ServeOne;
    var s' := Deliver(Requested(s, r, Some(cb)), n, Some(cb));
    NoticeHands(s, s', ReadDone(Contents(s.readBuf)[..n]), Some(cb));
    assert Unread(s, s') == Contents(s.readBuf);
    TakenContents(s.readBuf, n);
  }

  /** Asking a stream, open or closed, for so many bytes. */
  lemma CountMoves(s: Stream, n: int, cb: Script, input: Input)
    requires StreamModel.Idle(s) && n > 0
    ensures Moves(s, ReadBytes(s, AtWriteEnd, n, Some(cb), input).0, Count(n))
  {
    hide StartRead, Moves;
    if Readable(s.readBuf) >= n {
      ServedNow(s, Count(n), n, cb);
    } else {
      var asked := Requested(s, Count(n), Some(cb)).(readBytes := n, readCb := Some(cb));
      StartReadMoves(asked, Count(n), input, -2);
      MovesFromAsked(s, asked, ReadBytes(s, AtWriteEnd, n, Some(cb), input).0, Count(n));
    }
  }

  lemma MovesFromAsked(s: Stream, asked: Stream, s': Stream, r: Request)
    requires Moves(asked, s', r)
    requires asked.posted == s.posted && asked.readBuf == s.readBuf && asked.log.received == s.log.received
    requires asked.closed == s.closed
    ensures Moves(s, s', r)
  {
    hide ServeOne, Contents, Asking;
  }

  /** Asking for everything up to a delimiter. */
  lemma UntilMoves(s: Stream, d: string, cb: Script, input: Input)
    requires StreamModel.Idle(s) && d != ""
    ensures Moves(s, ReadUntil(s, AtWriteEnd, d, Some(cb), input).0, Until(d))
  {
    hide StartRead, Moves, Find;
    var i := Find(Contents(s.readBuf), d);
    if i >= 0 {
      ServedNow(s, Until(d), i + |d|, cb);
    } else {
      var asked := Requested(s, Until(d), Some(cb)).(readDelimiter := d, readCb := Some(cb));
      StartReadMoves(asked, Until(d), input, -2);
      MovesFromAsked(s, asked, ReadUntil(s, AtWriteEnd, d, Some(cb), input).0, Until(d));
    }
  }

  // ---------------------------------------------------------------------- the request

  /** The request a printed message is parsed into: what it holds is ParsePrint's to say. */
  function Meant(m: Message): HttpRequest
    requires Good(m)
  {
    ParseRequest(NO_REQUEST, Print(m)).0
  }

  /** A message whose head declares exactly this body. */
  ghost predicate Declares(m: Message, body: string) {
    Good(m) && |body| <= MAX_BODY
    && if body == "" then ContentLength(Meant(m)) <= 0 else ContentLength(Meant(m)) == |body|
  }

  /** The arguments of a form body, and whether it is well-formed; any other body has none. */
  function Form(m: Message, body: string): (map<string, string>, bool)
    requires Good(m)
  {
    var r := Meant(m);
    if body != "" && r.verb == "POST"
       && StartsWith(Lookup(r.headers.fields, "Content-Encoding"), "application/x-www-form-urlencoded")
    then ParsePairs(map[], Split(body, '&'), false)
    else (map[], true)
  }

  /** The connection holds the request meant, with this very body. */
  ghost predicate Exact(c: Conn, m: Message, body: string)
    requires Good(m)
  {
    c.request == Meant(m) && c.body == body && c.bodyArguments == Form(m, body).0
  }

  // ------------------------------------------------------------------- how far it is

  ghost predicate Blank(c: Conn) { c.body == "" && c.bodyArguments == map[] }

  /** The head: not all there yet; or handed over, with what follows it left in the buffer. */
  ghost predicate HeadOnItsWay(c: Conn, q: seq<string>, m: Message)
    requires Good(m)
  {
    var s := c.stream;
    && c.request == NO_REQUEST && Blank(c)
    && if q == [] then Asking(s, Until(BLANK)) && Contents(s.readBuf) == s.log.received
       else q == [Print(m)] && StreamModel.Idle(s) && s.log.received == Print(m) + Contents(s.readBuf)
  }

  /** The body: not all there yet; handed over; or refused, and the stream closed. */
  ghost predicate BodyOnItsWay(c: Conn, q: seq<string>, m: Message, body: string)
    requires Good(m)
  {
    var s := c.stream;
    body != "" &&
    ((q == [] && s.closed)
     || (c.request == Meant(m) && Blank(c)
         && if q == [] then Asking(s, Count(|body|)) && s.log.received == Print(m) + Contents(s.readBuf)
            else q == [body] && StreamModel.Idle(s) && Print(m) + body <= s.log.received))
  }

  ghost predicate OnItsWay(v: Server, m: Message, body: string)
    requires Good(m)
  {
    var c, posted := v.http.conn, v.http.conn.stream.posted;
    match v.phase
    case AwaitingHead => v.http.ran <= |posted| && HeadOnItsWay(c, Carried(posted, v.http.ran), m)
    case AwaitingBody => v.http.ran <= |posted| && BodyOnItsWay(c, Carried(posted, v.http.ran), m, body)
    case Dispatched => Exact(c, m, body)
  }

  // ------------------------------------------------------------------- what was handed

  lemma PrefixTake(x: string, c: string, k: nat)
    requires x <= c && k <= |x|
    ensures x[..k] == c[..k]
  {
  }

  /** What a head read hands over, when the client sends the message first, is its head. */
  lemma HeadHanded(m: Message, x: string, all: string)
    requires Good(m) && Print(m) <= all && x <= all && ServeOne(Until(BLANK), x).Some?
    ensures var k := ServeOne(Until(BLANK), x).value; x[..k] == Print(m) && x == Print(m) + x[k..]
  {
    var more, rest := all[|Print(m)|..], all[|x|..];
    HeadEndsFirst(m, more);
    assert all == Print(m) + more && all == x + rest;
    FindIsStable(x, BLANK, rest);
    PrefixTake(x, all, |Print(m)|);
  }

  /** And a body read hands over its body. */
  lemma BodyHanded(head: string, body: string, x: string, all: string)
    requires head + body <= all && head + x <= all && |body| <= |x|
    ensures x[..|body|] == body
  {
    assert (head + x)[|head|..][..|body|] == all[|head|..|head| + |body|] == (head + body)[|head|..];
  }

  lemma CarriedOn(s: Stream, s': Stream, ran: nat, data: seq<string>)
    requires Hands(s, s', data) && ran <= |s.posted|
    ensures ran <= |s'.posted| && Carried(s'.posted, ran) == Carried(s.posted, ran) + data
  {
    CarriedGrows(s.posted, s'.posted, ran);
  }

  lemma ReceivedMore(s: Stream, s': Stream, head: string)
    requires s.log.received <= s'.log.received && s.log.received == head + Contents(s.readBuf)
    ensures s'.log.received == head + Unread(s, s')
  {
    assert s'.log.received == s.log.received + s'.log.received[|s.log.received|..];
    ConcatAssoc(head, Contents(s.readBuf), s'.log.received[|s.log.received|..]);
  }

  // ------------------------------------------------------------------------ event passes

  lemma HeadEvents(c: Conn, c': Conn, ran: nat, m: Message, all: string, events: Mask, input: Input, output: Output)
    requires Good(m) && Print(m) <= all && ran <= |c.stream.posted| && !c.stream.connecting
    requires HeadOnItsWay(c, Carried(c.stream.posted, ran), m)
    requires c' == c.(stream := HandleEvents(c.stream, AtWriteEnd, events, None, input, output))
    requires c'.stream.log.received <= all
    ensures ran <= |c'.stream.posted| && HeadOnItsWay(c', Carried(c'.stream.posted, ran), m)
  {
    assert m.query.Some? ==> m.query.value != [];
    hide HandleEvents, ServeOne, Print, Good, Contents;
    var s, s', q := c.stream, c'.stream, Carried(c.stream.posted, ran);
    if q == [] {
      EventsServe(s, Until(BLANK), events, input, output);
      HeadMoved(c, c', ran, m, all);
    } else {
      IdleEvents(s, events, input, output);
      CarriedOn(s, s', ran, []);
      ReceivedMore(s, s', Print(m));
    }
  }

  lemma HeadMoved(c: Conn, c': Conn, ran: nat, m: Message, all: string)
    requires Good(m) && Print(m) <= all && ran <= |c.stream.posted|
    requires c.request == NO_REQUEST && Blank(c) && c' == c.(stream := c'.stream)
    requires Carried(c.stream.posted, ran) == [] && Contents(c.stream.readBuf) == c.stream.log.received
    requires Moves(c.stream, c'.stream, Until(BLANK)) && c'.stream.log.received <= all
    ensures ran <= |c'.stream.posted| && HeadOnItsWay(c', Carried(c'.stream.posted, ran), m)
  {
    assert m.query.Some? ==> m.query.value != [];
    hide ServeOne, Print, Good, Contents;
    var s, s' := c.stream, c'.stream;
    assert s.log.received == "" + Contents(s.readBuf);
    ReceivedMore(s, s', "");
    assert "" + Unread(s, s') == Unread(s, s');
    if Waits(s, s', Until(BLANK)) {
      CarriedOn(s, s', ran, []);
    } else {
      HeadHanded(m, Unread(s, s'), all);
      CarriedOn(s, s', ran, [Print(m)]);
    }
  }

  lemma BodyWaits(c: Conn, c': Conn, ran: nat, m: Message, body: string)
    requires Good(m) && body != "" && ran <= |c.stream.posted|
    requires c.request == Meant(m) && Blank(c) && c' == c.(stream := c'.stream) && Carried(c.stream.posted, ran) == []
    requires c.stream.log.received == Print(m) + Contents(c.stream.readBuf)
    requires c.stream.log.received <= c'.stream.log.received && Waits(c.stream, c'.stream, Count(|body|))
    ensures ran <= |c'.stream.posted| && BodyOnItsWay(c', Carried(c'.stream.posted, ran), m, body)
  {
    assert m.query.Some? ==> m.query.value != [];
    hide Print, Good, Contents, Meant, Asking, Unread, Carried;
    ReceivedMore(c.stream, c'.stream, Print(m));
    CarriedOn(c.stream, c'.stream, ran, []);
  }

  lemma BodyComes(c: Conn, c': Conn, ran: nat, m: Message, body: string, all: string)
    requires Good(m) && body != "" && Print(m) + body <= all && ran <= |c.stream.posted|
    requires c.request == Meant(m) && Blank(c) && c' == c.(stream := c'.stream) && Carried(c.stream.posted, ran) == []
    requires c.stream.log.received == Print(m) + Contents(c.stream.readBuf)
    requires c.stream.log.received <= c'.stream.log.received && Serves(c.stream, c'.stream, Count(|body|))
    requires c'.stream.log.received <= all
    ensures ran <= |c'.stream.posted| && BodyOnItsWay(c', Carried(c'.stream.posted, ran), m, body)
  {
    assert m.query.Some? ==> m.query.value != [];
    hide Print, Good, Contents, Meant, Asking, Unread, Carried;
    var x := Unread(c.stream, c'.stream);
    ReceivedMore(c.stream, c'.stream, Print(m));
    BodyHanded(Print(m), body, x, all);
    BodyIsThere(Print(m), body, x);
    CarriedOn(c.stream, c'.stream, ran, [body]);
  }

  lemma BodyIsThere(head: string, body: string, x: string)
    requires |body| <= |x| && x[..|body|] == body
    ensures head + body <= head + x
  {
    assert x == body + x[|body|..];
    ConcatAssoc(head, body, x[|body|..]);
  }

  lemma BodyMoved(c: Conn, c': Conn, ran: nat, m: Message, body: string, all: string)
    requires Good(m) && body != "" && Print(m) + body <= all && ran <= |c.stream.posted|
    requires c.request == Meant(m) && Blank(c) && c' == c.(stream := c'.stream)
    requires Carried(c.stream.posted, ran) == [] && c.stream.log.received == Print(m) + Contents(c.stream.readBuf)
    requires Moves(c.stream, c'.stream, Count(|body|)) && c'.stream.log.received <= all
    ensures ran <= |c'.stream.posted| && BodyOnItsWay(c', Carried(c'.stream.posted, ran), m, body)
  {
    assert m.query.Some? ==> m.query.value != [];
    hide Print, Good, Contents, Meant, Waits, Serves, Carried, BodyOnItsWay;
    if Waits(c.stream, c'.stream, Count(|body|)) { BodyWaits(c, c', ran, m, body); }
    else { BodyComes(c, c', ran, m, body, all); }
  }

  lemma BodyEvents(c: Conn, c': Conn, ran: nat, m: Message, body: string, all: string,
      events: Mask, input: Input, output: Output)
    requires Good(m) && Print(m) + body <= all && ran <= |c.stream.posted| && !c.stream.connecting
    requires BodyOnItsWay(c, Carried(c.stream.posted, ran), m, body)
    requires c' == c.(stream := HandleEvents(c.stream, AtWriteEnd, events, None, input, output))
    requires c'.stream.log.received <= all
    ensures ran <= |c'.stream.posted| && BodyOnItsWay(c', Carried(c'.stream.posted, ran), m, body)
  {
    assert m.query.Some? ==> m.query.value != [];
    hide HandleEvents, ServeOne, Print, Good, Contents, Meant;
    var s, s', q := c.stream, c'.stream, Carried(c.stream.posted, ran);
    if s.closed {
      ClosedStreamIdles(s, AtWriteEnd, events, input, output);
    } else if q == [] {
      EventsServe(s, Count(|body|), events, input, output);
      BodyMoved(c, c', ran, m, body, all);
    } else {
      IdleEvents(s, events, input, output);
      CarriedOn(s, s', ran, []);
    }
  }

  // ---------------------------------------------------------------------- notices run

  lemma EncourageReadsNothing(s: Stream, r: HttpRequest, output: Output)
    requires StreamModel.Idle(s)
    ensures ReadsNothing(s, Encourage(s, r, output)) && StreamModel.Idle(Encourage(s, r, output))
  {
    hide WriteBytes;
    SameReadSide(s, s);
    BytesReadNothing(s, CONTINUE, output);
  }

  /** What follows a head that was handed over. */
  lemma HeadRuns(c: Conn, ran: nat, m: Message, body: string, all: string, input: Input, output: Output)
    requires Declares(m, body) && Print(m) + body <= all && ran <= |c.stream.posted|
    requires c.request == NO_REQUEST && Blank(c) && StreamModel.Idle(c.stream)
    requires Carried(c.stream.posted, ran) == [] && c.stream.log.received == Print(m) + Contents(c.stream.readBuf)
    requires OnHeaders(c, AtWriteEnd, Print(m), input, output).0.stream.log.received <= all
    ensures var (c', go) := OnHeaders(c, AtWriteEnd, Print(m), input, output);
      if go then Exact(c', m, body)
      else ran <= |c'.stream.posted| && BodyOnItsWay(c', Carried(c'.stream.posted, ran), m, body)
  {
    ParsePrint(m);
    assert m.query.Some? ==> m.query.value != [];
    hide ParseRequest, Print, Good, ReadBytes, Encourage, Contents, BodyOnItsWay;
    var r := Meant(m);
    if body != "" {
      var c1 := c.(request := r, stream := Encourage(c.stream, r, output));
      EncourageReadsNothing(c.stream, r, output);
      CarriedOn(c.stream, c1.stream, ran, []);
      CountMoves(c1.stream, |body|, ON_BODY, input);
      BodyAwaited(c, AtWriteEnd, Print(m), input, output);
      var s' := ReadBytes(c1.stream, AtWriteEnd, |body|, Some(ON_BODY), input).0;
      BodyMoved(c1, c1.(stream := s'), ran, m, body, all);
    }
  }

  /** What follows a body that was handed over. */
  lemma BodyRuns(c: Conn, ran: nat, m: Message, body: string)
    requires Good(m) && body != "" && ran <= |c.stream.posted|
    requires c.request == Meant(m) && Blank(c) && StreamModel.Idle(c.stream) && Carried(c.stream.posted, ran) == []
    ensures var (c', go) := OnRequestBody(c, body);
      && (go <==> Form(m, body).1)
      && if go then Exact(c', m, body) && c'.stream == c.stream
         else ran <= |c'.stream.posted| && BodyOnItsWay(c', Carried(c'.stream.posted, ran), m, body)
  {
    hide Close, Meant, Good;
    CloseReadsNothing(c.stream);
    CloseCloses(c.stream);
    CarriedOn(c.stream, Close(c.stream), ran, []);
  }

  lemma NextCarried(posted: seq<Task>, ran: nat)
    requires ran < |posted|
    ensures Carried(posted, ran) ==
      (if posted[ran].kind.ReadDone? then [posted[ran].kind.data] else []) + Carried(posted, ran + 1)
  {
  }

  lemma HeadCarried(c: Conn, data: string, rest: seq<string>, m: Message)
    requires Good(m) && HeadOnItsWay(c, [data] + rest, m)
    ensures data == Print(m) && rest == [] && c.request == NO_REQUEST && Blank(c) && StreamModel.Idle(c.stream)
    ensures c.stream.log.received == Print(m) + Contents(c.stream.readBuf)
  {
    assert ([data] + rest)[0] == data && |[Print(m)]| == 1;
  }

  lemma BodyCarried(c: Conn, data: string, rest: seq<string>, m: Message, body: string)
    requires Good(m) && BodyOnItsWay(c, [data] + rest, m, body)
    ensures data == body != "" && rest == [] && c.request == Meant(m) && Blank(c) && StreamModel.Idle(c.stream)
  {
    assert ([data] + rest)[0] == data && |[body]| == 1;
  }

  /** The notice that ends the wait for the head enters onHeaders. */
  lemma HeadNoticeIs(v: Server, fill: Fill, input: Input, output: Output)
    requires v.phase == AwaitingHead && v.http.ran < |v.http.conn.stream.posted|
    requires v.http.conn.stream.posted[v.http.ran].kind.ReadDone?
    ensures var h := v.http; var (c, go) := OnHeaders(h.conn, fill, h.conn.stream.posted[h.ran].kind.data, input, output);
      RunNotice(v, fill, input, output) ==
      Server(h.(conn := c, ran := h.ran + 1), if go then Dispatched else AwaitingBody)
  {
    hide OnHeaders;
  }

  lemma HeadIsOnItsWay(v: Server, m: Message, body: string)
    requires Good(m) && v.phase == AwaitingHead && OnItsWay(v, m, body)
    ensures v.http.ran <= |v.http.conn.stream.posted|
    ensures HeadOnItsWay(v.http.conn, Carried(v.http.conn.stream.posted, v.http.ran), m)
  {
    hide Good, HeadOnItsWay, Carried;
  }

  lemma PastTheHead(v: Server, m: Message, body: string)
    requires Good(m) && v.phase != AwaitingHead && (v.phase == Dispatched ==> Exact(v.http.conn, m, body))
    requires v.phase == AwaitingBody ==>
      (v.http.ran <= |v.http.conn.stream.posted|
       && BodyOnItsWay(v.http.conn, Carried(v.http.conn.stream.posted, v.http.ran), m, body))
    ensures OnItsWay(v, m, body)
  {
    hide Good, BodyOnItsWay, Carried, Exact;
  }

  /** The head in the notice about to be run. */
  lemma HeadIsDue(v: Server, m: Message, body: string)
    requires Good(m) && v.phase == AwaitingHead && OnItsWay(v, m, body)
    requires v.http.ran < |v.http.conn.stream.posted| && v.http.conn.stream.posted[v.http.ran].kind.ReadDone?
    ensures var c, posted := v.http.conn, v.http.conn.stream.posted;
      && posted[v.http.ran].kind == ReadDone(Print(m)) && Carried(posted, v.http.ran + 1) == []
      && c.request == NO_REQUEST && Blank(c) && StreamModel.Idle(c.stream)
      && c.stream.log.received == Print(m) + Contents(c.stream.readBuf)
  {
    assert m.query.Some? ==> m.query.value != [];
    hide Good, HeadOnItsWay, Print, Carried, Contents, OnItsWay;
    var posted, ran := v.http.conn.stream.posted, v.http.ran;
    HeadIsOnItsWay(v, m, body);
    NextCarried(posted, ran);
    HeadCarried(v.http.conn, posted[ran].kind.data, Carried(posted, ran + 1), m);
  }

  lemma HeadNotice(v: Server, m: Message, body: string, all: string, input: Input, output: Output)
    requires Declares(m, body) && Print(m) + body <= all && v.phase == AwaitingHead && OnItsWay(v, m, body)
    requires v.http.ran < |v.http.conn.stream.posted| && v.http.conn.stream.posted[v.http.ran].kind.ReadDone?
    requires RunNotice(v, AtWriteEnd, input, output).http.conn.stream.log.received <= all
    ensures OnItsWay(RunNotice(v, AtWriteEnd, input, output), m, body)
  {
    assert Good(m) && (m.query.Some? ==> m.query.value != []);
    hide Good, Declares, OnHeaders, BodyOnItsWay, Print, Carried, Exact, Contents, RunNotice, OnItsWay;
    HeadIsDue(v, m, body);
    HeadNoticeIs(v, AtWriteEnd, input, output);
    HeadRuns(v.http.conn, v.http.ran + 1, m, body, all, input, output);
    PastTheHead(RunNotice(v, AtWriteEnd, input, output), m, body);
  }

  lemma BodyNotice(v: Server, m: Message, body: string, input: Input, output: Output)
    requires Good(m) && v.phase == AwaitingBody && OnItsWay(v, m, body)
    requires v.http.ran < |v.http.conn.stream.posted| && v.http.conn.stream.posted[v.http.ran].kind.ReadDone?
    ensures OnItsWay(RunNotice(v, AtWriteEnd, input, output), m, body)
  {
    hide Good, OnRequestBody, HeadOnItsWay, BodyOnItsWay, Print, Carried, Meant, Exact, Form, Contents;
    var c, posted, ran := v.http.conn, v.http.conn.stream.posted, v.http.ran;
    NextCarried(posted, ran);
    BodyCarried(c, posted[ran].kind.data, Carried(posted, ran + 1), m, body);
    BodyRuns(c, ran + 1, m, body);
  }

  /** Any other notice leaves a connection not yet finished as it is. */
  lemma OtherNotice(v: Server, fill: Fill, input: Input, output: Output)
    requires v.phase != Dispatched && !v.http.conn.requestFinished && v.http.ran <= |v.http.conn.stream.posted|
    requires v.http.ran < |v.http.conn.stream.posted| ==> !v.http.conn.stream.posted[v.http.ran].kind.ReadDone?
    ensures var v', posted := RunNotice(v, fill, input, output), v.http.conn.stream.posted;
      && v'.phase == v.phase && v'.http.conn == v.http.conn && v'.http.ran <= |posted|
      && v'.http.ran == (if v.http.ran < |posted| then v.http.ran + 1 else v.http.ran)
      && Carried(posted, v'.http.ran) == Carried(posted, v.http.ran)
  {
    var posted, ran := v.http.conn.stream.posted, v.http.ran;
    if ran < |posted| { assert [] + Carried(posted, ran + 1) == Carried(posted, ran + 1); }
  }

  /** The loop runs a notice before the request is dispatched. */
  lemma RunOnItsWay(v: Server, m: Message, body: string, all: string, input: Input, output: Output)
    requires Declares(m, body) && Print(m) + body <= all && v.phase != Dispatched && Early(v) && OnItsWay(v, m, body)
    requires RunNotice(v, AtWriteEnd, input, output).http.conn.stream.log.received <= all
    ensures OnItsWay(RunNotice(v, AtWriteEnd, input, output), m, body)
  {
    assert Good(m) && (m.query.Some? ==> m.query.value != []);
    hide Good, Declares, RunNotice, HeadOnItsWay, BodyOnItsWay, Print, Carried, Meant;
    var posted, ran := v.http.conn.stream.posted, v.http.ran;
    if ran < |posted| && posted[ran].kind.ReadDone? {
      if v.phase == AwaitingHead { HeadNotice(v, m, body, all, input, output); }
      else { BodyNotice(v, m, body, input, output); }
    } else {
      OtherNotice(v, AtWriteEnd, input, output);
    }
  }

  // ------------------------------------------------------------------------- whole runs

  lemma FinishReceives(h: Http, reason: string, date: string, output: Output)
    ensures Grows(h.conn.stream, HandlerFinish(h, reason, date, output).conn.stream)
    ensures SameRequest(h.conn, HandlerFinish(h, reason, date, output).conn)
  {
    hide JustWrite, StreamModel.WriteBytes, Close, Head, Grows;
    var head := Head(h.status, reason, date, |h.buff|);
    var s := h.conn.stream;
    var s1 := JustWrite(s, head).0;
    var s2 := WriteBytesWith(s1, h.buff, output, Some(ON_WRITE_COMPLETE)).0;
    GrowsSelf(s);
    BytesGrow(s, head, output);
    WithGrows(s1, h.buff, output, Some(ON_WRITE_COMPLETE));
    CloseKeepsAll(s2);
    GrowsOn(s, s1, s2);
    GrowsOn(s, s2, Close(s2));
  }

  lemma CloseKeepsAll(s: Stream)
    ensures Grows(s, Close(s))
  {
    CloseGrows(s);
  }

  lemma WithGrows(s: Stream, data: string, output: Output, cb: Option<Script>)
    ensures Grows(s, WriteBytesWith(s, data, output, cb).0)
  {
    hide StreamModel.WriteBytes;
    BytesGrow(s.(writeCb := cb), data, output);
  }

  ghost predicate SameRequest(c: Conn, c': Conn) {
    c'.request == c.request && c'.body == c.body && c'.bodyArguments == c.bodyArguments
  }

  lemma ActReceives(h: Http, fill: Fill, a: Action)
    ensures Grows(h.conn.stream, Act(h, fill, a).conn.stream) && SameRequest(h.conn, Act(h, fill, a).conn)
  {
    hide HandlerFinish, ErrorPage, HandleEvents, Close, Grows;
    var s := h.conn.stream;
    GrowsSelf(s);
    match a
    case CallWrite(_) =>
    case CallFinish(reason, date, output) => FinishReceives(h, reason, date, output);
    case CallError(status, reason, date, output) =>
      FinishReceives(HandlerWrite(h.(status := status), ErrorPage(status, reason)), reason, date, output);
    case LoopEvents(events, input, output) => StepGrows(s, fill, OpEvents(events, None, input, output));
    case LoopRunsNext => CloseKeepsAll(s);
  }

  lemma HeadersReceive(c: Conn, fill: Fill, data: string, input: Input, output: Output)
    ensures Grows(c.stream, OnHeaders(c, fill, data, input, output).0.stream)
  {
    hide ParseRequest, WriteBytes, ReadBytes, Close, Grows;
    var r := ParseRequest(c.request, data).0;
    var s1 := Encourage(c.stream, r, output);
    var n := ContentLength(r);
    GrowsSelf(c.stream);
    CloseGrows(c.stream);
    BytesGrow(c.stream, CONTINUE, output);
    StepGrows(s1, fill, OpReadBytes(n, Some(ON_BODY), input));
    GrowsOn(c.stream, s1, ReadBytes(s1, fill, n, Some(ON_BODY), input).0);
  }

  /** No move takes back what was received. */
  lemma AdvanceReceives(v: Server, fill: Fill, mv: Move)
    ensures Grows(v.http.conn.stream, Advance(v, fill, mv).http.conn.stream)
  {
    hide OnHeaders, OnRequestBody, Close, Grows, Act;
    var h, posted := v.http, v.http.conn.stream.posted;
    GrowsSelf(h.conn.stream);
    match mv
    case StreamEvents(events, input, output) => ActReceives(h, fill, LoopEvents(events, input, output));
    case HandlerCalls(call) => ActReceives(h, fill, call);
    case LoopRuns(input, output) =>
      ActReceives(h, fill, LoopRunsNext);
      ActRunsNext(h, fill);
      if h.ran < |posted| && posted[h.ran].kind.ReadDone? {
        HeadersReceive(h.conn, fill, posted[h.ran].kind.data, input, output);
        BodyClosesOrNot(h.conn, posted[h.ran].kind.data);
        CloseGrows(h.conn.stream);
      }
  }

  lemma ActRunsNext(h: Http, fill: Fill)
    ensures Act(h, fill, LoopRunsNext) == RunNext(h)
  {
  }

  lemma {:induction false} AllReceive(v: Server, fill: Fill, moves: seq<Move>)
    ensures v.http.conn.stream.log.received <= AdvanceAll(v, fill, moves).http.conn.stream.log.received
    decreases |moves|
  {
    hide Advance;
    if moves != [] {
      AdvanceReceives(v, fill, moves[0]);
      AllReceive(Advance(v, fill, moves[0]), fill, moves[1..]);
    }
  }

  lemma EventsOnTheirWay(v: Server, m: Message, body: string, all: string, events: Mask, input: Input, output: Output)
    requires Good(m) && Print(m) + body <= all && OnItsWay(v, m, body) && v.phase != Dispatched
    requires !v.http.conn.stream.connecting
    requires Advance(v, AtWriteEnd, StreamEvents(events, input, output)).http.conn.stream.log.received <= all
    ensures OnItsWay(Advance(v, AtWriteEnd, StreamEvents(events, input, output)), m, body)
  {
    assert m.query.Some? ==> m.query.value != [];
    assert Print(m) <= Print(m) + body;
    hide HandleEvents, HeadOnItsWay, BodyOnItsWay, Print, Good, Carried, Advance;
    var c := v.http.conn;
    var c' := c.(stream := HandleEvents(c.stream, AtWriteEnd, events, None, input, output));
    EventsAdvance(v, AtWriteEnd, events, input, output);
    if c.stream.slot.None? {
      assert c.(stream := c.stream) == c;
    } else if v.phase == AwaitingHead {
      HeadEvents(c, c', v.http.ran, m, all, events, input, output);
    } else {
      BodyEvents(c, c', v.http.ran, m, body, all, events, input, output);
    }
  }

  /** Once dispatched the request stays what it is. */
  lemma DispatchedStaysExact(v: Server, fill: Fill, mv: Move, m: Message, body: string)
    requires Good(m) && v.phase == Dispatched && OnItsWay(v, m, body)
    ensures OnItsWay(Advance(v, fill, mv), m, body)
  {
    hide Good, Act, RunNext, Meant, Form;
    match mv
    case StreamEvents(events, input, output) => ActReceives(v.http, fill, LoopEvents(events, input, output));
    case HandlerCalls(call) => ActReceives(v.http, fill, call);
    case LoopRuns(_, _) =>
      ActReceives(v.http, fill, LoopRunsNext);
      ActRunsNext(v.http, fill);
  }

  lemma AdvanceOnItsWay(v: Server, mv: Move, m: Message, body: string, all: string)
    requires Declares(m, body) && Print(m) + body <= all && Tended(v) && Early(v) && OnItsWay(v, m, body)
    requires Advance(v, AtWriteEnd, mv).http.conn.stream.log.received <= all
    ensures OnItsWay(Advance(v, AtWriteEnd, mv), m, body)
  {
    assert Good(m) && (m.query.Some? ==> m.query.value != []);
    assert !v.http.conn.stream.connecting;
    hide Declares, Good, OnItsWay, Tended, Early, Print, Act, RunNotice;
    if v.phase == Dispatched {
      DispatchedStaysExact(v, AtWriteEnd, mv, m, body);
    } else {
      match mv
      case StreamEvents(events, input, output) => EventsOnTheirWay(v, m, body, all, events, input, output);
      case LoopRuns(input, output) => RunOnItsWay(v, m, body, all, input, output);
      case HandlerCalls(_) =>
    }
  }

  lemma AdvanceStaysEarly(v: Server, fill: Fill, mv: Move)
    requires Tended(v) && Early(v)
    ensures Early(Advance(v, fill, mv))
  {
    hide HandleEvents, RunNotice, Act;
    match mv
    case StreamEvents(events, input, output) =>
      if v.phase != Dispatched { EventsStayEarly(v, fill, events, input, output); }
    case LoopRuns(input, output) => RunStaysEarly(v, fill, input, output);
    case HandlerCalls(_) =>
  }

  lemma {:induction false} AllOnTheirWay(v: Server, moves: seq<Move>, m: Message, body: string, all: string)
    requires Declares(m, body) && Print(m) + body <= all && Tended(v) && Early(v) && OnItsWay(v, m, body)
    requires AdvanceAll(v, AtWriteEnd, moves).http.conn.stream.log.received <= all
    ensures OnItsWay(AdvanceAll(v, AtWriteEnd, moves), m, body)
    decreases |moves|
  {
    assert Good(m) && (m.query.Some? ==> m.query.value != []);
    hide Declares, Good, OnItsWay, Tended, Early, Print, Advance;
    if moves != [] {
      var v1 := Advance(v, AtWriteEnd, moves[0]);
      AllReceive(v1, AtWriteEnd, moves[1..]);
      AdvanceTends(v, AtWriteEnd, moves[0]);
      AdvanceStaysEarly(v, AtWriteEnd, moves[0]);
      AdvanceOnItsWay(v, moves[0], m, body, all);
      AllOnTheirWay(v1, moves[1..], m, body, all);
    }
  }

  lemma AcceptedOnItsWay(s: Stream, input: Input, m: Message, body: string, all: string)
    requires Fresh(s) && Good(m) && Print(m) <= all
    requires Accepted(s, AtWriteEnd, input).http.conn.stream.log.received <= all
    ensures OnItsWay(Accepted(s, AtWriteEnd, input), m, body)
  {
    assert m.query.Some? ==> m.query.value != [];
    hide Print, Good, ReadUntil, HeadOnItsWay;
    var s0 := s.(closeCb := Some(ON_CLOSE));
    assert BLANK == "\r\n\r\n";
    UntilMoves(s0, BLANK, ON_HEADERS, input);
    var s' := ReadUntil(s0, AtWriteEnd, BLANK, Some(ON_HEADERS), input).0;
    var c := Conn(s0, NO_REQUEST, map[], "", false);
    HeadMoved(c, c.(stream := s'), 0, m, all);
  }

  lemma NothingFound(s: Stream, d: string)
    requires Contents(s.readBuf) == ""
    ensures Find(Contents(s.readBuf), d) < 0
  {
  }

  /** A connection on which nothing has arrived yet. */
  lemma HeadWaits(s: Stream, fill: Fill)
    requires Fresh(s)
    ensures var v := Accepted(s, fill, WouldBlock); var t := v.http.conn.stream;
      && v == Server(Http(Conn(t, NO_REQUEST, map[], "", false), false, 200, "", "", "", 0, false), AwaitingHead)
      && t == s.(closeCb := Some(ON_CLOSE), readDelimiter := BLANK, readCb := Some(ON_HEADERS),
                 state := t.state, slot := t.slot, readBuf := t.readBuf, log := t.log)
      && Contents(t.readBuf) == "" && (s.reachable ==> t.slot.Some?)
  {
    hide Find;
    assert Readable(s.readBuf) == |Contents(s.readBuf)|;
    var s0 := s.(closeCb := Some(ON_CLOSE));
    var asked := Requested(s0, Until(BLANK), Some(ON_HEADERS)).(readDelimiter := BLANK, readCb := Some(ON_HEADERS));
    var s1 := Receive(asked, ReadPass(fill, s.readBuf, WouldBlock));
    assert BLANK == "\r\n\r\n";
    EnsuringKeepsContents(s.readBuf, READ_CHUNK);
    NothingFound(s, BLANK);
    NothingFound(s1, BLANK);
    assert ReadPass(fill, s.readBuf, WouldBlock) == Pass(true, Ensured(s.readBuf, READ_CHUNK), "");
    assert Find(Contents(s1.readBuf), s1.readDelimiter) < 0;
    assert Extract(s1) == s1;
  }

  /**
   Whatever the pieces in which its bytes come, whatever else the socket, the loop and the handler
   do, and whether or not the connection closes on the way: when a client first sends a printed
   message and the body it declares, a request that reaches its handler is that message, with
   exactly that body.
   */
  lemma DispatchedIsExact(s: Stream, m: Message, body: string, all: string, input: Input, moves: seq<Move>)
    requires Fresh(s) && Declares(m, body) && Print(m) + body <= all
    requires AdvanceAll(Accepted(s, AtWriteEnd, input), AtWriteEnd, moves).http.conn.stream.log.received <= all
    ensures var v := AdvanceAll(Accepted(s, AtWriteEnd, input), AtWriteEnd, moves);
      v.phase == Dispatched ==> Exact(v.http.conn, m, body)
  {
    var v := Accepted(s, AtWriteEnd, input);
    AcceptedIsTended(s, AtWriteEnd, input);
    AcceptedIsAddressed(s, AtWriteEnd, input);
    AllReceive(v, AtWriteEnd, moves);
    AcceptedOnItsWay(s, input, m, body, all);
    AllOnTheirWay(v, moves, m, body, all);
  }
}
