/**
 Streams that differ only in what is unread and in what they remember of the bytes received. Under
 the fill of the code a byte that is still unread can be lost, and with it all difference.
 */
module StreamTwins {
  import opened Common
  import opened LoopModel
  import opened Buffers
  import opened StreamModel

  /** The same but for the read buffer and the record of the bytes received. */
  ghost predicate Kin(s: Stream, t: Stream) {
    !s.readUntilClose && t == s.(readBuf := t.readBuf, log := s.log.(received := t.log.received))
  }

  ghost predicate Twins(s: Stream, t: Stream) { Kin(s, t) && t.readBuf == s.readBuf }

  /** Two texts that differ in one character at most. */
  ghost predicate SameBut(q: string, r: string, k: nat) {
    |r| == |q| && k < |q| && forall i :: 0 <= i < |q| && i != k ==> r[i] == q[i]
  }

  /** Two buffers that differ in one unread byte at most, the j-th. */
  ghost predicate Differ(b: Window, c: Window, j: nat) {
    c == b.(bytes := c.bytes) && j < Readable(b) && SameBut(b.bytes, c.bytes, b.read + j)
  }

  ghost predicate Near(s: Stream, t: Stream, j: nat) { Kin(s, t) && Differ(s.readBuf, t.readBuf, j) }

  /** What two kin do alike, without touching what is unread or what it is awaited with. */
  ghost predicate Alongside(s: Stream, t: Stream, s': Stream, t': Stream) {
    && Kin(s', t') && s'.readBuf == s.readBuf && t'.readBuf == t.readBuf
    && s'.readDelimiter == s.readDelimiter && s'.readBytes == s.readBytes
  }

  // --------------------------------------------------------------- apart from reading

  lemma CloseAlongside(s: Stream, t: Stream)
    requires Kin(s, t)
    ensures Alongside(s, t, Close(s), Close(t))
  {
    hide Contents, Deliver;
  }

  lemma UpdateAlongside(s: Stream, t: Stream, state: Mask)
    requires Kin(s, t)
    ensures Alongside(s, t, Updated(s, state), Updated(t, state))
  {
  }

  lemma AddAlongside(s: Stream, t: Stream, m: Mask)
    requires Kin(s, t)
    ensures Alongside(s, t, AddState(s, m), AddState(t, m))
  {
    hide Updated;
    UpdateAlongside(s, t, s.state.Union(m));
  }

  lemma WriteAlongside(s: Stream, t: Stream, output: Output)
    requires Kin(s, t)
    ensures var (s', failed) := HandleWrite(s, output); var (t', failed') := HandleWrite(t, output);
      Alongside(s, t, s', t') && failed == failed'
  {
    hide WritePass;
  }

  lemma FinishAlongside(s: Stream, t: Stream, events: Mask, output: Output)
    requires Kin(s, t)
    ensures Alongside(s, t, FinishEvents(s, events, output), FinishEvents(t, events, output))
  {
    hide HandleWrite, Close, Updated;
    WriteAlongside(s, t, output);
    var (s1, failed) := if events.write then HandleWrite(s, output) else (s, false);
    var (t1, failed') := if events.write then HandleWrite(t, output) else (t, false);
    CloseAlongside(s1, t1);
    assert NextState(s1) == NextState(t1);
    UpdateAlongside(s1, t1, NextState(s1));
  }

  lemma SendAlongside(s: Stream, t: Stream, output: Output)
    requires Kin(s, t)
    ensures Alongside(s, t, Send(s, output).0, Send(t, output).0) && Send(s, output).1 == Send(t, output).1
  {
    hide HandleWrite, Close, AddState;
    WriteAlongside(s, t, output);
    var s1, t1 := HandleWrite(s, output).0, HandleWrite(t, output).0;
    CloseAlongside(s1, t1);
    AddAlongside(s1, t1, WRITE);
  }

  lemma JustAlongside(s: Stream, t: Stream, data: string)
    requires Kin(s, t)
    ensures Alongside(s, t, JustWrite(s, data).0, JustWrite(t, data).0)
    ensures JustWrite(s, data).1 == JustWrite(t, data).1
  {
    hide Close, Appended;
    CloseAlongside(s, t);
  }

  lemma BytesAlongside(s: Stream, t: Stream, data: string, output: Output)
    requires Kin(s, t)
    ensures Alongside(s, t, WriteBytes(s, data, output).0, WriteBytes(t, data, output).0)
  {
    hide Send, JustWrite;
    JustAlongside(s, t, data);
    SendAlongside(JustWrite(s, data).0, JustWrite(t, data).0, output);
  }

  // -------------------------------------------------------------------------- reading

  lemma DeliverTwins(s: Stream, t: Stream, len: nat, cb: Option<Script>)
    requires Twins(s, t) && len <= Readable(s.readBuf)
    ensures Twins(Deliver(s, len, cb), Deliver(t, len, cb))
  {
    hide Contents;
  }

  lemma ExtractTwins(s: Stream, t: Stream)
    requires Twins(s, t)
    ensures Twins(Extract(s), Extract(t))
  {
    FoundFits(s.readBuf, s.readDelimiter);
    hide Contents, Find, Deliver;
    var i := Find(Contents(s.readBuf), s.readDelimiter);
    if s.readBytes > 0 && Readable(s.readBuf) >= s.readBytes {
      DeliverTwins(s, t, s.readBytes, s.readCb);
    } else if s.readDelimiter != "" && i >= 0 {
      DeliverTwins(s, t, i + |s.readDelimiter|, s.readCb);
    }
  }

  /** Two passes that end alike, whatever they began with. */
  ghost predicate EndAlike(p: Pass, q: Pass) { p.ok == q.ok && p.buf == q.buf }

  lemma PassMakesTwins(s: Stream, t: Stream, fill: Fill, input: Input, other: Input)
    requires Kin(s, t) && EndAlike(ReadPass(fill, s.readBuf, input), ReadPass(fill, t.readBuf, other))
    ensures var (s', failed) := HandleRead(s, fill, input); var (t', failed') := HandleRead(t, fill, other);
      Twins(s', t') && failed == failed'
  {
    hide ReadPass, Extract;
    ExtractTwins(Receive(s, ReadPass(fill, s.readBuf, input)), Receive(t, ReadPass(fill, t.readBuf, other)));
  }

  /** So after an event that reads them two kin are twins. */
  lemma EventMakesTwins(s: Stream, t: Stream, fill: Fill, input: Input, other: Input, output: Output)
    requires Kin(s, t) && !s.closed && !s.connecting
    requires EndAlike(ReadPass(fill, s.readBuf, input), ReadPass(fill, t.readBuf, other))
    ensures Twins(HandleEvents(s, fill, READ, None, input, output), HandleEvents(t, fill, READ, None, other, output))
  {
    hide HandleRead, Close, FinishEvents;
    PassMakesTwins(s, t, fill, input, other);
    var s1, t1 := HandleRead(s, fill, input).0, HandleRead(t, fill, other).0;
    CloseAlongside(s1, t1);
    FinishAlongside(s1, t1, READ, output);
  }

  lemma ConnectTwins(s: Stream, t: Stream, failure: Option<int>)
    requires Twins(s, t)
    ensures Twins(HandleConnect(s, failure), HandleConnect(t, failure))
  {
    hide Close;
    var err := if failure.Some? then failure.value else 0;
    var posted := s.posted + Notice(ConnectDone(err), s.connectCb);
    CloseAlongside(s.(posted := posted, connectCb := None, connecting := failure.Some?),
                   t.(posted := posted, connectCb := None, connecting := failure.Some?));
  }

  lemma ServeTwins(s: Stream, t: Stream, fill: Fill, events: Mask, input: Input, output: Output)
    requires Twins(s, t)
    ensures Twins(ServeEvents(s, fill, events, input, output), ServeEvents(t, fill, events, input, output))
  {
    hide HandleRead, Close, FinishEvents;
    PassMakesTwins(s, t, fill, input, input);
    var (s1, failed) := if events.read then HandleRead(s, fill, input) else (s, false);
    var (t1, failed') := if events.read then HandleRead(t, fill, input) else (t, false);
    CloseAlongside(s1, t1);
    FinishAlongside(s1, t1, events, output);
  }

  lemma EventTwins(s: Stream, t: Stream, fill: Fill, events: Mask, failure: Option<int>, input: Input, output: Output)
    requires Twins(s, t)
    ensures Twins(HandleEvents(s, fill, events, failure, input, output), HandleEvents(t, fill, events, failure, input, output))
  {
    hide HandleConnect, ServeEvents;
    ConnectTwins(s, t, failure);
    var s1 := if s.connecting then HandleConnect(s, failure) else s;
    var t1 := if t.connecting then HandleConnect(t, failure) else t;
    ServeTwins(s1, t1, fill, events, input, output);
  }

  lemma StartTwins(s: Stream, t: Stream, fill: Fill, input: Input, failure: int)
    requires Twins(s, t)
    ensures Twins(StartRead(s, fill, input, failure).0, StartRead(t, fill, input, failure).0)
  {
    hide HandleRead, Close, AddState;
    PassMakesTwins(s, t, fill, input, input);
    var s1, t1 := HandleRead(s, fill, input).0, HandleRead(t, fill, input).0;
    CloseAlongside(s1, t1);
    AddAlongside(s1, t1, READ);
  }

  lemma SeekTwins(s: Stream, t: Stream, fill: Fill, n: nat, cb: Option<Script>, input: Input)
    requires Twins(s, t)
    ensures Twins(SeekCount(s, fill, n, cb, input).0, SeekCount(t, fill, n, cb, input).0)
  {
    hide StartRead, Deliver;
    if Readable(s.readBuf) >= n { DeliverTwins(s, t, n, cb); }
    StartTwins(s.(readBytes := n, readCb := cb), t.(readBytes := n, readCb := cb), fill, input, -2);
  }

  /** A counted read of twins. */
  lemma CountTwins(s: Stream, t: Stream, fill: Fill, n: int, cb: Option<Script>, input: Input)
    requires Twins(s, t)
    ensures Twins(ReadBytes(s, fill, n, cb, input).0, ReadBytes(t, fill, n, cb, input).0)
  {
    hide SeekCount;
    if n > 0 { SeekTwins(Requested(s, Count(n), cb), Requested(t, Count(n), cb), fill, n, cb, input); }
  }

  // --------------------------------------------------------------- a byte still unread

  /** One chunk, read into an empty buffer. */
  lemma ChunkPass(b: Window, q: string)
    requires Readable(b) == 0 && 0 < |q| <= READ_CHUNK && b.write + |q| + READ_CHUNK <= |b.bytes|
    ensures ReadPass(AtReadEnd, b, Bytes(q, WouldBlock)) == Pass(true, Filled(AtReadEnd, b, q), q)
  {
    assert ReadChunk(q) == q && q + "" == q;
    assert ReadPass(AtReadEnd, Filled(AtReadEnd, b, q), WouldBlock) == Pass(true, Filled(AtReadEnd, b, q), "");
  }

  lemma ChunksDiffer(b: Window, q: string, r: string, k: nat)
    requires Readable(b) == 0 && SameBut(q, r, k) && |q| <= Writable(b)
    ensures Differ(Filled(AtReadEnd, b, q), Filled(AtReadEnd, b, r), k)
  {
  }

  /** Bytes read at the read end lie over the first unread one. */
  lemma OverlayMeets(b: Window, c: Window, data: string)
    requires Differ(b, c, 0) && 0 < |data| <= Writable(b)
    ensures Filled(AtReadEnd, b, data) == Filled(AtReadEnd, c, data)
  {
    var x, y := Filled(AtReadEnd, b, data).bytes, Filled(AtReadEnd, c, data).bytes;
    forall k | 0 <= k < |x| ensures x[k] == y[k] { }
    assert x == y;
  }

  /** So a pass that reads anything makes them the same. */
  lemma PassMeets(b: Window, c: Window, input: Input)
    requires Differ(b, c, 0) && READ_CHUNK <= Writable(b) && input.Bytes? && input.data != ""
    ensures ReadPass(AtReadEnd, b, input) == ReadPass(AtReadEnd, c, input)
  {
    OverlayMeets(b, c, ReadChunk(input.data));
  }

  /** In a pass of two chunks and more the first byte of all is lost. */
  lemma FirstByteLost(b: Window, q: string, r: string)
    requires Readable(b) == 0 && b.write + 2 * READ_CHUNK <= |b.bytes| && READ_CHUNK < |q| && SameBut(q, r, 0)
    ensures EndAlike(ReadPass(AtReadEnd, b, Bytes(q, WouldBlock)), ReadPass(AtReadEnd, b, Bytes(r, WouldBlock)))
  {
    assert q[READ_CHUNK..] == r[READ_CHUNK..];
    assert SameBut(q[..READ_CHUNK], r[..READ_CHUNK], 0);
    ChunksDiffer(b, q[..READ_CHUNK], r[..READ_CHUNK], 0);
    PassMeets(Filled(AtReadEnd, b, q[..READ_CHUNK]), Filled(AtReadEnd, b, r[..READ_CHUNK]),
              Bytes(q[READ_CHUNK..], WouldBlock));
  }

  /** Deliveries of the same bytes leave the other ones to be told apart. */
  lemma DeliverNear(s: Stream, t: Stream, j: nat, len: nat)
    requires Near(s, t, j) && len <= j
    ensures Near(Deliver(s, len, s.readCb), Deliver(t, len, t.readCb), j - len)
  {
    assert Contents(s.readBuf)[..len] == Contents(t.readBuf)[..len];
  }

  /** Asking for more than there is leaves what is unread as it is. */
  lemma CountNear(s: Stream, t: Stream, j: nat, n: int, cb: Option<Script>)
    requires Near(s, t, j) && READ_CHUNK <= Writable(s.readBuf) && s.readDelimiter == "" && Readable(s.readBuf) < n
    ensures var s', t' := ReadBytes(s, AtReadEnd, n, cb, WouldBlock).0, ReadBytes(t, AtReadEnd, n, cb, WouldBlock).0;
      Near(s', t', j) && s'.readBuf == s.readBuf
  {
    hide AddState, Contents;
    var s0 := Requested(s, Count(n), cb).(readBytes := n, readCb := cb);
    var t0 := Requested(t, Count(n), cb).(readBytes := n, readCb := cb);
    assert s.log.received + "" == s.log.received && t.log.received + "" == t.log.received;
    AddAlongside(s0, t0, READ);
  }

  /** An empty buffer at which a stream awaits bytes, with room for two chunks. */
  ghost predicate Awaits(s: Stream) {
    && !s.closed && !s.connecting && !s.readUntilClose
    && Readable(s.readBuf) == 0 && s.readBuf.write + 2 * READ_CHUNK <= |s.readBuf.bytes|
  }

  /** One chunk taken in, before anything is made of it. */
  function TakenIn(s: Stream, q: string): Stream
    requires |q| <= Writable(s.readBuf)
  {
    Receive(s, Pass(true, Filled(AtReadEnd, s.readBuf, q), q))
  }

  lemma ChunkEvent(s: Stream, q: string)
    requires Awaits(s) && 0 < |q| <= READ_CHUNK
    ensures HandleEvents(s, AtReadEnd, READ, None, Bytes(q, WouldBlock), Refuses) ==
      FinishEvents(Extract(TakenIn(s, q)), READ, Refuses)
  {
    hide ReadPass, Extract, FinishEvents;
    ChunkPass(s.readBuf, q);
  }

  lemma TakenInDiffer(s: Stream, q: string, r: string, k: nat)
    requires Awaits(s) && |q| <= READ_CHUNK && SameBut(q, r, k)
    ensures Near(TakenIn(s, q), TakenIn(s, r), k)
    ensures Contents(TakenIn(s, q).readBuf) == q && Contents(TakenIn(s, r).readBuf) == r
  {
    ChunksDiffer(s.readBuf, q, r, k);
  }

  /** The mask settled, the stream is as it was. */
  lemma FinishQuiet(s: Stream)
    requires !s.closed
    ensures var s' := FinishEvents(s, READ, Refuses);
      s' == s.(state := s'.state, slot := s'.slot) && s'.slot.Some? == s.slot.Some?
  {
  }

  /** What was taken in is not enough for what is awaited. */
  predicate Unserved(s: Stream, q: string) {
    && (s.readBytes == 0 || |q| < s.readBytes) && (s.readDelimiter == "" || Find(q, s.readDelimiter) < 0)
  }

  lemma UnservedWaits(s: Stream)
    requires Unserved(s, Contents(s.readBuf)) && !s.readUntilClose
    ensures Extract(s) == s
  {
    assert |Contents(s.readBuf)| == Readable(s.readBuf);
  }

  /** One chunk that serves nothing, or another that differs in its first byte. */
  lemma ChunkMakesNear(s: Stream, q: string, r: string)
    requires Awaits(s) && |q| <= READ_CHUNK && SameBut(q, r, 0) && Unserved(s, q) && Unserved(s, r)
    ensures var s' := HandleEvents(s, AtReadEnd, READ, None, Bytes(q, WouldBlock), Refuses);
      var t' := HandleEvents(s, AtReadEnd, READ, None, Bytes(r, WouldBlock), Refuses);
      && Near(s', t', 0) && READ_CHUNK <= Writable(s'.readBuf)
      && s'.posted == s.posted && !s'.closed && !s'.connecting && s'.slot.Some? == s.slot.Some?
  {
    hide HandleEvents, Extract, FinishEvents, Filled, Contents, Find;
    var a, b := TakenIn(s, q), TakenIn(s, r);
    TakenInDiffer(s, q, r, 0);
    UnservedWaits(a);
    UnservedWaits(b);
    ChunkEvent(s, q);
    ChunkEvent(s, r);
    FinishQuiet(a);
    FinishAlongside(a, b, READ, Refuses);
    TakenInLeaves(s, q);
  }

  lemma TakenInLeaves(s: Stream, q: string)
    requires Awaits(s) && 0 < |q| <= READ_CHUNK
    ensures READ_CHUNK <= Writable(TakenIn(s, q).readBuf) && Readable(TakenIn(s, q).readBuf) == |q|
  {
  }

  /** The delimiter found in the chunk, its text is handed over. */
  lemma FoundIsDelivered(s: Stream)
    requires s.readBytes == 0 && s.readDelimiter != "" && Find(Contents(s.readBuf), s.readDelimiter) >= 0
    ensures var k := Find(Contents(s.readBuf), s.readDelimiter) + |s.readDelimiter|;
      k <= Readable(s.readBuf) && Extract(s) == Deliver(s, k, s.readCb).(readDelimiter := "", readCb := None)
  {
    hide Find;
    assert |Contents(s.readBuf)| == Readable(s.readBuf);
  }

  /** One chunk whose delimiter is found, or another that differs in the byte after it. */
  lemma ChunkServesNear(s: Stream, q: string, r: string, k: nat)
    requires Awaits(s) && |q| <= READ_CHUNK && SameBut(q, r, k) && s.readBytes == 0 && s.readDelimiter != ""
    requires Find(q, s.readDelimiter) == Find(r, s.readDelimiter) == k - |s.readDelimiter| && |s.readDelimiter| <= k
    ensures var s' := HandleEvents(s, AtReadEnd, READ, None, Bytes(q, WouldBlock), Refuses);
      var t' := HandleEvents(s, AtReadEnd, READ, None, Bytes(r, WouldBlock), Refuses);
      && Near(s', t', 0) && READ_CHUNK <= Writable(s'.readBuf) && Readable(s'.readBuf) == |q| - k
      && s'.readDelimiter == ""
  {
    hide HandleEvents, Extract, FinishEvents, Filled, Contents, Find, Deliver;
    var a, b := TakenIn(s, q), TakenIn(s, r);
    TakenInDiffer(s, q, r, k);
    TakenInLeaves(s, q);
    FoundIsDelivered(a);
    FoundIsDelivered(b);
    ChunkEvent(s, q);
    ChunkEvent(s, r);
    DeliverNear(a, b, k, k);
    DeliverTakes(a, k);
    FinishAlongside(Extract(a), Extract(b), READ, Refuses);
  }

  lemma DeliverTakes(s: Stream, k: nat)
    requires k <= Readable(s.readBuf)
    ensures var s' := Deliver(s, k, s.readCb);
      && Writable(s'.readBuf) == Writable(s.readBuf) && Readable(s'.readBuf) == Readable(s.readBuf) - k
      && s'.readUntilClose == s.readUntilClose
  {
    hide Contents;
  }

  // ------------------------------------------------------------- where the bytes lie

  /** Nothing moves, as far as the write end goes. */
  predicate KeepsEnd(b: Window, c: Window) { c.write == b.write && |c.bytes| == |b.bytes| }

  lemma ExtractKeepsEnd(s: Stream)
    ensures KeepsEnd(s.readBuf, Extract(s).readBuf)
  {
    hide Contents, Find;
    FoundFits(s.readBuf, s.readDelimiter);
  }

  lemma CloseKeepsEnd(s: Stream)
    ensures KeepsEnd(s.readBuf, Close(s).readBuf)
  {
    hide Contents;
  }

  lemma FinishKeepsBuffer(s: Stream)
    requires !s.closed
    ensures FinishEvents(s, READ, Refuses).readBuf == s.readBuf
  {
  }

  lemma ExtractStaysOpen(s: Stream)
    ensures Extract(s).closed == s.closed
  {
    hide Contents, Find;
    FoundFits(s.readBuf, s.readDelimiter);
  }

  /** A chunk read into an empty buffer ends where it should. */
  lemma ChunkEnds(s: Stream, q: string)
    requires Awaits(s) && 0 < |q| <= READ_CHUNK
    ensures var b := HandleEvents(s, AtReadEnd, READ, None, Bytes(q, WouldBlock), Refuses).readBuf;
      b.write == s.readBuf.write + |q| && |b.bytes| == |s.readBuf.bytes|
  {
    hide HandleEvents, Extract, FinishEvents;
    ChunkEvent(s, q);
    ExtractKeepsEnd(TakenIn(s, q));
    ExtractStaysOpen(TakenIn(s, q));
    FinishKeepsBuffer(Extract(TakenIn(s, q)));
  }

  /** Reading nothing, with room for a chunk. */
  lemma StartKeepsEnd(s: Stream, failure: int)
    requires READ_CHUNK <= Writable(s.readBuf)
    ensures KeepsEnd(s.readBuf, StartRead(s, AtReadEnd, WouldBlock, failure).0.readBuf)
  {
    hide Extract;
    assert s.log.received + "" == s.log.received;
    ExtractKeepsEnd(s);
  }

  lemma CountKeepsEnd(s: Stream, n: int, cb: Option<Script>)
    requires READ_CHUNK <= Writable(s.readBuf)
    ensures KeepsEnd(s.readBuf, ReadBytes(s, AtReadEnd, n, cb, WouldBlock).0.readBuf)
  {
    hide StartRead, Contents;
    if n > 0 { StartKeepsEnd(Requested(s, Count(n), cb).(readBytes := n, readCb := cb), -2); }
  }
}
