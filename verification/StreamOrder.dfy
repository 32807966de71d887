/**
 The fill the code has over whole runs of counted and delimiter reads and read events: it keeps the
 byte order for all payloads of a shape exactly when, whatever the payload, every pass reads
 nothing, or one chunk into an empty buffer.
 */
module StreamOrder {
  import opened Common
  import opened LoopModel
  import opened Buffers
  import opened StreamModel
  import opened StreamProofs
  import opened StreamGrows
  import opened StreamReads
  import opened StreamFill

  /** A read call, or a read event, and the chunks its pass reads before it would block. */
  datatype Turn =
    | Ask(n: nat, parts: seq<string>)
    | Seek(delimiter: string, parts: seq<string>)
    | More(parts: seq<string>)

  function OpOf(t: Turn, cb: Option<Script>): Op {
    match t
    case Ask(n, parts) => OpReadBytes(n, cb, Chunks(parts, WouldBlock))
    case Seek(d, parts) => OpReadUntil(d, cb, Chunks(parts, WouldBlock))
    case More(parts) => OpEvents(READ, None, Chunks(parts, WouldBlock), Refuses)
  }

  function Ops(turns: seq<Turn>, cb: Option<Script>): seq<Op> {
    if turns == [] then [] else [OpOf(turns[0], cb)] + Ops(turns[1..], cb)
  }

  function After(s: Stream, t: Turn, cb: Option<Script>): Stream { Step(s, AtReadEnd, OpOf(t, cb)) }

  function Ends(s: Stream, turns: seq<Turn>, cb: Option<Script>): Stream { Run(s, AtReadEnd, Ops(turns, cb)) }

  lemma EndsOneOn(s: Stream, turns: seq<Turn>, cb: Option<Script>)
    requires turns != []
    ensures Ends(s, turns, cb) == Ends(After(s, turns[0], cb), turns[1..], cb)
  {
    assert Ops(turns, cb)[1..] == Ops(turns[1..], cb);
  }

  // ------------------------------------------------------------------------- shapes

  ghost predicate SameTurn(t: Turn, u: Turn) {
    && SameShape(t.parts, u.parts) && t.Ask? == u.Ask? && t.Seek? == u.Seek?
    && (t.Ask? ==> t.n == u.n) && (t.Seek? ==> t.delimiter == u.delimiter)
  }

  ghost predicate SameTurns(turns: seq<Turn>, others: seq<Turn>) {
    |turns| == |others| && forall i :: 0 <= i < |turns| ==> SameTurn(turns[i], others[i])
  }

  lemma {:induction false} SameLength(parts: seq<string>, others: seq<string>)
    requires SameShape(parts, others)
    ensures |Flatten(parts)| == |Flatten(others)|
    decreases |parts|
  {
    if parts != [] {
      forall i | 0 <= i < |parts[1..]| ensures |parts[1..][i]| == |others[1..][i]| {
        assert |parts[i + 1]| == |others[i + 1]|;
      }
      SameLength(parts[1..], others[1..]);
    }
  }

  lemma SameTurnsTail(turns: seq<Turn>, others: seq<Turn>)
    requires SameTurns(turns, others) && turns != []
    ensures SameTurn(turns[0], others[0]) && SameTurns(turns[1..], others[1..])
  {
    forall i | 0 <= i < |turns[1..]| ensures SameTurn(turns[1..][i], others[1..][i]) {
      assert SameTurn(turns[i + 1], others[i + 1]);
    }
  }

  lemma SameTurnsCons(t: Turn, u: Turn, rest: seq<Turn>, others: seq<Turn>)
    requires SameTurn(t, u) && SameTurns(rest, others)
    ensures SameTurns([t] + rest, [u] + others)
  {
  }

  // -------------------------------------------------------------------------- a turn

  /** An open connected stream, whatever it is asked for. */
  ghost predicate Ready(s: Stream) { !s.closed && !s.connecting && |s.readBuf.bytes| == DEFAULT_SIZE }

  /** A request that the buffer serves makes no pass. */
  predicate AtOnce(s: Stream, t: Turn) {
    match t
    case Ask(n, _) => Readable(s.readBuf) >= n
    case Seek(d, _) => Find(Contents(s.readBuf), d) >= 0
    case More(_) => false
  }

  /** A request that is one, chunks as read() gives them, and a chunk of room left after them. */
  ghost predicate Fits(s: Stream, t: Turn) {
    && (t.Ask? ==> t.n > 0) && (t.Seek? ==> t.delimiter != "") && ChunkSized(t.parts)
    && (AtOnce(s, t) || Readable(s.readBuf) + |Flatten(t.parts)| + READ_CHUNK <= DEFAULT_SIZE)
  }

  /** The turn reads nothing, or one chunk into an empty buffer. */
  predicate GentleTurn(s: Stream, t: Turn) {
    AtOnce(s, t) || |t.parts| == 0 || (|t.parts| == 1 && Readable(s.readBuf) == 0)
  }

  /** The bytes a turn receives. */
  function Received(s: Stream, t: Turn): string { if AtOnce(s, t) then "" else Flatten(t.parts) }

  /** All that was delivered, then all that is held. */
  function Whole(s: Stream): string { Delivered(s) + Contents(s.readBuf) }

  ghost predicate InOrder(s: Stream) { Whole(s) == s.log.received }

  lemma {:induction false} ChunksOffer(parts: seq<string>)
    requires ChunkSized(parts)
    ensures Incoming(Chunks(parts, WouldBlock)) == Flatten(parts) && Blocks(Chunks(parts, WouldBlock))
    decreases |parts|
  {
    if parts != [] {
      RestSized(parts);
      ChunksOffer(parts[1..]);
    }
  }

  lemma {:induction false} RoomEnough(held: nat, parts: seq<string>)
    requires ChunkSized(parts) && held + |Flatten(parts)| + READ_CHUNK <= DEFAULT_SIZE
    ensures RoomFor(held, DEFAULT_SIZE, parts)
    decreases |parts|
  {
    if parts != [] {
      RestSized(parts);
      RoomEnough(held + |parts[0]|, parts[1..]);
    }
  }

  function PassOf(s: Stream, parts: seq<string>): Pass { ReadPass(AtReadEnd, s.readBuf, Chunks(parts, WouldBlock)) }

  lemma PassFits(s: Stream, parts: seq<string>)
    requires Ready(s) && ChunkSized(parts) && Readable(s.readBuf) + |Flatten(parts)| + READ_CHUNK <= DEFAULT_SIZE
    ensures var p := PassOf(s, parts);
      p.ok && p.bytes == Flatten(parts) && Readable(p.buf) == Readable(s.readBuf) + |Flatten(parts)|
    ensures RoomFor(Readable(s.readBuf), DEFAULT_SIZE, parts)
  {
    ChunksOffer(parts);
    RoomEnough(Readable(s.readBuf), parts);
    ReadPassTakesAll(AtReadEnd, s.readBuf, Chunks(parts, WouldBlock));
  }

  lemma DeliverKeepsWhole(s: Stream, n: nat, cb: Option<Script>)
    requires n <= Readable(s.readBuf)
    ensures Whole(Deliver(s, n, cb)) == Whole(s)
  {
    var c := Contents(s.readBuf);
    DatasAppend(s.log.consumed, Chunk(c[..n], cb));
    FlattenPush(Datas(s.log.consumed), c[..n]);
    TakenContents(s.readBuf, n);
    ConcatAssoc(Delivered(s), c[..n], c[n..]);
    assert c == c[..n] + c[n..];
  }

  lemma SameWhole(s: Stream, s': Stream)
    requires s'.readBuf == s.readBuf && s'.log.consumed == s.log.consumed
    ensures Whole(s') == Whole(s)
  {
  }

  /** Serving whatever request is pending only moves bytes from what is held to what is delivered. */
  lemma ExtractKeepsWhole(s: Stream)
    requires Ready(s)
    ensures var s' := Extract(s); Ready(s') && Whole(s') == Whole(s) && s'.log.received == s.log.received
  {
    hide Whole;
    var n :=
      if s.readBytes > 0 && Readable(s.readBuf) >= s.readBytes then s.readBytes
      else if s.readDelimiter != "" then
        (var i := Find(Contents(s.readBuf), s.readDelimiter); if i < 0 then 0 else i + |s.readDelimiter|)
      else Readable(s.readBuf);
    DeliverKeepsWhole(s, n, s.readCb);
    var d, s' := Deliver(s, n, s.readCb), Extract(s);
    if s'.readBuf == s.readBuf && s'.log.consumed == s.log.consumed { SameWhole(s, s'); } else { SameWhole(d, s'); }
  }

  /** What handleRead does with a pass that fits. */
  lemma ReadTurn(s: Stream, parts: seq<string>)
    requires Ready(s) && ChunkSized(parts) && Readable(s.readBuf) + |Flatten(parts)| + READ_CHUNK <= DEFAULT_SIZE
    ensures var (s', failed) := HandleRead(s, AtReadEnd, Chunks(parts, WouldBlock));
      && !failed && Ready(s') && s'.log.received == s.log.received + Flatten(parts)
      && Whole(s') == Delivered(s) + Contents(PassOf(s, parts).buf)
  {
    hide ReadPass, Extract;
    PassFits(s, parts);
    ExtractKeepsWhole(Receive(s, PassOf(s, parts)));
  }

  /** A read call that waits, with its request stored. */
  lemma CallTurn(s: Stream, asked: Stream, parts: seq<string>, failure: int)
    requires Ready(s) && ChunkSized(parts) && Readable(s.readBuf) + |Flatten(parts)| + READ_CHUNK <= DEFAULT_SIZE
    requires asked.closed == s.closed && asked.connecting == s.connecting && asked.readBuf == s.readBuf
    requires asked.log.consumed == s.log.consumed && asked.log.received == s.log.received
    ensures var s' := StartRead(asked, AtReadEnd, Chunks(parts, WouldBlock), failure).0;
      && Ready(s') && s'.log.received == s.log.received + Flatten(parts)
      && Whole(s') == Delivered(s) + Contents(PassOf(s, parts).buf)
  {
    hide ReadPass, HandleRead, Whole, Chunks;
    ReadTurn(asked, parts);
    var s1 := HandleRead(asked, AtReadEnd, Chunks(parts, WouldBlock)).0;
    SameWhole(s1, AddState(s1, READ));
  }

  lemma MoreTurn(s: Stream, parts: seq<string>, cb: Option<Script>)
    requires Ready(s) && Fits(s, More(parts))
    ensures var s' := After(s, More(parts), cb);
      && Ready(s') && s'.log.received == s.log.received + Flatten(parts)
      && Whole(s') == Delivered(s) + Contents(PassOf(s, parts).buf)
  {
    hide ReadPass, HandleRead, Whole, Chunks;
    ReadTurn(s, parts);
    var s1 := HandleRead(s, AtReadEnd, Chunks(parts, WouldBlock)).0;
    SameWhole(s1, FinishEvents(s1, READ, Refuses));
  }

  /** A call the buffer serves. */
  lemma ServedTurn(s: Stream, r: Request, n: nat, cb: Option<Script>)
    requires Ready(s) && n <= Readable(s.readBuf)
    ensures var s' := Deliver(Requested(s, r, cb), n, cb);
      Ready(s') && s'.log.received == s.log.received + "" && Whole(s') == Whole(s)
  {
    hide Whole;
    DeliverKeepsWhole(Requested(s, r, cb), n, cb);
    SameWhole(s, Requested(s, r, cb));
  }

  /** A turn, exactly: the bytes received, and all there is afterwards. */
  lemma TurnDoes(s: Stream, t: Turn, cb: Option<Script>)
    requires Ready(s) && Fits(s, t)
    ensures var s' := After(s, t, cb);
      && Ready(s') && s'.log.received == s.log.received + Received(s, t)
      && Whole(s') == if AtOnce(s, t) then Whole(s) else Delivered(s) + Contents(PassOf(s, t.parts).buf)
  {
    hide Whole, PassOf, Ready, StartRead, Delivered, Deliver, HandleEvents;
    match t {
    case Ask(n, parts) =>
      if AtOnce(s, t) { ServedTurn(s, Count(n), n, cb); }
      else { CallTurn(s, Requested(s, Count(n), cb).(readBytes := n, readCb := cb), parts, -2); }
    case Seek(d, parts) => SeekTurn(s, d, parts, cb);
    case More(parts) => MoreTurn(s, parts, cb);
    }
  }

  /** What a delimiter read does, by whether the buffer holds the delimiter. */
  lemma SeekDoes(s: Stream, d: string, input: Input, cb: Option<Script>)
    requires d != ""
    ensures var asked, i := Requested(s, Until(d), cb), Find(Contents(s.readBuf), d);
      Step(s, AtReadEnd, OpReadUntil(d, cb, input)) ==
        if i >= 0 then Deliver(asked, i + |d|, cb)
        else StartRead(asked.(readDelimiter := d, readCb := cb), AtReadEnd, input, -2).0
  {
    hide StartRead, Deliver, Contents, Find;
  }

  lemma SeekTurn(s: Stream, d: string, parts: seq<string>, cb: Option<Script>)
    requires Ready(s) && Fits(s, Seek(d, parts))
    ensures var s', t := After(s, Seek(d, parts), cb), Seek(d, parts);
      && Ready(s') && s'.log.received == s.log.received + Received(s, t)
      && Whole(s') == if AtOnce(s, t) then Whole(s) else Delivered(s) + Contents(PassOf(s, parts).buf)
  {
    assert |Contents(s.readBuf)| == Readable(s.readBuf);
    hide Whole, PassOf, Ready, StartRead, Delivered, Deliver, Contents, Find, Step, Chunks, ChunkSized;
    SeekDoes(s, d, Chunks(parts, WouldBlock), cb);
    var i := Find(Contents(s.readBuf), d);
    if i >= 0 {
      ServedTurn(s, Until(d), i + |d|, cb);
    } else {
      CallTurn(s, Requested(s, Until(d), cb).(readDelimiter := d, readCb := cb), parts, -2);
    }
  }

  lemma WholeLength(s: Stream, t: Turn, cb: Option<Script>)
    requires Ready(s) && Fits(s, t)
    ensures |Whole(After(s, t, cb))| == |Whole(s)| + |Received(s, t)|
  {
    hide ReadPass, Step, Find;
    TurnDoes(s, t, cb);
    if !AtOnce(s, t) { PassFits(s, t.parts); }
  }

  /** A gentle turn adds what it received at the end. */
  lemma GentleTurnAdds(s: Stream, t: Turn, cb: Option<Script>)
    requires Ready(s) && Fits(s, t) && GentleTurn(s, t)
    ensures Whole(After(s, t, cb)) == Whole(s) + Received(s, t)
  {
    hide ReadPass, Step, Find;
    TurnDoes(s, t, cb);
    if AtOnce(s, t) {
      assert Whole(s) + "" == Whole(s);
    } else {
      PassFits(s, t.parts);
      ShortPassKeepsOrder(s.readBuf, t.parts, WouldBlock);
      ConcatAssoc(Delivered(s), Contents(s.readBuf), Flatten(t.parts));
    }
  }

  lemma SameEnding(x: string, y: string, more: string)
    requires x + more == y + more
    ensures x == y
  {
    assert |x| == |y| && (x + more)[..|x|] == x && (y + more)[..|y|] == y;
  }

  /** So it leaves a misplaced byte misplaced. */
  lemma GentleTurnLeaves(s: Stream, t: Turn, cb: Option<Script>)
    requires Ready(s) && Fits(s, t) && GentleTurn(s, t)
    ensures InOrder(After(s, t, cb)) <==> InOrder(s)
  {
    hide Whole, Step, Fits, GentleTurn, Received, Ready;
    TurnDoes(s, t, cb);
    GentleTurnAdds(s, t, cb);
    if InOrder(After(s, t, cb)) { SameEnding(Whole(s), s.log.received, Received(s, t)); }
  }

  /** The byte that has to come first after what was delivered. */
  function DueAfter(s: Stream): char {
    if |Delivered(s)| < |s.log.received| then s.log.received[|Delivered(s)|] else 'a'
  }

  /** A turn that is not gentle misplaces a byte, for some payload of its shape, whatever is asked for. */
  lemma HarshTurnSpoils(s: Stream, t: Turn, cb: Option<Script>) returns (u: Turn)
    requires Ready(s) && Fits(s, t) && !GentleTurn(s, t) && |Whole(s)| == |s.log.received|
    ensures SameTurn(t, u) && Fits(s, u) && !InOrder(After(s, u, cb))
  {
    hide ReadPass, Step, Find;
    var parts := Clashing(DueAfter(s), t.parts);
    u := t.(parts := parts);
    SameLength(t.parts, parts);
    TurnDoes(s, u, cb);
    PassFits(s, parts);
    LastChunkComesFirst(s.readBuf, parts, WouldBlock);
    var s', d, c := After(s, u, cb), |Delivered(s)|, Contents(PassOf(s, parts).buf);
    assert Whole(s')[d] == c[0] == parts[|parts| - 1][0];
    assert s'.log.received[d] == DueAfter(s) by {
      if Readable(s.readBuf) == 0 {
        assert Flatten(parts) == parts[0] + Flatten(parts[1..]);
        assert s'.log.received[d] == parts[0][0];
      }
    }
  }

  // ----------------------------------------------------------------------- whole runs

  ghost predicate AllFit(s: Stream, turns: seq<Turn>, cb: Option<Script>)
    decreases |turns|
  {
    turns == [] || (Fits(s, turns[0]) && AllFit(After(s, turns[0], cb), turns[1..], cb))
  }

  /** Whatever the payload, every pass finds its room. */
  ghost predicate AlwaysFits(s: Stream, turns: seq<Turn>, cb: Option<Script>) {
    forall others :: SameTurns(turns, others) ==> AllFit(s, others, cb)
  }

  ghost predicate AllGentle(s: Stream, turns: seq<Turn>, cb: Option<Script>)
    decreases |turns|
  {
    turns == [] || (GentleTurn(s, turns[0]) && AllGentle(After(s, turns[0], cb), turns[1..], cb))
  }

  lemma {:induction false} SameTurnsSelf(turns: seq<Turn>)
    ensures SameTurns(turns, turns)
  {
  }

  lemma FitsNow(s: Stream, turns: seq<Turn>, cb: Option<Script>)
    requires AlwaysFits(s, turns, cb) && turns != []
    ensures Fits(s, turns[0])
  {
    SameTurnsSelf(turns);
    assert AllFit(s, turns, cb);
  }

  /** And after any first turn of the shape. */
  lemma AlwaysFitsAfter(s: Stream, turns: seq<Turn>, u: Turn, cb: Option<Script>)
    requires AlwaysFits(s, turns, cb) && turns != [] && SameTurn(turns[0], u)
    ensures AlwaysFits(After(s, u, cb), turns[1..], cb)
  {
    hide Step, Fits, SameTurn;
    forall others | SameTurns(turns[1..], others) ensures AllFit(After(s, u, cb), others, cb) {
      SameTurnsCons(turns[0], u, turns[1..], others);
      assert [turns[0]] + turns[1..] == turns;
      assert AllFit(s, [u] + others, cb);
      assert ([u] + others)[1..] == others;
    }
  }

  /** A run that always reads gently leaves the order as it is. */
  lemma {:induction false} GentleRunLeaves(s: Stream, turns: seq<Turn>, cb: Option<Script>)
    requires Ready(s) && AllFit(s, turns, cb) && AllGentle(s, turns, cb)
    ensures InOrder(Ends(s, turns, cb)) <==> InOrder(s)
    decreases |turns|
  {
    hide InOrder, After, GentleTurn, Fits, Ready;
    if turns != [] {
      EndsOneOn(s, turns, cb);
      TurnDoes(s, turns[0], cb);
      GentleTurnLeaves(s, turns[0], cb);
      GentleRunLeaves(After(s, turns[0], cb), turns[1..], cb);
    }
  }

  lemma TurnKeepsLength(s: Stream, t: Turn, cb: Option<Script>)
    requires Ready(s) && Fits(s, t) && |Whole(s)| == |s.log.received|
    ensures Ready(After(s, t, cb)) && |Whole(After(s, t, cb))| == |After(s, t, cb).log.received|
  {
    hide Whole, Step, Received, Ready;
    TurnDoes(s, t, cb);
    WholeLength(s, t, cb);
  }

  lemma ThenTheRest(s: Stream, turns: seq<Turn>, u: Turn, rest: seq<Turn>, cb: Option<Script>)
    requires turns != [] && SameTurn(turns[0], u) && SameTurns(turns[1..], rest)
    ensures SameTurns(turns, [u] + rest) && Ends(s, [u] + rest, cb) == Ends(After(s, u, cb), rest, cb)
  {
    hide After, SameTurn;
    SameTurnsCons(turns[0], u, turns[1..], rest);
    assert [turns[0]] + turns[1..] == turns;
    assert ([u] + rest)[1..] == rest;
    EndsOneOn(s, [u] + rest, cb);
  }

  /** Once a byte is misplaced, some payload of what follows leaves one misplaced. */
  lemma {:induction false} MisplacedStays(s: Stream, turns: seq<Turn>, cb: Option<Script>) returns (others: seq<Turn>)
    requires Ready(s) && AlwaysFits(s, turns, cb) && !InOrder(s) && |Whole(s)| == |s.log.received|
    ensures SameTurns(turns, others) && !InOrder(Ends(s, others, cb))
    decreases |turns|
  {
    hide InOrder, After, GentleTurn, Fits, Ready, AlwaysFits, Whole, SameTurn;
    if turns == [] {
      others := [];
    } else {
      FitsNow(s, turns, cb);
      var u := turns[0];
      SameTurnSelf(u);
      if GentleTurn(s, u) { GentleTurnLeaves(s, u, cb); } else { u := HarshTurnSpoils(s, u, cb); }
      AlwaysFitsAfter(s, turns, u, cb);
      TurnKeepsLength(s, u, cb);
      var rest := MisplacedStays(After(s, u, cb), turns[1..], cb);
      ThenTheRest(s, turns, u, rest, cb);
      others := [u] + rest;
    }
  }

  lemma SameTurnSelf(t: Turn)
    ensures SameTurn(t, t)
  {
  }

  /** A run with a pass that is not gentle has a payload of its shape that spoils the order. */
  lemma {:induction false} SomePayloadSpoils(s: Stream, turns: seq<Turn>, cb: Option<Script>) returns (others: seq<Turn>)
    requires Ready(s) && AlwaysFits(s, turns, cb) && !AllGentle(s, turns, cb) && |Whole(s)| == |s.log.received|
    ensures SameTurns(turns, others) && !InOrder(Ends(s, others, cb))
    decreases |turns|
  {
    hide InOrder, After, GentleTurn, Fits, Ready, AlwaysFits, Whole, SameTurn;
    FitsNow(s, turns, cb);
    var u := turns[0];
    SameTurnSelf(u);
    var rest: seq<Turn>;
    if GentleTurn(s, u) {
      AlwaysFitsAfter(s, turns, u, cb);
      TurnKeepsLength(s, u, cb);
      rest := SomePayloadSpoils(After(s, u, cb), turns[1..], cb);
    } else {
      u := HarshTurnSpoils(s, u, cb);
      AlwaysFitsAfter(s, turns, u, cb);
      TurnKeepsLength(s, u, cb);
      rest := MisplacedStays(After(s, u, cb), turns[1..], cb);
    }
    ThenTheRest(s, turns, u, rest, cb);
    others := [u] + rest;
  }

  lemma SameTurnsTrans(a: seq<Turn>, b: seq<Turn>, c: seq<Turn>)
    requires SameTurns(a, b) && SameTurns(b, c)
    ensures SameTurns(a, c)
  {
    forall i | 0 <= i < |a| ensures SameTurn(a[i], c[i]) {
      assert SameTurn(a[i], b[i]) && SameTurn(b[i], c[i]);
    }
  }

  lemma AlwaysFitsToo(s: Stream, turns: seq<Turn>, others: seq<Turn>, cb: Option<Script>)
    requires AlwaysFits(s, turns, cb) && SameTurns(turns, others)
    ensures AlwaysFits(s, others, cb)
  {
    hide AllFit, SameTurns;
    forall more | SameTurns(others, more) ensures AllFit(s, more, cb) { SameTurnsTrans(turns, others, more); }
  }

  /**
   The exact condition, for every shape of a run of counted and delimiter reads and read events: at
   its end the code has delivered, and holds, what it received in the order it came, for all payloads
   of that shape, if and only if for all of them every pass reads nothing, or one chunk into an empty
   buffer. With a delimiter the payload decides which passes find the buffer empty.
   */
  lemma CodedReadsAreFifoIff(s: Stream, turns: seq<Turn>, cb: Option<Script>)
    requires Ready(s) && InOrder(s) && AlwaysFits(s, turns, cb)
    ensures (forall others :: SameTurns(turns, others) ==> InOrder(Ends(s, others, cb)))
       <==> (forall others :: SameTurns(turns, others) ==> AllGentle(s, others, cb))
  {
    hide AllFit, AllGentle, SameTurns, Whole, Ends;
    assert |Whole(s)| == |s.log.received|;
    if others :| SameTurns(turns, others) && !AllGentle(s, others, cb) {
      AlwaysFitsToo(s, turns, others, cb);
      var more := SomePayloadSpoils(s, others, cb);
      SameTurnsTrans(turns, others, more);
    } else {
      forall others | SameTurns(turns, others) ensures InOrder(Ends(s, others, cb)) { GentleRunLeaves(s, others, cb); }
    }
  }

  // ------------------------------------------------------- runs that begin with a readUntil

  function Sizes(turns: seq<Turn>): nat {
    if turns == [] then 0 else |Flatten(turns[0].parts)| + Sizes(turns[1..])
  }

  /** Requests that are some, in chunks as read() gives them. */
  ghost predicate RealTurns(turns: seq<Turn>) {
    forall t <- turns :: (t.Ask? ==> t.n > 0) && (t.Seek? ==> t.delimiter != "") && ChunkSized(t.parts)
  }

  lemma {:induction false} SameSizes(turns: seq<Turn>, others: seq<Turn>)
    requires SameTurns(turns, others)
    ensures Sizes(turns) == Sizes(others)
    decreases |turns|
  {
    if turns != [] {
      SameTurnsTail(turns, others);
      SameLength(turns[0].parts, others[0].parts);
      SameSizes(turns[1..], others[1..]);
    }
  }

  lemma SameReal(turns: seq<Turn>, others: seq<Turn>)
    requires SameTurns(turns, others) && RealTurns(turns)
    ensures RealTurns(others)
  {
    forall u <- others ensures (u.Ask? ==> u.n > 0) && (u.Seek? ==> u.delimiter != "") && ChunkSized(u.parts) {
      var i :| 0 <= i < |others| && others[i] == u;
      var t := turns[i];
      assert SameTurn(t, u) && t in turns;
      forall k | 0 <= k < |u.parts| ensures 0 < |u.parts[k]| <= READ_CHUNK { assert |t.parts[k]| == |u.parts[k]|; }
    }
  }

  lemma DeliveredGrows(s: Stream, s': Stream)
    requires s.log.consumed <= s'.log.consumed
    ensures |Delivered(s)| <= |Delivered(s')|
  {
    var more := s'.log.consumed[|s.log.consumed|..];
    assert Datas(s'.log.consumed) == Datas(s.log.consumed) + Datas(more);
    FlattenAppend(Datas(s.log.consumed), Datas(more));
  }

  lemma HeldGrows(s: Stream, t: Turn, cb: Option<Script>)
    requires Ready(s) && Fits(s, t)
    ensures Readable(After(s, t, cb).readBuf) <= Readable(s.readBuf) + |Flatten(t.parts)|
  {
    hide Step, Fits, AtOnce, Delivered;
    WholeLength(s, t, cb);
    StepGrows(s, AtReadEnd, OpOf(t, cb));
    DeliveredGrows(s, After(s, t, cb));
  }

  lemma {:induction false} ShortRunFits(s: Stream, turns: seq<Turn>, cb: Option<Script>)
    requires Ready(s) && RealTurns(turns) && Readable(s.readBuf) + Sizes(turns) + READ_CHUNK <= DEFAULT_SIZE
    ensures AllFit(s, turns, cb)
    decreases |turns|
  {
    hide After, Ready, AtOnce;
    if turns != [] {
      var t := turns[0];
      assert t in turns;
      forall u <- turns[1..] ensures u in turns { }
      TurnDoes(s, t, cb);
      HeldGrows(s, t, cb);
      ShortRunFits(After(s, t, cb), turns[1..], cb);
    }
  }

  /** A shape that is short enough as a whole always finds its room. */
  lemma ShortRunsFit(s: Stream, turns: seq<Turn>, cb: Option<Script>)
    requires Ready(s) && RealTurns(turns) && Readable(s.readBuf) + Sizes(turns) + READ_CHUNK <= DEFAULT_SIZE
    ensures AlwaysFits(s, turns, cb)
  {
    hide AllFit, Ready, RealTurns;
    forall others | SameTurns(turns, others) ensures AllFit(s, others, cb) {
      SameSizes(turns, others);
      SameReal(turns, others);
      ShortRunFits(s, others, cb);
    }
  }

  /** A read event leaves the stream registered. */
  lemma MoreRegisters(s: Stream, parts: seq<string>, cb: Option<Script>)
    requires Ready(s) && Fits(s, More(parts))
    ensures After(s, More(parts), cb).state != NONE
  {
    hide HandleRead, Whole, Chunks, PassOf;
    ReadTurn(s, parts);
  }

  predicate OnlyEvents(turns: seq<Turn>) { forall t <- turns :: t.More? }

  lemma {:induction false} EventsArePermitted(s: Stream, turns: seq<Turn>, cb: Option<Script>)
    requires Ready(s) && s.state != NONE && AllFit(s, turns, cb) && OnlyEvents(turns)
    ensures Runnable(s, AtReadEnd, Ops(turns, cb))
    decreases |turns|
  {
    hide Fits, Ready, Step;
    if turns != [] {
      var t := turns[0];
      assert t in turns && t == More(t.parts);
      assert !s.closed by { NotClosed(s); }
      TurnDoes(s, t, cb);
      MoreRegisters(s, t.parts, cb);
      forall u <- turns[1..] ensures u.More? { assert u in turns; }
      EventsArePermitted(After(s, t, cb), turns[1..], cb);
      assert Ops(turns, cb)[1..] == Ops(turns[1..], cb);
    }
  }

  lemma NotClosed(s: Stream)
    requires Ready(s)
    ensures !s.closed
  {
  }

  lemma SeekRegisters(s: Stream, d: string, parts: seq<string>, cb: Option<Script>)
    requires Fresh(s) && Fits(s, Seek(d, parts))
    ensures Allowed(s, OpOf(Seek(d, parts), cb)) && After(s, Seek(d, parts), cb).state != NONE
  {
    hide HandleRead, Chunks;
    CallTurn(s, Requested(s, Until(d), cb).(readDelimiter := d, readCb := cb), parts, -2);
  }

  /** A delimiter read on a fresh stream and read events after it: every such run is one of the code. */
  lemma DelimitedRunIsPermitted(s: Stream, turns: seq<Turn>, cb: Option<Script>)
    requires Fresh(s) && turns != [] && turns[0].Seek? && OnlyEvents(turns[1..]) && AllFit(s, turns, cb)
    ensures Runnable(s, AtReadEnd, Ops(turns, cb))
  {
    hide Fits, Step, Ready, Allowed;
    var d, parts := turns[0].delimiter, turns[0].parts;
    FreshIsReady(s);
    TurnDoes(s, turns[0], cb);
    SeekRegisters(s, d, parts, cb);
    EventsArePermitted(After(s, turns[0], cb), turns[1..], cb);
    assert Ops(turns, cb)[1..] == Ops(turns[1..], cb);
  }

  lemma FreshIsReady(s: Stream)
    requires Fresh(s)
    ensures Ready(s) && InOrder(s) && Readable(s.readBuf) == 0
  {
    assert |Contents(s.readBuf)| == Readable(s.readBuf);
  }

  // ----------------------------------------------------------- by the number of chunks

  function ChunkCount(turns: seq<Turn>): nat {
    if turns == [] then 0 else |turns[0].parts| + ChunkCount(turns[1..])
  }

  lemma {:induction false} SameCount(turns: seq<Turn>, others: seq<Turn>)
    requires SameTurns(turns, others)
    ensures ChunkCount(turns) == ChunkCount(others)
    decreases |turns|
  {
    if turns != [] {
      SameTurnsTail(turns, others);
      SameCount(turns[1..], others[1..]);
    }
  }

  /** With no more chunks than one, and that only for an empty buffer, every turn is gentle. */
  lemma {:induction false} OneChunkIsGentle(s: Stream, turns: seq<Turn>, cb: Option<Script>)
    requires Ready(s) && AllFit(s, turns, cb)
    requires ChunkCount(turns) == 0 || (ChunkCount(turns) == 1 && Readable(s.readBuf) == 0)
    ensures AllGentle(s, turns, cb)
    decreases |turns|
  {
    hide After, Ready, Fits, AtOnce;
    if turns != [] {
      var t := turns[0];
      TurnDoes(s, t, cb);
      HeldGrows(s, t, cb);
      if t.parts == [] { assert Flatten(t.parts) == ""; }
      OneChunkIsGentle(After(s, t, cb), turns[1..], cb);
    }
  }

  /** The same turns, with one character for payload. */
  function Filler(turns: seq<Turn>, c: char): (others: seq<Turn>)
    ensures |others| == |turns|
  {
    seq(|turns|, i requires 0 <= i < |turns| =>
      turns[i].(parts := seq(|turns[i].parts|, j requires 0 <= j < |turns[i].parts| => seq(|turns[i].parts[j]|, _ => c))))
  }

  lemma FillerIsSame(turns: seq<Turn>, c: char)
    ensures SameTurns(turns, Filler(turns, c))
  {
    forall i | 0 <= i < |turns| ensures SameTurn(turns[i], Filler(turns, c)[i]) { }
  }

  /** A text of one character holds no delimiter that begins with another. */
  lemma NoneFound(text: string, c: char, d: string)
    requires d != "" && d[0] != c && forall k :: 0 <= k < |text| ==> text[k] == c
    ensures Find(text, d) < 0
  {
    FindFromIsFirst(text, d, 0);
    forall i: nat ensures !MatchAt(text, d, i) {
      if i + |d| <= |text| { assert text[i..i + |d|][0] == text[i] == c; }
    }
  }

  lemma {:induction false} FillerText(parts: seq<string>, c: char)
    requires forall i :: 0 <= i < |parts| ==> forall k :: 0 <= k < |parts[i]| ==> parts[i][k] == c
    ensures forall k :: 0 <= k < |Flatten(parts)| ==> Flatten(parts)[k] == c
    decreases |parts|
  {
    if parts != [] {
      forall i | 0 <= i < |parts[1..]| ensures forall k :: 0 <= k < |parts[1..][i]| ==> parts[1..][i][k] == c {
        assert parts[1..][i] == parts[i + 1];
      }
      FillerText(parts[1..], c);
    }
  }

  /** A delimiter awaited, nothing but one other character unread. */
  ghost predicate InVain(s: Stream, c: char) {
    && Ready(s) && s.readBytes == 0 && s.readDelimiter != "" && s.readDelimiter[0] != c
    && forall k :: 0 <= k < Readable(s.readBuf) ==> Contents(s.readBuf)[k] == c
  }

  /** A gentle turn of that character leaves it awaited, and holds all there was. */
  lemma FillerTurn(s: Stream, parts: seq<string>, c: char, cb: Option<Script>)
    requires InVain(s, c) && Fits(s, More(parts)) && GentleTurn(s, More(parts))
    requires forall i :: 0 <= i < |parts| ==> forall k :: 0 <= k < |parts[i]| ==> parts[i][k] == c
    ensures var s' := After(s, More(parts), cb);
      InVain(s', c) && Readable(s'.readBuf) == Readable(s.readBuf) + |Flatten(parts)|
  {
    hide ReadPass, Find;
    FillerText(parts, c);
    PassFits(s, parts);
    ShortPassKeepsOrder(s.readBuf, parts, WouldBlock);
    NoneFound(Contents(PassOf(s, parts).buf), c, s.readDelimiter);
  }

  lemma FillerSeeks(s: Stream, d: string, parts: seq<string>, c: char, cb: Option<Script>)
    requires Fresh(s) && Fits(s, Seek(d, parts)) && d[0] != c && |parts| <= 1
    requires forall i :: 0 <= i < |parts| ==> forall k :: 0 <= k < |parts[i]| ==> parts[i][k] == c
    ensures var s' := After(s, Seek(d, parts), cb); InVain(s', c) && Readable(s'.readBuf) == |Flatten(parts)|
  {
    FreshIsReady(s);
    var asked := Requested(s, Until(d), cb).(readDelimiter := d, readCb := cb);
    assert Contents(s.readBuf) == "";
    SeekDoes(s, d, Chunks(parts, WouldBlock), cb);
    hide ReadPass, Find, Step;
    FillerText(parts, c);
    PassFits(asked, parts);
    ShortPassKeepsOrder(asked.readBuf, parts, WouldBlock);
    NoneFound(Contents(PassOf(asked, parts).buf), c, d);
  }

  ghost predicate AllOf(turns: seq<Turn>, c: char) {
    forall t <- turns :: forall i :: 0 <= i < |t.parts| ==> forall k :: 0 <= k < |t.parts[i]| ==> t.parts[i][k] == c
  }

  lemma FillerIsAllOf(turns: seq<Turn>, c: char)
    ensures AllOf(Filler(turns, c), c)
  {
  }

  /** While the delimiter is awaited in vain a chunk stays unread, so that the next one meets it. */
  lemma {:induction false} NextChunkIsHarsh(s: Stream, turns: seq<Turn>, c: char, cb: Option<Script>)
    requires InVain(s, c) && AllFit(s, turns, cb) && OnlyEvents(turns) && AllOf(turns, c)
    requires ChunkCount(turns) >= if Readable(s.readBuf) > 0 then 1 else 2
    ensures !AllGentle(s, turns, cb)
    decreases |turns|
  {
    hide After, Fits, GentleTurn, InVain;
    var t := turns[0];
    assert t in turns && t == More(t.parts);
    if GentleTurn(s, t) {
      FillerTurn(s, t.parts, c, cb);
      GentleCount(s, t);
      forall u <- turns[1..] ensures u in turns { }
      NextChunkIsHarsh(After(s, t, cb), turns[1..], c, cb);
    }
  }

  lemma GentleCount(s: Stream, t: Turn)
    requires t.More? && GentleTurn(s, t) && Fits(s, t)
    ensures if t.parts == [] then Flatten(t.parts) == ""
            else |t.parts| == 1 && Readable(s.readBuf) == 0 && |Flatten(t.parts)| > 0
  {
    if t.parts != [] { assert Flatten(t.parts) == t.parts[0] + Flatten(t.parts[1..]); }
  }

  lemma FillerIsHarsh(s: Stream, turns: seq<Turn>, c: char, cb: Option<Script>)
    requires Fresh(s) && turns != [] && turns[0].Seek? && OnlyEvents(turns[1..]) && AllFit(s, turns, cb)
    requires AllOf(turns, c) && turns[0].delimiter[0] != c && ChunkCount(turns) >= 2
    ensures !AllGentle(s, turns, cb)
  {
    hide After;
    FreshIsReady(s);
    var t := turns[0];
    assert t in turns && t == Seek(t.delimiter, t.parts);
    if GentleTurn(s, t) {
      NoneAtOnce(s, t.delimiter);
      FillerSeeks(s, t.delimiter, t.parts, c, cb);
      if t.parts != [] { assert Flatten(t.parts) == t.parts[0] + Flatten(t.parts[1..]); }
      forall u <- turns[1..] ensures u in turns { }
      NextChunkIsHarsh(After(s, t, cb), turns[1..], c, cb);
    }
  }

  lemma NoneAtOnce(s: Stream, d: string)
    requires Fresh(s)
    ensures Find(Contents(s.readBuf), d) < 0
  {
  }

  /**
   As every connection begins: a delimiter read on a fresh stream, and then read events. Every run of
   such a shape is permitted, whatever its payload; and the code keeps the order for all of them if
   and only if they read no more than one chunk in all.
   */
  lemma DelimitedReadsAreFifoIff(s: Stream, turns: seq<Turn>, cb: Option<Script>)
    requires Fresh(s) && turns != [] && turns[0].Seek? && OnlyEvents(turns[1..])
    requires RealTurns(turns) && Sizes(turns) + READ_CHUNK <= DEFAULT_SIZE
    ensures forall others :: SameTurns(turns, others) ==> Runnable(s, AtReadEnd, Ops(others, cb))
    ensures (forall others :: SameTurns(turns, others) ==> InOrder(Ends(s, others, cb))) <==> ChunkCount(turns) <= 1
  {
    hide AllFit, RealTurns, AllGentle, InOrder, Ends, Runnable, Fresh, Ready, AllOf, Filler;
    FreshIsReady(s);
    ShortRunsFit(s, turns, cb);
    forall others | SameTurns(turns, others) ensures Runnable(s, AtReadEnd, Ops(others, cb)) {
      OnlyEventsToo(turns, others);
      DelimitedRunIsPermitted(s, others, cb);
    }
    CodedReadsAreFifoIff(s, turns, cb);
    if ChunkCount(turns) <= 1 {
      forall others | SameTurns(turns, others) ensures AllGentle(s, others, cb) {
        SameCount(turns, others);
        OneChunkIsGentle(s, others, cb);
      }
    } else {
      SomeFillerIsHarsh(s, turns, cb);
    }
  }

  lemma SomeFillerIsHarsh(s: Stream, turns: seq<Turn>, cb: Option<Script>)
    requires Fresh(s) && turns != [] && turns[0].Seek? && OnlyEvents(turns[1..]) && AlwaysFits(s, turns, cb)
    requires RealTurns(turns) && ChunkCount(turns) >= 2
    ensures exists others :: SameTurns(turns, others) && !AllGentle(s, others, cb)
  {
    hide AllFit, AllGentle, Fresh;
    assert turns[0] in turns;
    var c := if turns[0].delimiter[0] == 'a' then 'b' else 'a';
    var others := Filler(turns, c);
    FillerIsSame(turns, c);
    FillerIsAllOf(turns, c);
    SameCount(turns, others);
    OnlyEventsToo(turns, others);
    assert SameTurn(turns[0], others[0]);
    FillerIsHarsh(s, others, c, cb);
  }

  lemma OnlyEventsToo(turns: seq<Turn>, others: seq<Turn>)
    requires SameTurns(turns, others) && turns != [] && turns[0].Seek? && OnlyEvents(turns[1..])
    ensures others != [] && others[0].Seek? && OnlyEvents(others[1..])
  {
    SameTurnsTail(turns, others);
    forall u <- others[1..] ensures u.More? {
      var i :| 0 <= i < |others[1..]| && others[1..][i] == u;
      assert SameTurn(turns[1..][i], u) && turns[1..][i] in turns[1..];
    }
  }
}
