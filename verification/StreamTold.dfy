/**
 Whom a stream tells what: every notice of one operation, in order, and over whole runs how often a
 connect, a write and the close are announced.
 */
module StreamTold {
  import opened Common
  import opened LoopModel
  import opened Buffers
  import opened StreamModel
  import opened StreamProofs
  import opened StreamGrows

  // ------------------------------------------------------------------ one operation

  ghost predicate ReadsOnly(ts: seq<Task>) { forall t <- ts :: t.kind.ReadDone? }

  /** What an operation says of a connect: errno if there was a socket error, else zero, to the callback stored. */
  function ConnectPart(s: Stream, op: Op): seq<Task> {
    if op.OpEvents? && !s.closed && s.connecting
    then Notice(ConnectDone(match op.failure case None => 0 case Some(errno) => errno), s.connectCb)
    else []
  }

  /** What it says of the close, to the close callback stored. */
  function ClosePart(s: Stream, s': Stream): seq<Task> {
    if !s.closed && s'.closed then Notice(CloseDone, s.closeCb) else []
  }

  /** The callback to be told when everything is written: that of the operation, unless it writes nothing. */
  function Writer(s: Stream, op: Op): Option<Script> {
    if !op.OpWriteWith? then s.writeCb else if op.data == "" then None else op.cb
  }

  /** A stream still open has told it, everything being written, or keeps it. */
  ghost predicate Settled(cb: Option<Script>, s': Stream, w: seq<Task>) {
    && (w == [] || (w == Notice(WriteDone, cb) && Readable(s'.writeBuf) == 0))
    && (!s'.closed ==> s'.writeCb == if w == Notice(WriteDone, cb) && Readable(s'.writeBuf) == 0 then None else cb)
  }

  /** What was posted beyond a point: data, the end of a write, then on closing the last data and the close. */
  ghost predicate Posted(s: Stream, s': Stream, r: seq<Task>, w: seq<Task>, f: seq<Task>) {
    && s'.posted == s.posted + r + w + f + ClosePart(s, s')
    && ReadsOnly(r) && ReadsOnly(f)
    && (!s'.closed ==> !s.closed && s'.closeCb == s.closeCb)
  }

  lemma FlushTells(s: Stream) returns (f: seq<Task>)
    ensures FlushOnClose(s).posted == s.posted + f && ReadsOnly(f)
    ensures var s' := FlushOnClose(s);
      s'.closeCb == s.closeCb && s'.writeBuf == s.writeBuf && s'.closed == s.closed && s'.connecting == s.connecting
  {
    assert s.posted + [] == s.posted;
    hide Deliver;
    f := [];
    if s.readUntilClose && Readable(s.readBuf) > 0 { f := DeliverTells(s, Readable(s.readBuf), s.readCb); }
  }

  lemma CloseTells(s: Stream) returns (f: seq<Task>)
    ensures Posted(s, Close(s), [], [], f) && Close(s).writeBuf == s.writeBuf && Close(s).connecting == s.connecting
    ensures Close(s).closed && (s.closed ==> Close(s) == s && f == []) && (!s.closed ==> Close(s).connectCb.None?)
  {
    hide FlushOnClose;
    f := [];
    assert s.posted + [] == s.posted;
    if !s.closed { f := FlushTells(s); }
  }

  /** Closes nothing, and leaves the connect and close callbacks as they are. */
  ghost predicate StaysOn(s: Stream, s': Stream) {
    s'.closed == s.closed && s'.connectCb == s.connectCb && s'.closeCb == s.closeCb && s'.connecting == s.connecting
  }

  lemma DeliverTells(s: Stream, len: nat, cb: Option<Script>) returns (r: seq<Task>)
    requires len <= Readable(s.readBuf)
    ensures var s' := Deliver(s, len, cb);
      && s'.posted == s.posted + r && ReadsOnly(r) && StaysOn(s, s')
      && s'.writeCb == s.writeCb && s'.writeBuf == s.writeBuf
  {
    r := Notice(ReadDone(Contents(s.readBuf)[..len]), cb);
  }

  lemma ExtractTells(s: Stream) returns (r: seq<Task>)
    ensures var s' := Extract(s);
      && s'.posted == s.posted + r && ReadsOnly(r) && StaysOn(s, s')
      && s'.writeCb == s.writeCb && s'.writeBuf == s.writeBuf
  {
    FoundFits(s.readBuf, s.readDelimiter);
    assert s.posted + [] == s.posted;
    hide Contents, Find, Deliver;
    var i := Find(Contents(s.readBuf), s.readDelimiter);
    r := [];
    if s.readBytes > 0 && Readable(s.readBuf) >= s.readBytes { r := DeliverTells(s, s.readBytes, s.readCb); }
    else if s.readDelimiter != "" && i >= 0 { r := DeliverTells(s, i + |s.readDelimiter|, s.readCb); }
    else if s.readDelimiter == "" && s.readUntilClose && Readable(s.readBuf) > 0 {
      r := DeliverTells(s, Readable(s.readBuf), s.readCb);
    }
  }

  lemma ReadTells(s: Stream, fill: Fill, input: Input) returns (r: seq<Task>)
    ensures var s' := HandleRead(s, fill, input).0;
      && s'.posted == s.posted + r && ReadsOnly(r) && StaysOn(s, s')
      && s'.writeCb == s.writeCb && s'.writeBuf == s.writeBuf
  {
    hide ReadPass, Extract;
    var p := ReadPass(fill, s.readBuf, input);
    r := [];
    assert s.posted + [] == s.posted;
    if p.ok { r := ExtractTells(Receive(s, p)); }
  }

  lemma WriteTells(s: Stream, output: Output) returns (w: seq<Task>)
    ensures var (s', failed) := HandleWrite(s, output);
      && s'.posted == s.posted + w && Settled(s.writeCb, s', w) && StaysOn(s, s')
  {
    hide WritePass;
    assert s.posted + [] == s.posted;
    var s' := HandleWrite(s, output).0;
    w := if !HandleWrite(s, output).1 && Readable(s'.writeBuf) == 0 then Notice(WriteDone, s.writeCb) else [];
  }

  lemma FinishTells(s: Stream, events: Mask, output: Output) returns (w: seq<Task>, f: seq<Task>)
    requires !s.closed
    ensures var s' := FinishEvents(s, events, output);
      Posted(s, s', [], w, f) && Settled(s.writeCb, s', w)
      && s'.connecting == s.connecting && s'.connectCb == if s'.closed then None else s.connectCb
  {
    hide HandleWrite, Close, Updated;
    w, f := [], [];
    var s1, failed := s, false;
    if events.write {
      w := WriteTells(s, output);
      s1, failed := HandleWrite(s, output).0, HandleWrite(s, output).1;
    }
    NothingTold(s);
    if failed || events.error { f := CloseTells(s1); }
    UpdateTells(s1, NextState(s1));
    ThenClosed(s, s1, FinishEvents(s, events, output), w, f);
  }

  lemma NothingTold(s: Stream)
    ensures s.posted == s.posted + [] && Settled(s.writeCb, s, [])
  {
  }

  lemma UpdateTells(s: Stream, state: Mask)
    ensures var s' := Updated(s, state); s' == s.(state := s'.state, slot := s'.slot)
  {
  }

  lemma ThenClosed(s: Stream, s1: Stream, s': Stream, w: seq<Task>, f: seq<Task>)
    requires s1.posted == s.posted + w && StaysOn(s, s1) && Posted(s1, s', [], [], f)
    ensures Posted(s, s', [], w, f)
  {
    assert s.posted + w + [] + [] + f == s.posted + [] + w + f;
  }

  lemma ServeTells(s: Stream, fill: Fill, events: Mask, input: Input, output: Output)
    returns (r: seq<Task>, w: seq<Task>, f: seq<Task>)
    requires !s.closed
    ensures var s' := ServeEvents(s, fill, events, input, output);
      && Posted(s, s', r, w, f) && Settled(s.writeCb, s', w)
      && s'.connecting == s.connecting && s'.connectCb == if s'.closed then None else s.connectCb
  {
    hide HandleRead, Close, FinishEvents;
    r, w := [], [];
    var s1, failed := s, false;
    NothingTold(s);
    if events.read {
      r := ReadTells(s, fill, input);
      s1, failed := HandleRead(s, fill, input).0, HandleRead(s, fill, input).1;
    }
    if failed { f := CloseTells(s1); NothingTold(s1); } else { w, f := FinishTells(s1, events, output); }
    AfterData(s, s1, ServeEvents(s, fill, events, input, output), r, w, f);
  }

  lemma AfterData(s: Stream, s1: Stream, s': Stream, r: seq<Task>, w: seq<Task>, f: seq<Task>)
    requires s1.posted == s.posted + r && ReadsOnly(r) && StaysOn(s, s1) && Posted(s1, s', [], w, f)
    ensures Posted(s, s', r, w, f)
  {
    assert s.posted + r + [] + w + f == s.posted + r + w + f;
  }

  /** After the connect, if there was one to announce. */
  ghost predicate Announced(s: Stream, s': Stream, op: Op, r: seq<Task>, w: seq<Task>, f: seq<Task>) {
    && s'.posted == s.posted + ConnectPart(s, op) + r + w + f + ClosePart(s, s')
    && ReadsOnly(r) && ReadsOnly(f) && Settled(Writer(s, op), s', w) && (s.closed ==> w == [])
    && (!s'.closed ==> !s.closed && s'.closeCb == if op.OpSetCloseCallback? then op.cb else s.closeCb)
  }

  lemma JustAnnounced(s: Stream, s': Stream, op: Op, r: seq<Task>, w: seq<Task>, f: seq<Task>)
    requires Posted(s, s', r, w, f) && Settled(Writer(s, op), s', w) && ConnectPart(s, op) == []
    requires (s.closed ==> w == []) && !op.OpSetCloseCallback?
    ensures Announced(s, s', op, r, w, f)
  {
    assert s.posted + [] == s.posted;
  }

  /**
   An event on a stream waiting for its connect: the first notice is that of the connect. On a socket
   error nothing else but the close follows; otherwise the stream is connected.
   */
  lemma EventsTell(s: Stream, fill: Fill, op: Op) returns (r: seq<Task>, w: seq<Task>, f: seq<Task>)
    requires op.OpEvents?
    ensures var s' := Step(s, fill, op);
      && Announced(s, s', op, r, w, f)
      && (!s.closed ==> (!s'.connecting <==> !s.connecting || op.failure.None?))
      && (!s.closed && s.connecting && op.failure.Some? ==> s'.closed)
      && (!s.closed ==> s'.connectCb == if s'.closed || s.connecting then None else s.connectCb)
      && (s.closed ==> s' == s)
  {
    hide ServeEvents, Close;
    r, w, f := [], [], [];
    NothingTold(s);
    if s.closed {
      ClosedTells(s, op);
    } else if s.connecting {
      var c := ConnectPart(s, op);
      var s1 := s.(posted := s.posted + c, connectCb := None, connecting := op.failure.Some?);
      if op.failure.Some? { f := CloseTells(s1); NothingTold(s1); }
      else { r, w, f := ServeTells(s1, fill, op.events, op.input, op.output); }
    } else {
      r, w, f := ServeTells(s, fill, op.events, op.input, op.output);
      JustAnnounced(s, Step(s, fill, op), op, r, w, f);
    }
  }

  lemma ClosedTells(s: Stream, op: Op)
    requires s.closed && op.OpEvents?
    ensures Announced(s, s, op, [], [], [])
  {
    assert s.posted + [] == s.posted;
  }

  lemma AddTells(s: Stream, m: Mask)
    ensures var s' := AddState(s, m); s' == s.(state := s'.state, slot := s'.slot)
  {
  }

  lemma SendTells(s: Stream, output: Output) returns (w: seq<Task>, f: seq<Task>)
    requires !s.closed
    ensures var (s', failed) := Send(s, output);
      && Posted(s, s', [], w, f) && Settled(s.writeCb, s', w) && (failed ==> s'.closed)
      && s'.connecting == s.connecting && s'.connectCb == if s'.closed then None else s.connectCb
  {
    hide HandleWrite, Close, AddState;
    w := WriteTells(s, output);
    var (s1, failed) := HandleWrite(s, output);
    f := [];
    if failed { f := CloseTells(s1); }
    AddTells(s1, WRITE);
    NothingTold(s1);
    ThenClosed(s, s1, Send(s, output).0, w, f);
  }

  /** What the write calls tell, of the callback stored when they are made. */
  lemma BytesTell(s: Stream, data: string, output: Output) returns (w: seq<Task>, f: seq<Task>)
    ensures var (s', ret) := WriteBytes(s, data, output);
      && Posted(s, s', [], w, f) && Settled(s.writeCb, s', w) && (s.closed ==> w == [])
      && s'.connecting == s.connecting && s'.connectCb == (if !s.closed && s'.closed then None else s.connectCb)
      && (s'.closed || data == "" || ret == 0) && (data == "" ==> s' == s && w == [] && ret != 0)
  {
    hide Send, Close, Appended;
    w, f := [], [];
    NothingTold(s);
    if !s.closed && data != "" && Room(s.writeBuf) < |data| {
      f := CloseTells(s);
    } else if !s.closed && data != "" && !s.connecting {
      w, f := SendTells(JustWrite(s, data).0, output);
    }
  }

  lemma JustTells(s: Stream, data: string) returns (f: seq<Task>)
    ensures var s' := JustWrite(s, data).0;
      && Posted(s, s', [], [], f) && Settled(s.writeCb, s', [])
      && s'.connecting == s.connecting && s'.connectCb == if !s.closed && s'.closed then None else s.connectCb
  {
    hide Close, Appended;
    f := [];
    NothingTold(s);
    if !s.closed && data != "" && Room(s.writeBuf) < |data| { f := CloseTells(s); }
  }

  lemma StartTells(s: Stream, fill: Fill, input: Input, failure: int) returns (r: seq<Task>, f: seq<Task>)
    ensures var s' := StartRead(s, fill, input, failure).0;
      && Posted(s, s', r, [], f) && Settled(s.writeCb, s', [])
      && s'.connecting == s.connecting && s'.connectCb == if !s.closed && s'.closed then None else s.connectCb
  {
    hide HandleRead, Close, AddState;
    r := ReadTells(s, fill, input);
    var (s1, failed) := HandleRead(s, fill, input);
    f := [];
    NothingTold(s);
    NothingTold(s1);
    if failed { f := CloseTells(s1); }
    AddTells(s1, READ);
    AfterData(s, s1, StartRead(s, fill, input, failure).0, r, [], f);
  }

  lemma ServedTells(s: Stream, len: nat, cb: Option<Script>) returns (r: seq<Task>)
    requires len <= Readable(s.readBuf)
    ensures var s' := Deliver(s, len, cb);
      && Posted(s, s', r, [], []) && Settled(s.writeCb, s', [])
      && s'.connecting == s.connecting && s'.connectCb == s.connectCb && s'.closed == s.closed
  {
    hide Deliver;
    r := DeliverTells(s, len, cb);
    NothingTold(s);
    assert s.posted + r + [] + [] + [] == s.posted + r;
  }

  lemma CountTells(s: Stream, fill: Fill, n: int, cb: Option<Script>, input: Input) returns (r: seq<Task>, f: seq<Task>)
    ensures var s' := ReadBytes(s, fill, n, cb, input).0;
      && Posted(s, s', r, [], f) && Settled(s.writeCb, s', [])
      && s'.connecting == s.connecting && s'.connectCb == if !s.closed && s'.closed then None else s.connectCb
  {
    hide StartRead, Deliver;
    r, f := [], [];
    NothingTold(s);
    if n > 0 {
      var s0 := Requested(s, Count(n), cb);
      if Readable(s.readBuf) >= n { r := ServedTells(s0, n, cb); }
      else { r, f := StartTells(s0.(readBytes := n, readCb := cb), fill, input, -2); }
    }
  }

  lemma DelimiterTells(s: Stream, fill: Fill, d: string, cb: Option<Script>, input: Input)
    returns (r: seq<Task>, f: seq<Task>)
    ensures var s' := ReadUntil(s, fill, d, cb, input).0;
      && Posted(s, s', r, [], f) && Settled(s.writeCb, s', [])
      && s'.connecting == s.connecting && s'.connectCb == if !s.closed && s'.closed then None else s.connectCb
  {
    FoundFits(s.readBuf, d);
    hide StartRead, Deliver, Contents, Find;
    r, f := [], [];
    NothingTold(s);
    if d != "" {
      var s0, i := Requested(s, Until(d), cb), Find(Contents(s.readBuf), d);
      if i >= 0 { r := ServedTells(s0, i + |d|, cb); }
      else { r, f := StartTells(s0.(readDelimiter := d, readCb := cb), fill, input, -2); }
    }
  }

  lemma ReadsTell(s: Stream, fill: Fill, op: Op) returns (r: seq<Task>, f: seq<Task>)
    requires op.OpReadBytes? || op.OpReadUntil? || op.OpReadUntilClose?
    ensures var s' := Step(s, fill, op);
      && Posted(s, s', r, [], f) && Settled(s.writeCb, s', [])
      && s'.connecting == s.connecting && s'.connectCb == if !s.closed && s'.closed then None else s.connectCb
  {
    hide StartRead, ReadBytes, ReadUntil;
    match op
    case OpReadBytes(n, cb, input) => r, f := CountTells(s, fill, n, cb, input);
    case OpReadUntil(d, cb, input) => r, f := DelimiterTells(s, fill, d, cb, input);
    case OpReadUntilClose(cb, input) =>
      r, f := StartTells(Requested(s, ToClose, cb).(readUntilClose := true, readCb := cb), fill, input, -1);
  }

  lemma ConnectTells(s: Stream, ok: bool, cb: Option<Script>) returns (f: seq<Task>)
    ensures var s' := ConnectWith(s, ok, cb).0;
      && Posted(s, s', [], [], f) && Settled(s.writeCb, s', [])
      && (ok ==> s'.closed == s.closed && s'.connecting && s'.connectCb == cb)
      && (!ok ==> s'.closed && (!s.closed ==> s'.connectCb.None?) && (s.closed ==> s'.connectCb == s.connectCb))
  {
    hide AddState, Close;
    f := [];
    NothingTold(s);
    var s0 := s.(connecting := true);
    if ok { AddTells(s0, WRITE); } else { f := CloseTells(s0); }
  }

  /** The callback still to be told of a connect, after an operation. */
  function StillConnecting(s: Stream, op: Op, s': Stream): Option<Script> {
    if op.OpConnect? && op.ok then op.cb
    else if !s.closed && (s'.closed || (op.OpEvents? && s.connecting)) then None
    else s.connectCb
  }

  /**
   All one operation tells, in order: of the connect if it is an event that finds one pending, then
   data, then the end of a write if everything is written, then, if it closes the stream, the last data
   and the close. Each goes to the callback stored for it, and is not told again.
   */
  lemma StepTells(s: Stream, fill: Fill, op: Op) returns (r: seq<Task>, w: seq<Task>, f: seq<Task>)
    ensures var s' := Step(s, fill, op);
      Announced(s, s', op, r, w, f) && s'.connectCb == StillConnecting(s, op, s')
  {
    hide ConnectWith, Close, JustWrite, WriteBytes, WriteBytesWith, ReadBytes, ReadUntil, ReadUntilClose, HandleEvents;
    r, w, f := [], [], [];
    NothingTold(s);
    match op
    case OpConnect(ok, cb) => f := ConnectTells(s, ok, cb);
    case OpSetCloseCallback(_) =>
    case OpClose => f := CloseTells(s);
    case OpJustWrite(data) => f := JustTells(s, data);
    case OpWrite(data, output) => w, f := BytesTell(s, data, output);
    case OpWriteWith(data, output, cb) => w, f := WithTells(s, fill, op);
    case OpEvents(_, _, _, _) => r, w, f := EventsTell(s, fill, op);
    case _ => r, f := ReadsTell(s, fill, op);
    if !op.OpEvents? && !op.OpSetCloseCallback? { JustAnnounced(s, Step(s, fill, op), op, r, w, f); }
  }

  lemma WithTells(s: Stream, fill: Fill, op: Op) returns (w: seq<Task>, f: seq<Task>)
    requires op.OpWriteWith?
    ensures var s' := Step(s, fill, op);
      && Posted(s, s', [], w, f) && Settled(Writer(s, op), s', w) && (s.closed ==> w == [])
      && s'.connecting == s.connecting && s'.connectCb == if !s.closed && s'.closed then None else s.connectCb
  {
    hide WriteBytes;
    w, f := BytesTell(s.(writeCb := op.cb), op.data, op.output);
  }

  // --------------------------------------------------------------------- whole runs

  datatype Subject = OfConnect | OfWrite | OfClose

  predicate Concerns(t: Task, about: Subject) {
    match about
    case OfConnect => t.kind.ConnectDone?
    case OfWrite => t.kind.WriteDone?
    case OfClose => t.kind.CloseDone?
  }

  /** The notices about one thing, in order. */
  function Those(ts: seq<Task>, about: Subject): seq<Task> {
    if ts == [] then [] else (if Concerns(ts[0], about) then [ts[0]] else []) + Those(ts[1..], about)
  }

  lemma {:induction false} ThoseConcat(a: seq<Task>, b: seq<Task>, about: Subject)
    ensures Those(a + b, about) == Those(a, about) + Those(b, about)
    decreases |a|
  {
    if a == [] {
      assert a + b == b;
    } else {
      assert (a + b)[0] == a[0] && (a + b)[1..] == a[1..] + b;
      ThoseConcat(a[1..], b, about);
      ConcatAssoc(if Concerns(a[0], about) then [a[0]] else [], Those(a[1..], about), Those(b, about));
    }
  }

  lemma {:induction false} DataConcernsNone(ts: seq<Task>, about: Subject)
    requires ReadsOnly(ts)
    ensures Those(ts, about) == []
    decreases |ts|
  {
    if ts != [] {
      assert ts[0] in ts;
      forall t <- ts[1..] ensures t.kind.ReadDone? { assert t in ts; }
      DataConcernsNone(ts[1..], about);
    }
  }

  lemma NoticeConcerns(kind: Kind, cb: Option<Script>, about: Subject)
    ensures var n := Notice(kind, cb); Those(n, about) == if n != [] && Concerns(n[0], about) then n else []
  {
    var n := Notice(kind, cb);
    if n != [] { assert n[1..] == []; assert Those(n[1..], about) == []; }
  }

  /** What one operation adds to the notices about one thing. */
  lemma StepAdds(s: Stream, fill: Fill, op: Op, about: Subject) returns (w: seq<Task>)
    ensures var s' := Step(s, fill, op);
      && Settled(Writer(s, op), s', w) && (s.closed ==> w == []) && s'.connectCb == StillConnecting(s, op, s')
      && (!s'.closed ==> !s.closed && s'.closeCb == if op.OpSetCloseCallback? then op.cb else s.closeCb)
      && Those(s'.posted, about) == Those(s.posted, about) +
           match about
           case OfConnect => ConnectPart(s, op)
           case OfWrite => w
           case OfClose => ClosePart(s, s')
  {
    var r, f: seq<Task>;
    r, w, f := StepTells(s, fill, op);
    var s' := Step(s, fill, op);
    hide Step, StillConnecting, Writer, ConnectPart, ClosePart, Those;
    PartsConcern(s, s', op, about);
    WriteConcerns(s, s', op, w, about);
    ThoseOfParts(s.posted, ConnectPart(s, op), r, w, f, ClosePart(s, s'), about);
    var before := Those(s.posted, about);
    assert before + [] == before;
  }

  lemma ThoseOfParts(p: seq<Task>, c: seq<Task>, r: seq<Task>, w: seq<Task>, f: seq<Task>, d: seq<Task>, about: Subject)
    requires ReadsOnly(r) && ReadsOnly(f)
    ensures Those(p + c + r + w + f + d, about) == Those(p, about) + Those(c, about) + Those(w, about) + Those(d, about)
  {
    hide Those;
    ThoseConcat(p + c + r + w + f, d, about);
    ThoseConcat(p + c + r + w, f, about);
    ThoseConcat(p + c + r, w, about);
    ThoseConcat(p + c, r, about);
    ThoseConcat(p, c, about);
    DataConcernsNone(r, about);
    DataConcernsNone(f, about);
  }

  lemma PartsConcern(s: Stream, s': Stream, op: Op, about: Subject)
    ensures Those(ConnectPart(s, op), about) == if about == OfConnect then ConnectPart(s, op) else []
    ensures Those(ClosePart(s, s'), about) == if about == OfClose then ClosePart(s, s') else []
  {
    if op.OpEvents? {
      NoticeConcerns(ConnectDone(match op.failure case None => 0 case Some(errno) => errno), s.connectCb, about);
    }
    NoticeConcerns(CloseDone, s.closeCb, about);
  }

  lemma WriteConcerns(s: Stream, s': Stream, op: Op, w: seq<Task>, about: Subject)
    requires Settled(Writer(s, op), s', w)
    ensures Those(w, about) == if about == OfWrite then w else []
  {
    NoticeConcerns(WriteDone, Writer(s, op), about);
  }

  /** The connects a run makes that are to be announced. */
  function ConnectsIn(ops: seq<Op>): nat {
    if ops == [] then 0
    else (if ops[0].OpConnect? && ops[0].ok && ops[0].cb.Some? then 1 else 0) + ConnectsIn(ops[1..])
  }

  function Pending(cb: Option<Script>): nat { if cb.Some? then 1 else 0 }

  /** Over any run no connect is announced twice, and nothing else is announced as one. */
  lemma {:induction false} ConnectsAreToldOnce(s: Stream, fill: Fill, ops: seq<Op>)
    ensures var s' := Run(s, fill, ops);
      |Those(s'.posted, OfConnect)| + Pending(s'.connectCb)
        <= |Those(s.posted, OfConnect)| + Pending(s.connectCb) + ConnectsIn(ops)
    decreases |ops|
  {
    hide Step, Those;
    if ops != [] {
      var w := StepAdds(s, fill, ops[0], OfConnect);
      ConnectsAreToldOnce(Step(s, fill, ops[0]), fill, ops[1..]);
    }
  }

  predicate NoConnects(ops: seq<Op>) { forall op <- ops :: !op.OpConnect? }
  predicate NoEvents(ops: seq<Op>) { forall op <- ops :: !op.OpEvents? }

  /** Until an event comes nothing is announced, and the callback waits, unless the stream closes. */
  lemma {:induction false} ConnectWaits(s: Stream, fill: Fill, ops: seq<Op>)
    requires NoConnects(ops) && NoEvents(ops)
    ensures var s' := Run(s, fill, ops);
      && Those(s'.posted, OfConnect) == Those(s.posted, OfConnect)
      && (s.closed ==> s'.closed) && (!s'.closed ==> s'.connecting == s.connecting)
      && s'.connectCb == if !s.closed && s'.closed then None else s.connectCb
    decreases |ops|
  {
    hide Step, Those;
    if ops != [] {
      var op, s1 := ops[0], Step(s, fill, ops[0]);
      assert op in ops;
      var w := StepAdds(s, fill, op, OfConnect);
      StepConnects(s, fill, op);
      assert Those(s.posted, OfConnect) + [] == Those(s.posted, OfConnect);
      forall o <- ops[1..] ensures !o.OpConnect? && !o.OpEvents? { assert o in ops; }
      ConnectWaits(s1, fill, ops[1..]);
    }
  }

  /** What an operation does to the flags. */
  lemma StepConnects(s: Stream, fill: Fill, op: Op)
    ensures var s' := Step(s, fill, op);
      && (s.closed ==> s'.closed)
      && (!op.OpConnect? && !op.OpEvents? ==> s'.connecting == s.connecting)
      && (op.OpEvents? && !s.closed && s.connecting ==>
            (op.failure.Some? ==> s'.closed) && (s'.connecting <==> op.failure.Some?))
  {
    StepGrows(s, fill, op);
    hide ConnectWith, Close, JustWrite, WriteBytes, WriteBytesWith, ReadBytes, ReadUntil, ReadUntilClose, HandleEvents;
    match op
    case OpConnect(ok, cb) => var _ := ConnectTells(s, ok, cb);
    case OpSetCloseCallback(_) =>
    case OpClose => var _ := CloseTells(s);
    case OpJustWrite(data) => var _ := JustTells(s, data);
    case OpWrite(data, output) => var _, _ := BytesTell(s, data, output);
    case OpWriteWith(data, output, cb) => var _, _ := WithTells(s, fill, op);
    case OpEvents(_, _, _, _) => var _, _, _ := EventsTell(s, fill, op);
    case _ => var _, _ := ReadsTell(s, fill, op);
  }

  /** With no callback stored for a connect, and none made, no more is announced. */
  lemma {:induction false} NoMoreConnects(s: Stream, fill: Fill, ops: seq<Op>)
    requires NoConnects(ops) && s.connectCb.None?
    ensures Those(Run(s, fill, ops).posted, OfConnect) == Those(s.posted, OfConnect)
    decreases |ops|
  {
    hide Step, Those;
    if ops != [] {
      assert ops[0] in ops;
      var w := StepAdds(s, fill, ops[0], OfConnect);
      assert Those(s.posted, OfConnect) + [] == Those(s.posted, OfConnect);
      forall o <- ops[1..] ensures !o.OpConnect? { assert o in ops; }
      NoMoreConnects(Step(s, fill, ops[0]), fill, ops[1..]);
    }
  }

  /**
   A connect with a callback, then any operations but connects and events: when an event finds the
   stream open, the connect is announced to that callback, once, with errno if there is a socket error
   and zero otherwise, and never again before another connect; if it has closed before, never at all.
   */
  lemma ConnectIsTold(s: Stream, fill: Fill, cb: Script, before: seq<Op>, op: Op, after: seq<Op>)
    requires !s.closed && s.connectCb.None? && NoConnects(before) && NoEvents(before) && op.OpEvents? && NoConnects(after)
    ensures var s2 := Run(Step(s, fill, OpConnect(true, Some(cb))), fill, before);
      var err := match op.failure case None => 0 case Some(errno) => errno;
      && Those(s2.posted, OfConnect) == Those(s.posted, OfConnect)
      && Those(Run(Step(s2, fill, op), fill, after).posted, OfConnect) ==
           Those(s.posted, OfConnect) + (if s2.closed then [] else [Task(ConnectDone(err), cb)])
      && (!s2.closed ==> if op.failure.Some? then Step(s2, fill, op).closed else !Step(s2, fill, op).connecting)
  {
    hide Run, Step, Those;
    var first := OpConnect(true, Some(cb));
    var s1 := Step(s, fill, first);
    var w := StepAdds(s, fill, first, OfConnect);
    StaysConnecting(s, fill, cb);
    ConnectWaits(s1, fill, before);
    var s2 := Run(s1, fill, before);
    var w' := StepAdds(s2, fill, op, OfConnect);
    StepConnects(s2, fill, op);
    NoMoreConnects(Step(s2, fill, op), fill, after);
    assert Those(s.posted, OfConnect) + [] == Those(s.posted, OfConnect);
  }

  lemma StaysConnecting(s: Stream, fill: Fill, cb: Script)
    requires !s.closed
    ensures var s' := Step(s, fill, OpConnect(true, Some(cb))); !s'.closed && s'.connecting && s'.connectCb == Some(cb)
  {
    hide AddState;
    var _ := ConnectTells(s, true, Some(cb));
  }

  /**
   errno is not the error of the socket, and nothing sets it here: the first notice says that the connect
   succeeded exactly if it did, if and only if errno is not zero after a failure.
   */
  lemma ConnectNoticeIsTrueIff(s: Stream, fill: Fill, op: Op, cb: Script)
    requires op.OpEvents? && !s.closed && s.connecting && s.connectCb == Some(cb)
    ensures var posted := Step(s, fill, op).posted;
      && |s.posted| < |posted|
      && ((posted[|s.posted|] == Task(ConnectDone(0), cb) <==> op.failure.None?) <==> op.failure != Some(0))
  {
    hide Step;
    var r, w, f := StepTells(s, fill, op);
  }

  predicate NoCloseCallbacks(ops: seq<Op>) { forall op <- ops :: !op.OpSetCloseCallback? }

  /** Over any run the close is announced to the close callback set, once, if the stream closes, and not otherwise. */
  lemma {:induction false} CloseIsToldOnce(s: Stream, fill: Fill, ops: seq<Op>)
    requires NoCloseCallbacks(ops)
    ensures var s' := Run(s, fill, ops); Those(s'.posted, OfClose) == Those(s.posted, OfClose) + ClosePart(s, s')
    ensures var s' := Run(s, fill, ops); !s'.closed ==> s'.closeCb == s.closeCb
    decreases |ops|
  {
    hide Step, Those;
    assert Those(s.posted, OfClose) + [] == Those(s.posted, OfClose);
    if ops != [] {
      var s1 := Step(s, fill, ops[0]);
      assert ops[0] in ops;
      var w := StepAdds(s, fill, ops[0], OfClose);
      forall o <- ops[1..] ensures !o.OpSetCloseCallback? { assert o in ops; }
      CloseIsToldOnce(s1, fill, ops[1..]);
      RunGrows(s1, fill, ops[1..]);
      StepConnects(s, fill, ops[0]);
      assert Those(s.posted, OfClose) + ClosePart(s, s1) + [] == Those(s.posted, OfClose) + ClosePart(s, s1);
    }
  }

  predicate NoWritesWith(ops: seq<Op>) { forall op <- ops :: !op.OpWriteWith? }

  /**
   A write with a callback, then any operations but such writes: the callback is told at most once that
   all is written; on a stream still open it has been told, or still waits with bytes unsent.
   */
  lemma {:induction false} WriteWaits(s: Stream, fill: Fill, ops: seq<Op>)
    requires NoWritesWith(ops)
    ensures var s' := Run(s, fill, ops);
      && (Those(s'.posted, OfWrite) == Those(s.posted, OfWrite)
          || (!s.closed && s.writeCb.Some?
              && Those(s'.posted, OfWrite) == Those(s.posted, OfWrite) + Notice(WriteDone, s.writeCb)))
      && (!s'.closed ==>
            s'.writeCb == if Those(s'.posted, OfWrite) == Those(s.posted, OfWrite) then s.writeCb else None)
    decreases |ops|
  {
    hide Step, Those;
    if ops != [] {
      var op, s1 := ops[0], Step(s, fill, ops[0]);
      assert op in ops;
      var w := StepAdds(s, fill, op, OfWrite);
      forall o <- ops[1..] ensures !o.OpWriteWith? { assert o in ops; }
      WriteWaits(s1, fill, ops[1..]);
      StepConnects(s, fill, op);
      RunGrows(s1, fill, ops[1..]);
      assert Those(s.posted, OfWrite) + [] == Those(s.posted, OfWrite);
    }
  }

  /**
   So over any run from a write with a callback on: the callback is told at most once; on a stream
   still open it has been told, or waits with bytes unsent and WRITE asked for.
   */
  lemma WriteIsToldOnce(s: Stream, fill: Fill, data: string, output: Output, cb: Script, ops: seq<Op>)
    requires Sound(s) && !s.closed && s.writeCb.None? && data != "" && NoWritesWith(ops)
    requires Runnable(Step(s, fill, OpWriteWith(data, output, Some(cb))), fill, ops)
    ensures var s' := Run(Step(s, fill, OpWriteWith(data, output, Some(cb))), fill, ops);
      var told := Those(s.posted, OfWrite) + [Task(WriteDone, cb)];
      && Those(s'.posted, OfWrite) in [Those(s.posted, OfWrite), told]
      && (!s'.closed ==> Those(s'.posted, OfWrite) == told
                         || (s'.writeCb == Some(cb) && Readable(s'.writeBuf) > 0 && s'.state.write))
  {
    hide Run, Step, Those;
    var op := OpWriteWith(data, output, Some(cb));
    var s1 := Step(s, fill, op);
    var w := StepAdds(s, fill, op, OfWrite);
    StepKeeps(s, fill, op);
    RunKeeps(s1, fill, ops);
    WriteWaits(s1, fill, ops);
    RunGrows(s1, fill, ops);
    StepGrows(s, fill, op);
    assert Those(s.posted, OfWrite) + [] == Those(s.posted, OfWrite);
  }
}
