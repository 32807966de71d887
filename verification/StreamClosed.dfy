/**
 Calls on a closed stream. The code asks in its assertions only that no read is pending, so a
 read call may find the stream closed; here is exactly what such a call breaks.
 */
module StreamClosed {
  import opened Common
  import opened LoopModel
  import opened Buffers
  import opened StreamModel
  import opened StreamProofs

  /** The close callback has been posted. */
  ghost predicate CloseTold(s: Stream) {
    exists i :: 0 <= i < |s.posted| && s.posted[i].kind.CloseDone?
  }

  /** The socket answers a pass in full: it ends by blocking and leaves a chunk of room. */
  predicate TakesAll(b: Window, input: Input) {
    Blocks(input) && Readable(b) + |Incoming(input)| + READ_CHUNK <= |b.bytes|
  }

  /** The read is answered at once: from the buffer, or after a full pass. */
  predicate Answers(s: Stream, fill: Fill, op: Op)
    requires Reads(op)
  {
    match op
    case OpReadBytes(n, _, input) =>
      n <= Readable(s.readBuf) || (TakesAll(s.readBuf, input) && n <= Readable(s.readBuf) + |Incoming(input)|)
    case OpReadUntil(d, _, input) =>
      Find(Contents(s.readBuf), d) >= 0
      || (TakesAll(s.readBuf, input) && Find(Contents(ReadPass(fill, s.readBuf, input).buf), d) >= 0)
    case OpReadUntilClose(_, input) =>
      TakesAll(s.readBuf, input) && Readable(s.readBuf) + |Incoming(input)| > 0
  }

  /** What a read on a closed stream may do: post one notice, and leave its request behind. */
  ghost predicate ClosedReadDoes(s: Stream, s': Stream, answered: bool, untilClose: bool, cb: Option<Script>) {
    && s'.closed && s'.state == s.state && s'.slot == s.slot && |s'.readBuf.bytes| == |s.readBuf.bytes|
    && s'.connectCb == s.connectCb && s'.writeCb == s.writeCb && s'.closeCb == s.closeCb
    && s'.readUntilClose == untilClose
    && s'.readCb == (if answered && !untilClose then None else cb)
    && s.posted <= s'.posted
    && |s'.posted| == |s.posted| + (if answered && cb.Some? then 1 else 0)
    && (answered && cb.Some? ==> s'.posted[|s.posted|].kind.ReadDone?)
  }

  /** The tail of a read call on a closed stream, with its request stored. */
  lemma ClosedStartRead(s: Stream, fill: Fill, input: Input, failure: int)
    requires s.closed
    ensures var s' := StartRead(s, fill, input, failure).0; var p := ReadPass(fill, s.readBuf, input);
      s' == if p.ok then Extract(Receive(s, p)) else Receive(s, p)
    ensures ReadPass(fill, s.readBuf, input).ok <==> TakesAll(s.readBuf, input)
  {
    ReadPassTakesAll(fill, s.readBuf, input);
  }

  lemma ClosedReadBytes(s: Stream, fill: Fill, n: int, cb: Option<Script>, input: Input)
    requires s.closed && Idle(s) && n > 0
    ensures ClosedReadDoes(s, ReadBytes(s, fill, n, cb, input).0, Answers(s, fill, OpReadBytes(n, cb, input)), false, cb)
  {
    if n > Readable(s.readBuf) {
      var asked := Requested(s, Count(n), cb).(readBytes := n, readCb := cb);
      ClosedStartRead(asked, fill, input, -2);
      ReadPassTakesAll(fill, s.readBuf, input);
    }
  }

  lemma ClosedReadUntil(s: Stream, fill: Fill, d: string, cb: Option<Script>, input: Input)
    requires s.closed && Idle(s) && d != ""
    ensures ClosedReadDoes(s, ReadUntil(s, fill, d, cb, input).0, Answers(s, fill, OpReadUntil(d, cb, input)), false, cb)
  {
    if Find(Contents(s.readBuf), d) < 0 {
      var asked := Requested(s, Until(d), cb).(readDelimiter := d, readCb := cb);
      ClosedStartRead(asked, fill, input, -2);
    }
  }

  lemma ClosedReadUntilClose(s: Stream, fill: Fill, cb: Option<Script>, input: Input)
    requires s.closed && Idle(s)
    ensures ClosedReadDoes(s, ReadUntilClose(s, fill, cb, input).0, Answers(s, fill, OpReadUntilClose(cb, input)), true, cb)
  {
    var asked := Requested(s, ToClose, cb).(readUntilClose := true, readCb := cb);
    ClosedStartRead(asked, fill, input, -1);
    ReadPassTakesAll(fill, s.readBuf, input);
  }

  lemma ClosedRead(s: Stream, fill: Fill, op: Op)
    requires s.closed && Permitted(s, op) && Reads(op)
    ensures ClosedReadDoes(s, Step(s, fill, op), Answers(s, fill, op), op.OpReadUntilClose?, op.cb)
  {
    match op
    case OpReadBytes(n, cb, input) => ClosedReadBytes(s, fill, n, cb, input);
    case OpReadUntil(d, cb, input) => ClosedReadUntil(s, fill, d, cb, input);
    case OpReadUntilClose(cb, input) => ClosedReadUntilClose(s, fill, cb, input);
  }

  // ------------------------------------------------------------------ the exact conditions

  /**
   A read call on a closed stream: it retains no callback exactly when it is no read-until-close
   and has none, or is answered at once; and the close notice stays last exactly when it posts
   nothing, or there was no close notice.
   */
  lemma ClosedReadIff(s: Stream, fill: Fill, op: Op)
    requires Sound(s) && s.closed && Permitted(s, op) && Reads(op)
    ensures Disciplined(Step(s, fill, op)) <==>
      !op.OpReadUntilClose? && (op.cb.None? || Answers(s, fill, op))
    ensures CloseIsLast(Step(s, fill, op)) <==>
      op.cb.None? || !Answers(s, fill, op) || !CloseTold(s)
  {
    ClosedRead(s, fill, op);
    var s' := Step(s, fill, op);
    if CloseTold(s) {
      var i :| 0 <= i < |s.posted| && s.posted[i].kind.CloseDone?;
      assert s'.posted[i] == s.posted[i];
    } else {
      assert forall i :: 0 <= i < |s.posted| ==> s'.posted[i] == s.posted[i];
    }
    assert op.cb.None? || !Answers(s, fill, op) ==> s'.posted == s.posted;
  }

  /** A closed descriptor offers no bytes: then only what is buffered can answer. */
  lemma NothingOffered(s: Stream, fill: Fill, op: Op)
    requires (op.OpReadBytes? && op.n > 0 && Incoming(op.input) == "")
          || (op.OpReadUntil? && op.delimiter != "" && !op.input.Bytes?)
    ensures Answers(s, fill, op) <==>
      if op.OpReadBytes? then op.n <= Readable(s.readBuf) else Find(Contents(s.readBuf), op.delimiter) >= 0
  {
    EnsuringKeepsContents(s.readBuf, READ_CHUNK);
  }

  /** The calls a closed stream stands: a condition on the call, its callback and what is buffered. */
  ghost predicate Harmless(s: Stream, fill: Fill, op: Op) {
    s.closed ==>
      && (op.OpConnect? ==> !op.ok || op.cb.None?)
      && (op.OpSetCloseCallback? ==> op.cb.None?)
      && (Reads(op) ==> !op.OpReadUntilClose? && (op.cb.None? || (Answers(s, fill, op) && !CloseTold(s))))
  }

  /** Every call the assertions permit keeps the stream sound, exactly when it is harmless. */
  lemma StepSoundIff(s: Stream, fill: Fill, op: Op)
    requires Sound(s) && Permitted(s, op)
    ensures Sound(Step(s, fill, op)) <==> Harmless(s, fill, op)
  {
    if Allowed(s, op) {
      StepKeeps(s, fill, op);
    } else if Reads(op) {
      ClosedRead(s, fill, op);
      ClosedReadIff(s, fill, op);
    }
  }

  ghost predicate AllHarmless(s: Stream, fill: Fill, ops: seq<Op>)
    decreases |ops|
  {
    ops == [] || (Harmless(s, fill, ops[0]) && AllHarmless(Step(s, fill, ops[0]), fill, ops[1..]))
  }

  /** Connects and close callbacks find the stream open; reads need not. */
  ghost predicate Steady(s: Stream, fill: Fill, ops: seq<Op>)
    decreases |ops|
  {
    ops == [] || ((s.closed ==> !ops[0].OpConnect? && !ops[0].OpSetCloseCallback?)
                  && Steady(Step(s, fill, ops[0]), fill, ops[1..]))
  }

  /** What a harmful read leaves. */
  ghost predicate Broken(s: Stream) {
    s.closed && (s.readCb.Some? || s.readUntilClose || !CloseIsLast(s))
  }

  lemma BrokenStays(s: Stream, fill: Fill, op: Op)
    requires Broken(s) && Permitted(s, op) && !op.OpConnect? && !op.OpSetCloseCallback?
    ensures Broken(Step(s, fill, op))
  {
    if Reads(op) {
      ClosedRead(s, fill, op);
      var i :| 0 <= i < |s.posted| - 1 && s.posted[i].kind.CloseDone?;
      assert Step(s, fill, op).posted[i].kind.CloseDone?;
    }
  }

  lemma {:induction false} BrokenForGood(s: Stream, fill: Fill, ops: seq<Op>)
    requires Broken(s) && Permits(s, fill, ops) && Steady(s, fill, ops)
    ensures Broken(Run(s, fill, ops))
    decreases |ops|
  {
    if ops != [] {
      BrokenStays(s, fill, ops[0]);
      BrokenForGood(Step(s, fill, ops[0]), fill, ops[1..]);
    }
  }

  lemma {:induction false} RunSoundIff(s: Stream, fill: Fill, ops: seq<Op>)
    requires Sound(s) && Permits(s, fill, ops)
    ensures AllHarmless(s, fill, ops) ==> Sound(Run(s, fill, ops))
    ensures Steady(s, fill, ops) && Sound(Run(s, fill, ops)) ==> AllHarmless(s, fill, ops)
    decreases |ops|
  {
    if ops != [] {
      var s' := Step(s, fill, ops[0]);
      StepSoundIff(s, fill, ops[0]);
      if Harmless(s, fill, ops[0]) {
        RunSoundIff(s', fill, ops[1..]);
      } else if Steady(s, fill, ops) {
        ClosedRead(s, fill, ops[0]);
        BrokenForGood(s', fill, ops[1..]);
      }
    }
  }

  /**
   Over every run the assertions permit, reads of closed streams included: no lost wake-up, the
   callback discipline, the close notice last and the bound on reads hold at the end if and only
   if every call that found the stream closed was harmless.
   */
  lemma ReachableIsSoundIff(s: Stream, fill: Fill, ops: seq<Op>)
    requires Fresh(s) && Permits(s, fill, ops) && Steady(s, fill, ops)
    ensures Sound(Run(s, fill, ops)) <==> AllHarmless(s, fill, ops)
  {
    RunSoundIff(s, fill, ops);
  }
}
