/** Which request bodies can arrive: the exact bound. */
module HttpBodies {
  import opened Common
  import opened Buffers
  import opened StreamModel
  import opened StreamProofs
  import opened StreamNotices
  import opened HttpParse
  import opened HttpModel
  import opened HttpProofs
  import opened HttpClosed

  lemma StepStaysClosed(s: Stream, fill: Fill, op: Op)
    requires s.closed && Allowed(s, op)
    ensures Step(s, fill, op).closed
  {
  }

  lemma {:induction false} RunStaysClosed(s: Stream, fill: Fill, ops: seq<Op>)
    requires s.closed && Runnable(s, fill, ops)
    ensures Run(s, fill, ops).closed
    decreases |ops|
  {
    if ops != [] {
      StepStaysClosed(s, fill, ops[0]);
      RunStaysClosed(Step(s, fill, ops[0]), fill, ops[1..]);
    }
  }

  /** The body is consumed on a stream still open, at once or over a run from there. */
  ghost predicate Arrives(c: Conn, fill: Fill, data: string, input: Input, output: Output, ops: seq<Op>) {
    var s1 := OnHeaders(c, fill, data, input, output).0.stream;
    && Runnable(s1, fill, ops) && !Run(s1, fill, ops).closed
    && |Run(s1, fill, ops).log.consumed| > |c.stream.log.consumed|
  }

  ghost predicate Ready(s: Stream) {
    Sound(s) && StreamModel.Idle(s) && !s.closed && s.writeCb.None? && !s.connecting
  }

  lemma RefusedContinueKeeps(s: Stream, r: HttpRequest)
    requires Ready(s) && (Expects(r) ==> |CONTINUE| <= Room(s.writeBuf))
    ensures var s1 := Encourage(s, r, Refuses); Ready(s1) && s1.log.consumed == s.log.consumed
  {
    EncourageDoes(s, r, Refuses);
    EncourageSteady(s, r, Refuses);
    WriteLeavesReads(s, CONTINUE, Refuses);
  }

  lemma BodyCanArrive(c: Conn, fill: Fill, data: string)
    requires Ready(c.stream) && BodyAsked(c, data)
    requires var r := ParseRequest(c.request, data).0;
      ContentLength(r) <= DEFAULT_SIZE - READ_CHUNK && (Expects(r) ==> |CONTINUE| <= Room(c.stream.writeBuf))
    ensures exists input, output, ops :: Arrives(c, fill, data, input, output, ops)
  {
    hide ParseRequest, Encourage, ReadBytes;
    var r := ParseRequest(c.request, data).0;
    var n, s1 := ContentLength(r), Encourage(c.stream, r, Refuses);
    RefusedContinueKeeps(c.stream, r);
    var rest := seq(if Readable(s1.readBuf) < n then n - Readable(s1.readBuf) else 0, _ => 'x');
    var input := Bytes(rest, WouldBlock);
    ReadCompletes(s1, fill, n, Some(ON_BODY), rest);
    BodyAwaited(c, fill, data, input, Refuses);
    assert Arrives(c, fill, data, input, Refuses, []);
  }

  /**
   The exact bound on a request body: it can arrive if and only if it is no longer than the
   capacity less one chunk, and a 100-continue that is expected has room.
   */
  lemma BodyArrivesIff(c: Conn, fill: Fill, data: string)
    requires Ready(c.stream) && BodyAsked(c, data)
    ensures var r := ParseRequest(c.request, data).0;
      (exists input, output, ops :: Arrives(c, fill, data, input, output, ops)) <==>
        ContentLength(r) <= DEFAULT_SIZE - READ_CHUNK && (Expects(r) ==> |CONTINUE| <= Room(c.stream.writeBuf))
  {
    var r := ParseRequest(c.request, data).0;
    if ContentLength(r) > DEFAULT_SIZE - READ_CHUNK {
      forall input, output, ops ensures !Arrives(c, fill, data, input, output, ops) {
        if Runnable(OnHeaders(c, fill, data, input, output).0.stream, fill, ops) {
          LongBodiesNeverArrive(c, fill, data, input, output, ops);
        }
      }
    } else if Expects(r) && Room(c.stream.writeBuf) < |CONTINUE| {
      forall input, output, ops ensures !Arrives(c, fill, data, input, output, ops) {
        AskedIsClosed(c, fill, data, input, output);
        var s1 := OnHeaders(c, fill, data, input, output).0.stream;
        if Runnable(s1, fill, ops) { RunStaysClosed(s1, fill, ops); }
      }
    } else {
      BodyCanArrive(c, fill, data);
    }
  }
}
