/** What a connection does to its stream is a run of stream operations, so that what holds of those holds of it. */
module HttpRuns {
  import opened Common
  import opened LoopModel
  import opened Buffers
  import opened StreamModel
  import opened StreamGrows
  import opened StreamTold
  import opened HttpParse
  import opened HttpModel
  import opened HttpLifecycle

  /** By operations that neither connect nor replace the close callback. */
  ghost predicate Leads(s: Stream, fill: Fill, ops: seq<Op>, s': Stream) {
    Run(s, fill, ops) == s' && NoConnects(ops) && NoCloseCallbacks(ops)
  }

  lemma LeadsNowhere(s: Stream, fill: Fill)
    ensures Leads(s, fill, [], s)
  {
  }

  lemma LeadsOne(s: Stream, fill: Fill, op: Op)
    requires !op.OpConnect? && !op.OpSetCloseCallback?
    ensures Leads(s, fill, [op], Step(s, fill, op))
  {
    hide Step;
    assert [op][1..] == [];
    assert Run(Step(s, fill, op), fill, []) == Step(s, fill, op);
  }

  lemma LeadsOn(s: Stream, fill: Fill, a: seq<Op>, s1: Stream, b: seq<Op>, s2: Stream)
    requires Leads(s, fill, a, s1) && Leads(s1, fill, b, s2)
    ensures Leads(s, fill, a + b, s2)
  {
    RunSplits(s, fill, a, b);
  }

  lemma LeadsTwo(s: Stream, fill: Fill, a: Op, b: Op)
    requires !a.OpConnect? && !a.OpSetCloseCallback? && !b.OpConnect? && !b.OpSetCloseCallback?
    ensures Leads(s, fill, [a, b], Step(Step(s, fill, a), fill, b))
  {
    hide Step, Leads;
    LeadsOne(s, fill, a);
    LeadsOne(Step(s, fill, a), fill, b);
    LeadsOn(s, fill, [a], Step(s, fill, a), [b], Step(Step(s, fill, a), fill, b));
    assert [a] + [b] == [a, b];
  }

  lemma HeadersLead(c: Conn, fill: Fill, data: string, input: Input, output: Output) returns (ops: seq<Op>)
    ensures Leads(c.stream, fill, ops, OnHeaders(c, fill, data, input, output).0.stream)
  {
    hide ParseRequest, Close, ReadBytes, WriteBytes, Leads;
    var s := c.stream;
    var (r, ret) := ParseRequest(c.request, data);
    var n := ContentLength(r);
    if ret != 0 || n > MAX_BODY {
      ops := [OpClose];
      LeadsOne(s, fill, OpClose);
    } else if n <= 0 {
      ops := [];
      LeadsNowhere(s, fill);
    } else if Expects(r) {
      ops := [OpWrite(CONTINUE, output), OpReadBytes(n, Some(ON_BODY), input)];
      LeadsTwo(s, fill, ops[0], ops[1]);
    } else {
      ops := [OpReadBytes(n, Some(ON_BODY), input)];
      LeadsOne(s, fill, ops[0]);
    }
  }

  lemma BodyLeads(c: Conn, fill: Fill, data: string) returns (ops: seq<Op>)
    ensures Leads(c.stream, fill, ops, OnRequestBody(c, data).0.stream)
  {
    hide ParsePairs, Close, Leads;
    ops := if OnRequestBody(c, data).1 then [] else [OpClose];
    LeadsNowhere(c.stream, fill);
    LeadsOne(c.stream, fill, OpClose);
  }

  lemma NextLeads(h: Http, fill: Fill) returns (ops: seq<Op>)
    ensures Leads(h.conn.stream, fill, ops, RunNext(h).conn.stream)
  {
    hide Close, Leads;
    LeadsNowhere(h.conn.stream, fill);
    LeadsOne(h.conn.stream, fill, OpClose);
    ops := if RunNext(h).conn.stream == h.conn.stream then [] else [OpClose];
  }

  lemma FinishLeads(h: Http, fill: Fill, reason: string, date: string, output: Output) returns (ops: seq<Op>)
    ensures Leads(h.conn.stream, fill, ops, HandlerFinish(h, reason, date, output).conn.stream)
  {
    hide Close, Leads, Head, JustWrite, WriteBytesWith;
    var s := h.conn.stream;
    LeadsNowhere(s, fill);
    ops := [];
    if !h.finished {
      var a, b := OpJustWrite(Head(h.status, reason, date, |h.buff|)), OpWriteWith(h.buff, output, Some(ON_WRITE_COMPLETE));
      LeadsTwo(s, fill, a, b);
      var s2 := Step(Step(s, fill, a), fill, b);
      LeadsOne(s2, fill, OpClose);
      ops := [a, b];
      if !Writing(s2) {
        LeadsOn(s, fill, [a, b], s2, [OpClose], Close(s2));
        ops := [a, b] + [OpClose];
      }
    }
  }

  lemma EventsLead(s: Stream, fill: Fill, events: Mask, input: Input, output: Output) returns (ops: seq<Op>)
    ensures Leads(s, fill, ops, OnEvents(s, fill, events, input, output))
  {
    hide HandleEvents, Leads;
    var op := OpEvents(events, None, input, output);
    LeadsNowhere(s, fill);
    LeadsOne(s, fill, op);
    ops := if s.slot.None? then [] else [op];
  }

  /** Every move of a connection is some operations of its stream. */
  lemma MoveLeads(v: Server, fill: Fill, m: Move) returns (ops: seq<Op>)
    ensures Leads(v.http.conn.stream, fill, ops, Advance(v, fill, m).http.conn.stream)
  {
    hide OnHeaders, OnRequestBody, RunNext, OnEvents, HandlerFinish, ErrorPage, Leads;
    var h, s, posted := v.http, v.http.conn.stream, v.http.conn.stream.posted;
    LeadsNowhere(s, fill);
    ops := [];
    match m
    case StreamEvents(events, input, output) => ops := EventsLead(s, fill, events, input, output);
    case LoopRuns(input, output) =>
      if h.ran < |posted| && posted[h.ran].kind.ReadDone? && v.phase != Dispatched {
        if v.phase == AwaitingHead { ops := HeadersLead(h.conn, fill, posted[h.ran].kind.data, input, output); }
        else { ops := BodyLeads(h.conn, fill, posted[h.ran].kind.data); }
      } else {
        ops := NextLeads(h, fill);
      }
    case HandlerCalls(call) =>
      if v.phase == Dispatched && call.CallFinish? {
        ops := FinishLeads(h, fill, call.reason, call.date, call.output);
      } else if v.phase == Dispatched && call.CallError? {
        var page := ErrorPage(call.status, call.reason);
        ops := FinishLeads(HandlerWrite(h.(status := call.status), page), fill, call.reason, call.date, call.output);
      }
  }

  /** So is every run. */
  lemma {:induction false} MovesLead(v: Server, fill: Fill, moves: seq<Move>) returns (ops: seq<Op>)
    ensures Leads(v.http.conn.stream, fill, ops, AdvanceAll(v, fill, moves).http.conn.stream)
    decreases |moves|
  {
    hide Advance, Leads;
    var s := v.http.conn.stream;
    if moves == [] {
      ops := [];
      LeadsNowhere(s, fill);
    } else {
      var v1 := Advance(v, fill, moves[0]);
      var a := MoveLeads(v, fill, moves[0]);
      var b := MovesLead(v1, fill, moves[1..]);
      ops := a + b;
      LeadsOn(s, fill, a, v1.http.conn.stream, b, AdvanceAll(v1, fill, moves[1..]).http.conn.stream);
    }
  }

  /**
   The close of a connection is announced to the callback startRun installed, once, if its stream has
   closed, and to nobody otherwise: over every run from the accept.
   */
  lemma CloseReachesItsMember(s: Stream, fill: Fill, input: Input, moves: seq<Move>)
    requires Fresh(s)
    ensures var t := AdvanceAll(Accepted(s, fill, input), fill, moves).http.conn.stream;
      Those(t.posted, OfClose) == if t.closed then [Task(CloseDone, ON_CLOSE)] else []
  {
    var v := Accepted(s, fill, input);
    var s0, first := s.(closeCb := Some(ON_CLOSE)), OpReadUntil("\r\n\r\n", Some(ON_HEADERS), input);
    assert v.http.conn.stream == Step(s0, fill, first) by { hide ReadUntil; }
    hide Advance, Accepted, Step, Run;
    var ops := MovesLead(v, fill, moves);
    LeadsOne(s0, fill, first);
    LeadsOn(s0, fill, [first], Step(s0, fill, first), ops, AdvanceAll(v, fill, moves).http.conn.stream);
    CloseIsToldOnce(s0, fill, [first] + ops);
  }
}
