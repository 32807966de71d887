/**
 How a finished response comes to its end: whether any schedule can bring it there, exactly, and
 which schedules have to.
 */
module HttpEndings {
  import opened Common
  import opened LoopModel
  import opened Buffers
  import opened StreamModel
  import opened StreamProofs
  import opened StreamGrows
  import opened HttpModel
  import opened HttpProofs
  import opened HttpLifecycle
  import opened HttpArrival

  /** A finished answer with something in it, still on its way. */
  ghost predicate Underway(v: Server) {
    && Orderly(v) && v.phase == Dispatched && !v.http.conn.stream.closed
    && v.http.finished && v.http.answer != ""
  }

  function Unsent(v: Server): nat { Readable(v.http.conn.stream.writeBuf) }

  // ------------------------------------------------------------------- that it can end

  /** A socket that takes at least so many bytes. */
  function Drains(n: nat): Output { if n == 0 then Refuses else Takes(n, Drains(n - 1)) }

  lemma {:induction false} WillingSocketDrains(b: Window, n: nat)
    requires Readable(b) <= n
    ensures var p := WritePass(b, Drains(n)); p.ok && Readable(p.buf) == 0
    decreases n
  {
    if Readable(b) > 0 { WillingSocketDrains(Taken(b, WriteSize(n, b)), n - 1); }
  }

  /** Moves of the socket and the loop alone. */
  predicate Unaided(moves: seq<Move>) { forall m <- moves :: !m.HandlerCalls? }

  /** What can happen to a descriptor whose registration epoll took, or refused: then no events come. */
  predicate Possible(moves: seq<Move>, heard: bool) { heard || forall m <- moves :: !m.StreamEvents? }

  /** Those moves end in the server's close, with all it accepted sent. */
  ghost predicate EndsWell(v: Server, fill: Fill, moves: seq<Move>) {
    var h := AdvanceAll(v, fill, moves).http;
    Unaided(moves) && h.serverClosed && h.conn.stream.closed && h.conn.stream.log.sent == h.goal
  }

  lemma EndsOneLater(v: Server, fill: Fill, m: Move, moves: seq<Move>)
    requires !m.HandlerCalls? && EndsWell(Advance(v, fill, m), fill, moves)
    ensures EndsWell(v, fill, [m] + moves)
  {
    assert ([m] + moves)[1..] == moves;
  }

  /** With onWriteComplete queued, running the queue comes to it. */
  lemma {:induction false} QueueEnds(v: Server, fill: Fill) returns (moves: seq<Move>)
    requires Underway(v) && CompletionQueued(v.http)
    ensures EndsWell(v, fill, moves) && Possible(moves, false)
    decreases |v.http.conn.stream.posted| - v.http.ran
  {
    var m := LoopRuns(WouldBlock, Refuses);
    var v' := Advance(v, fill, m);
    AdvanceKeeps(v, fill, m);
    SkipQueued(v.http.conn.stream.posted, v.http.ran);
    if v'.http.conn.stream.closed {
      moves := [];
    } else {
      moves := QueueEnds(v', fill);
    }
    EndsOneLater(v, fill, m, moves);
    moves := [m] + moves;
  }

  /** A willing socket drains what is unsent, and queues onWriteComplete. */
  lemma SocketEnds(v: Server, fill: Fill)
    requires Underway(v) && !CompletionQueued(v.http) && v.http.conn.stream.reachable
    ensures var v' := Advance(v, fill, StreamEvents(WRITE, WouldBlock, Drains(Unsent(v))));
      Underway(v') && CompletionQueued(v'.http)
  {
    var s, output := v.http.conn.stream, Drains(Unsent(v));
    AdvanceKeeps(v, fill, StreamEvents(WRITE, WouldBlock, output));
    WillingSocketDrains(s.writeBuf, Readable(s.writeBuf));
    var s' := HandleEvents(s, fill, WRITE, None, WouldBlock, output);
    assert s'.posted[|s.posted|].kind.WriteDone?;
  }

  lemma ResponseCanEnd(v: Server, fill: Fill, heard: bool) returns (moves: seq<Move>)
    requires Underway(v) && ((v.http.conn.stream.reachable && heard) || CompletionQueued(v.http))
    ensures EndsWell(v, fill, moves) && Possible(moves, heard)
  {
    if CompletionQueued(v.http) {
      moves := QueueEnds(v, fill);
    } else {
      var m := StreamEvents(WRITE, WouldBlock, Drains(Unsent(v)));
      SocketEnds(v, fill);
      moves := QueueEnds(Advance(v, fill, m), fill);
      EndsOneLater(v, fill, m, moves);
      moves := [m] + moves;
    }
  }

  // --------------------------------------------------------------- that it cannot end

  /** Bytes unsent, and the loop never calls: no handler registered, or no events for it. */
  ghost predicate Forgotten(v: Server, heard: bool) {
    Underway(v) && !(v.http.conn.stream.reachable && heard) && !CompletionQueued(v.http)
  }

  lemma ForgottenActs(h: Http, fill: Fill, a: Action)
    requires Sane(h) && h.finished && !h.conn.stream.closed && !CompletionQueued(h)
    requires a.LoopEvents? ==> !h.conn.stream.reachable
    ensures var h' := Act(h, fill, a);
      h'.conn.stream == h.conn.stream && h'.ran >= h.ran && h'.finished && h'.answer == h.answer
    ensures !CompletionQueued(Act(h, fill, a)) && Act(h, fill, a).serverClosed == h.serverClosed
  {
    if a.LoopRunsNext? && h.ran < |h.conn.stream.posted| { SkipQueued(h.conn.stream.posted, h.ran); }
  }

  lemma ForgottenStays(v: Server, fill: Fill, m: Move, heard: bool)
    requires Forgotten(v, heard) && (heard || !m.StreamEvents?)
    ensures var v' := Advance(v, fill, m); Forgotten(v', heard) && v'.http.conn.stream == v.http.conn.stream
  {
    hide Act;
    AdvanceKeeps(v, fill, m);
    match m
    case StreamEvents(events, input, output) => ForgottenActs(v.http, fill, LoopEvents(events, input, output));
    case LoopRuns(_, _) => ForgottenActs(v.http, fill, LoopRunsNext); ActRunsNext(v.http, fill);
    case HandlerCalls(call) => if OfHandler(call) { ForgottenActs(v.http, fill, call); }
  }

  /** Nothing that can happen changes its stream again: it stays open, with its bytes unsent. */
  lemma {:induction false} ForgottenForGood(v: Server, fill: Fill, moves: seq<Move>, heard: bool)
    requires Forgotten(v, heard) && Possible(moves, heard)
    ensures var v' := AdvanceAll(v, fill, moves); Forgotten(v', heard) && v'.http.conn.stream == v.http.conn.stream
    decreases |moves|
  {
    hide Forgotten, Advance;
    if moves != [] {
      assert moves[0] in moves;
      forall m <- moves[1..] ensures m in moves { }
      ForgottenStays(v, fill, moves[0], heard);
      ForgottenForGood(Advance(v, fill, moves[0]), fill, moves[1..], heard);
    }
  }

  /** Some moves that can happen end it well. */
  ghost predicate CanEndWell(v: Server, fill: Fill, heard: bool) {
    exists moves :: Possible(moves, heard) && EndsWell(v, fill, moves)
  }

  /** The exact condition for a finished answer that is not empty, on a stream still open. */
  lemma ResponseEndsIff(v: Server, fill: Fill, heard: bool)
    requires Underway(v)
    ensures CanEndWell(v, fill, heard) <==> (v.http.conn.stream.reachable && heard) || CompletionQueued(v.http)
  {
    if (v.http.conn.stream.reachable && heard) || CompletionQueued(v.http) {
      var moves := ResponseCanEnd(v, fill, heard);
    } else {
      forall moves | Possible(moves, heard) ensures !EndsWell(v, fill, moves) { ForgottenForGood(v, fill, moves, heard); }
    }
  }

  lemma {:induction false} AllAdvancesGrow(v: Server, fill: Fill, moves: seq<Move>)
    ensures Grows(v.http.conn.stream, AdvanceAll(v, fill, moves).http.conn.stream)
    decreases |moves|
  {
    hide Advance, Grows;
    if moves == [] {
      GrowsSelf(v.http.conn.stream);
    } else {
      var v1 := Advance(v, fill, moves[0]);
      AdvanceReceives(v, fill, moves[0]);
      AllAdvancesGrow(v1, fill, moves[1..]);
      GrowsOn(v.http.conn.stream, v1.http.conn.stream, AdvanceAll(v, fill, moves).http.conn.stream);
    }
  }

  lemma AcceptedReaches(s: Stream, fill: Fill, input: Input)
    ensures Accepted(s, fill, input).http.conn.stream.reachable == s.reachable
  {
    hide ReadUntil;
    StepGrows(s.(closeCb := Some(ON_CLOSE)), fill, OpReadUntil("\r\n\r\n", Some(ON_HEADERS), input));
  }

  /**
   Wherever a run of a connection has come to: a finished response with something in it, on a
   stream still open, can be brought to the server's close with every byte sent, by some moves of
   the socket and the loop alone, if and only if its descriptor is in the handler table and epoll
   has taken its registration, or onWriteComplete is queued already.
   */
  lemma ResponsesEndIff(s: Stream, fill: Fill, input: Input, moves: seq<Move>, heard: bool)
    requires Fresh(s)
    ensures var v := AdvanceAll(Accepted(s, fill, input), fill, moves);
      v.http.finished && v.http.answer != "" && !v.http.conn.stream.closed ==>
        (CanEndWell(v, fill, heard) <==> (s.reachable && heard) || CompletionQueued(v.http))
  {
    AcceptedIsOrderly(s, fill, input);
    AllAdvancesKeep(Accepted(s, fill, input), fill, moves);
    AcceptedReaches(s, fill, input);
    AllAdvancesGrow(Accepted(s, fill, input), fill, moves);
    var v := AdvanceAll(Accepted(s, fill, input), fill, moves);
    if v.http.finished && v.http.answer != "" && !v.http.conn.stream.closed { ResponseEndsIff(v, fill, heard); }
  }

  // ------------------------------------------------------------------- that it has to

  /** A write event on a socket that takes something. */
  predicate TakesSome(m: Move) { m.StreamEvents? && m.events.write && m.output.Takes? && m.output.n > 0 }

  function Writes(moves: seq<Move>): nat {
    if moves == [] then 0 else (if TakesSome(moves[0]) then 1 else 0) + Writes(moves[1..])
  }

  function Runs(moves: seq<Move>): nat {
    if moves == [] then 0 else (if moves[0].LoopRuns? then 1 else 0) + Runs(moves[1..])
  }

  lemma WriteShrinks(s: Stream, output: Output)
    requires Readable(s.writeBuf) > 0 && output.Takes? && output.n > 0
    ensures Readable(HandleWrite(s, output).0.writeBuf) < Readable(s.writeBuf)
  {
    var k := WriteSize(output.n, s.writeBuf);
    WritePassIsFifo(Taken(s.writeBuf, k), output.next);
  }

  lemma EventsShrink(s: Stream, fill: Fill, events: Mask, input: Input, output: Output)
    requires !s.closed && !s.connecting && events.write && output.Takes? && output.n > 0 && Readable(s.writeBuf) > 0
    ensures var s' := HandleEvents(s, fill, events, None, input, output);
      s'.closed || Readable(s'.writeBuf) < Readable(s.writeBuf)
  {
    hide HandleRead, HandleWrite;
    var s1 := if events.read then HandleRead(s, fill, input).0 else s;
    ReadLeavesUnsent(s, fill, input);
    WriteShrinks(s1, output);
  }

  lemma ReadLeavesUnsent(s: Stream, fill: Fill, input: Input)
    ensures HandleRead(s, fill, input).0.writeBuf == s.writeBuf
  {
    hide ReadPass, Find;
  }

  /** On its way to the end: closed by now, or still underway with no more unsent. */
  ghost predicate Further(v: Server, v': Server) {
    || v'.http.conn.stream.closed
    || (Underway(v') && v'.http.conn.stream.reachable && Unsent(v') <= Unsent(v))
  }

  lemma EventsFurther(v: Server, fill: Fill, events: Mask, input: Input, output: Output)
    requires Underway(v) && v.http.conn.stream.reachable
    ensures var m := StreamEvents(events, input, output); var v' := Advance(v, fill, m);
      Further(v, v') && (TakesSome(m) && 0 < Unsent(v) ==> v'.http.conn.stream.closed || Unsent(v') < Unsent(v))
  {
    var s, m := v.http.conn.stream, StreamEvents(events, input, output);
    AdvanceKeeps(v, fill, m);
    AdvanceReceives(v, fill, m);
    EventsMove(s, fill, events, input, output);
    if TakesSome(m) && 0 < Unsent(v) { EventsShrink(s, fill, events, input, output); }
  }

  lemma OthersFurther(v: Server, fill: Fill, m: Move)
    requires Underway(v) && v.http.conn.stream.reachable && !m.StreamEvents?
    ensures Further(v, Advance(v, fill, m))
  {
    hide Act;
    AdvanceKeeps(v, fill, m);
    if m.LoopRuns? { ActRunsNext(v.http, fill); }
    ActFurther(v.http, fill, if m.LoopRuns? then LoopRunsNext else m.call);
  }

  lemma ActFurther(h: Http, fill: Fill, a: Action)
    requires Sane(h) && Answered(h) && !h.conn.stream.closed
    ensures var h' := Act(h, fill, a);
      && h'.finished && h'.answer == h.answer && Grows(h.conn.stream, h'.conn.stream)
      && Readable(h'.conn.stream.writeBuf) <= Readable(h.conn.stream.writeBuf)
  {
    FinishedStays(h, fill, a);
    ActReceives(h, fill, a);
    match a
    case LoopEvents(events, input, output) => EventsMove(h.conn.stream, fill, events, input, output);
    case _ =>
  }

  lemma MoveFurther(v: Server, fill: Fill, m: Move)
    requires Underway(v) && v.http.conn.stream.reachable
    ensures var v' := Advance(v, fill, m);
      Further(v, v') && (TakesSome(m) && 0 < Unsent(v) ==> v'.http.conn.stream.closed || Unsent(v') < Unsent(v))
  {
    match m
    case StreamEvents(events, input, output) => EventsFurther(v, fill, events, input, output);
    case _ => OthersFurther(v, fill, m);
  }

  lemma ClosedForGood(v: Server, fill: Fill, moves: seq<Move>)
    requires v.http.conn.stream.closed
    ensures AdvanceAll(v, fill, moves).http.conn.stream.closed
  {
    AllAdvancesGrow(v, fill, moves);
  }

  /** Enough write events, whatever else happens between them, leave nothing unsent. */
  lemma {:induction false} WritesDrain(v: Server, fill: Fill, moves: seq<Move>)
    requires Underway(v) && v.http.conn.stream.reachable
    ensures var v' := AdvanceAll(v, fill, moves);
      Further(v, v') && (Unsent(v) <= Writes(moves) ==> v'.http.conn.stream.closed || Unsent(v') == 0)
    decreases |moves|
  {
    hide Underway, Advance;
    if moves != [] {
      var v1 := Advance(v, fill, moves[0]);
      MoveFurther(v, fill, moves[0]);
      if v1.http.conn.stream.closed { ClosedForGood(v1, fill, moves[1..]); } else { WritesDrain(v1, fill, moves[1..]); }
    }
  }

  /** Enough turns of the loop, whatever else happens between them, come to the completion at p. */
  lemma {:induction false} RunsComplete(v: Server, fill: Fill, moves: seq<Move>, p: nat)
    requires Underway(v) && v.http.conn.stream.reachable && v.http.ran <= p < |v.http.conn.stream.posted|
    requires v.http.conn.stream.posted[p].kind.WriteDone? && p - v.http.ran < Runs(moves)
    ensures AdvanceAll(v, fill, moves).http.conn.stream.closed
    decreases |moves|
  {
    hide Underway, Advance;
    var v1 := Advance(v, fill, moves[0]);
    MoveFurther(v, fill, moves[0]);
    CompletionNears(v, fill, moves[0], p);
    if v1.http.conn.stream.closed { ClosedForGood(v1, fill, moves[1..]); } else { RunsComplete(v1, fill, moves[1..], p); }
  }

  lemma CompletionNears(v: Server, fill: Fill, m: Move, p: nat)
    requires Underway(v) && v.http.ran <= p < |v.http.conn.stream.posted| && v.http.conn.stream.posted[p].kind.WriteDone?
    ensures var v' := Advance(v, fill, m); var posted := v'.http.conn.stream.posted;
      && p < |posted| && posted[p].kind.WriteDone?
      && (v'.http.conn.stream.closed || v.http.ran + (if m.LoopRuns? then 1 else 0) <= v'.http.ran <= p)
  {
    AdvanceReceives(v, fill, m);
    assert CompletionQueued(v.http);
    if m.HandlerCalls? { FinishedRan(v.http, fill, m.call, p); }
  }

  lemma FinishedRan(h: Http, fill: Fill, a: Action, p: nat)
    requires Sane(h) && Answered(h) && h.ran <= p < |h.conn.stream.posted| && h.conn.stream.posted[p].kind.WriteDone?
    ensures h.ran <= Act(h, fill, a).ran && (Act(h, fill, a).conn.stream.closed || Act(h, fill, a).ran <= p)
  {
    hide HandleEvents;
    assert CompletionQueued(h);
  }

  /** No event pass closes a stream that is open: neither the peer nor the socket ends it first. */
  ghost predicate Undisturbed(v: Server, fill: Fill, moves: seq<Move>)
    decreases |moves|
  {
    moves == [] ||
    (var v1 := Advance(v, fill, moves[0]);
     (moves[0].StreamEvents? && v1.http.conn.stream.closed ==> v.http.conn.stream.closed)
     && Undisturbed(v1, fill, moves[1..]))
  }

  /** Dispatched and finished, and closed only if the server did it. */
  ghost predicate ServersToClose(v: Server) {
    && Orderly(v) && v.phase == Dispatched && v.http.finished
    && (v.http.conn.stream.closed ==> v.http.serverClosed)
  }

  lemma ServersStill(v: Server, fill: Fill, m: Move)
    requires ServersToClose(v)
    requires m.StreamEvents? && Advance(v, fill, m).http.conn.stream.closed ==> v.http.conn.stream.closed
    ensures ServersToClose(Advance(v, fill, m))
  {
    hide HandleEvents, Head, ErrorPage, Sane;
    AdvanceKeeps(v, fill, m);
    AdvanceReceives(v, fill, m);
  }

  lemma {:induction false} ServersForGood(v: Server, fill: Fill, moves: seq<Move>)
    requires ServersToClose(v) && Undisturbed(v, fill, moves)
    ensures ServersToClose(AdvanceAll(v, fill, moves))
    decreases |moves|
  {
    hide ServersToClose, Advance;
    if moves != [] {
      ServersStill(v, fill, moves[0]);
      ServersForGood(Advance(v, fill, moves[0]), fill, moves[1..]);
    }
  }

  lemma {:induction false} AllAdvancesSplit(v: Server, fill: Fill, a: seq<Move>, b: seq<Move>)
    ensures AdvanceAll(v, fill, a + b) == AdvanceAll(AdvanceAll(v, fill, a), fill, b)
    decreases |a|
  {
    hide Advance;
    if a == [] {
      assert a + b == b;
    } else {
      assert (a + b)[1..] == a[1..] + b;
      AllAdvancesSplit(Advance(v, fill, a[0]), fill, a[1..], b);
    }
  }

  /** With nothing unsent the completion is queued, within the notices still to be run. */
  lemma DrainedIsQueued(v: Server) returns (p: nat)
    requires Underway(v) && Unsent(v) == 0
    ensures v.http.ran <= p < |v.http.conn.stream.posted| && v.http.conn.stream.posted[p].kind.WriteDone?
  {
    p :| v.http.ran <= p < |v.http.conn.stream.posted| && v.http.conn.stream.posted[p].kind.WriteDone?;
  }

  /**
   Every schedule that is fair ends a finished response with something in it, on a registered
   stream: as many write events taking at least a byte as there are bytes unsent, and then as many
   turns of the loop as there are notices to be run, with anything else at all in between. The
   connection is then closed and, unless an event pass closed it first, the server closed it with
   every byte sent.
   */
  lemma FairSchedulesEnd(v: Server, fill: Fill, a: seq<Move>, b: seq<Move>)
    requires Underway(v) && v.http.conn.stream.reachable && Unsent(v) <= Writes(a)
    requires var w := AdvanceAll(v, fill, a); |w.http.conn.stream.posted| - w.http.ran <= Runs(b)
    ensures var h := AdvanceAll(v, fill, a + b).http;
      && h.conn.stream.closed
      && (Undisturbed(v, fill, a + b) ==> h.serverClosed && h.conn.stream.log.sent == h.goal)
  {
    hide Advance;
    var w := AdvanceAll(v, fill, a);
    AllAdvancesSplit(v, fill, a, b);
    WritesDrain(v, fill, a);
    if w.http.conn.stream.closed {
      ClosedForGood(w, fill, b);
    } else {
      var p := DrainedIsQueued(w);
      RunsComplete(w, fill, b, p);
    }
    if Undisturbed(v, fill, a + b) { ServersForGood(v, fill, a + b); }
  }
}
