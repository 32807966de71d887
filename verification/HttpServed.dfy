/**
 What a dispatched request is answered with: the moment it is dispatched its handler is executed, which
 goes by the verb of the request, and what the client has been sent at the close follows from that.
 */
module HttpServed {
  import opened Common
  import opened Buffers
  import opened StreamModel
  import opened Text
  import opened HttpModel
  import opened HttpLifecycle
  import opened HttpEndings
  import opened HttpAnswers
  import opened HttpResponses

  /** What get() or post() would call, and the reason phrase, date and socket an error is answered with. */
  datatype User = User(calls: seq<Action>, reason: string, date: string, output: Output)

  predicate OnlyCalls(calls: seq<Action>) { forall c <- calls :: OfHandler(c) }

  predicate UserVerb(verb: string) { verb == "GET" || verb == "POST" }

  /** execute() of the handler of a request. */
  function Execution(h: Http, fill: Fill, user: User): Http {
    Executed(h, fill, user.calls, user.reason, user.date, user.output)
  }

  // ----------------------------------------------------------------------- the handler

  function Writes(chunks: seq<string>): seq<Action> {
    seq(|chunks|, i requires 0 <= i < |chunks| => CallWrite(chunks[i]))
  }

  lemma {:induction false} ActsConcat(h: Http, fill: Fill, a: seq<Action>, b: seq<Action>)
    ensures Acts(h, fill, a + b) == Acts(Acts(h, fill, a), fill, b)
    decreases |a|
  {
    hide Act;
    if a == [] {
      assert a + b == b;
    } else {
      assert (a + b)[1..] == a[1..] + b;
      ActsConcat(Act(h, fill, a[0]), fill, a[1..], b);
    }
  }

  /** What is written gathers, in order, whatever the pieces. */
  lemma {:induction false} WritesGather(h: Http, fill: Fill, chunks: seq<string>)
    requires !h.finished
    ensures Acts(h, fill, Writes(chunks)) == h.(buff := h.buff + Flatten(chunks))
    decreases |chunks|
  {
    if chunks == [] {
      assert h.buff + "" == h.buff;
    } else {
      var h1 := Act(h, fill, Writes(chunks)[0]);
      assert h1 == h.(buff := h.buff + chunks[0]);
      assert Writes(chunks)[1..] == Writes(chunks[1..]);
      WritesGather(h1, fill, chunks[1..]);
      ConcatAssoc(h.buff, chunks[0], Flatten(chunks[1..]));
    }
  }

  /** Answered with this status, this reason and date, and this body, on top of what had been accepted. */
  ghost predicate Answers(h: Http, h': Http, status: int, reason: string, date: string, body: string) {
    && h'.finished && h'.status == status && h'.answer == body && h'.buff == ""
    && h'.goal == h.conn.stream.log.accepted + (Head(status, reason, date, |body|) + body)
    && h'.conn.request == h.conn.request
    && (h.conn.stream.closed && !h.serverClosed ==> h'.conn.stream.closed && !h'.serverClosed)
  }

  lemma FinishGives(h: Http, reason: string, date: string, output: Output)
    requires !h.finished
    ensures Answers(h, HandlerFinish(h, reason, date, output), h.status, reason, date, h.buff)
  {
    hide Head, JustWrite, StreamModel.WriteBytes;
    var head := Head(h.status, reason, date, |h.buff|);
    ConcatAssoc(h.conn.stream.log.accepted, head, h.buff);
    if h.conn.stream.closed { FlushStaysClosed(h.conn.stream, head, h.buff, output); }
  }

  lemma ErrorGives(h: Http, status: int, reason: string, date: string, output: Output)
    requires !h.finished
    ensures Answers(h, SendError(h, status, reason, date, output), status, reason, date, h.buff + ErrorPage(status, reason))
  {
    hide HandlerFinish, ErrorPage;
    FinishGives(HandlerWrite(h.(status := status), ErrorPage(status, reason)), reason, date, output);
  }

  /**
   What execute() does, by the verb. A GET or a POST goes to the user's code, to which nothing is added:
   no calls change nothing, and writes then a finish are answered with what was written, in order, under
   the status in force. Any other verb is answered 405 with its page, whatever the user's code would do.
   */
  lemma ExecuteGoesByVerb(h: Http, fill: Fill, user: User, chunks: seq<string>, last: Action)
    requires !h.finished && last.CallFinish?
    ensures var h' := Execution(h, fill, user);
      if UserVerb(h.conn.request.verb) then
        && (user.calls == [] ==> h' == h)
        && (user.calls == Writes(chunks) + [last] ==>
              Answers(h, h', h.status, last.reason, last.date, h.buff + Flatten(chunks)))
      else
        Answers(h, h', 405, user.reason, user.date, h.buff + ErrorPage(405, user.reason))
  {
    hide HandlerFinish, SendError, ErrorPage, Head;
    if !UserVerb(h.conn.request.verb) {
      ErrorGives(h, 405, user.reason, user.date, user.output);
    } else if user.calls == Writes(chunks) + [last] {
      var h1 := h.(buff := h.buff + Flatten(chunks));
      ActsConcat(h, fill, Writes(chunks), [last]);
      WritesGather(h, fill, chunks);
      assert Acts(h1, fill, [last]) == Acts(Act(h1, fill, last), fill, [last][1..]);
      FinishGives(h1, last.reason, last.date, last.output);
    }
  }

  /** On a handler that has finished it does nothing. */
  lemma FinishedIsNotExecuted(h: Http, fill: Fill, user: User)
    requires h.finished
    ensures Execution(h, fill, user) == h
  {
  }

  // -------------------------------------------------------------------- in a connection

  /** A move, and if it dispatches the request, the execution of its handler. */
  function Serve(v: Server, fill: Fill, m: Move, user: User): Server {
    var v1 := Advance(v, fill, m);
    if v.phase != Dispatched && v1.phase == Dispatched then v1.(http := Execution(v1.http, fill, user)) else v1
  }

  function ServeAll(v: Server, fill: Fill, moves: seq<Move>, user: User): Server
    decreases |moves|
  {
    if moves == [] then v else ServeAll(Serve(v, fill, moves[0], user), fill, moves[1..], user)
  }

  function AsMoves(calls: seq<Action>): seq<Move> {
    seq(|calls|, i requires 0 <= i < |calls| => HandlerCalls(calls[i]))
  }

  /** The calls an execution comes to, as moves of the connection. */
  function ExecutionMoves(verb: string, user: User): seq<Move> {
    if UserVerb(verb) then AsMoves(user.calls) else [HandlerCalls(CallError(405, user.reason, user.date, user.output))]
  }

  lemma {:induction false} CallsAdvance(v: Server, fill: Fill, calls: seq<Action>)
    requires v.phase == Dispatched && OnlyCalls(calls)
    ensures AdvanceAll(v, fill, AsMoves(calls)) == v.(http := Acts(v.http, fill, calls))
    decreases |calls|
  {
    hide Act;
    if calls != [] {
      assert calls[0] in calls;
      forall c <- calls[1..] ensures OfHandler(c) { assert c in calls; }
      var v1 := Advance(v, fill, HandlerCalls(calls[0]));
      assert v1 == v.(http := Act(v.http, fill, calls[0]));
      assert AsMoves(calls)[0] == HandlerCalls(calls[0]) && AsMoves(calls)[1..] == AsMoves(calls[1..]);
      CallsAdvance(v1, fill, calls[1..]);
    }
  }

  /** An execution is some handler calls: what holds of every run of a connection holds with it. */
  lemma ExecutionAdvances(v: Server, fill: Fill, user: User)
    requires v.phase == Dispatched && !v.http.finished && OnlyCalls(user.calls)
    ensures AdvanceAll(v, fill, ExecutionMoves(v.http.conn.request.verb, user)) ==
      v.(http := Execution(v.http, fill, user))
  {
    hide SendError;
    if UserVerb(v.http.conn.request.verb) {
      CallsAdvance(v, fill, user.calls);
    } else {
      var m := HandlerCalls(CallError(405, user.reason, user.date, user.output));
      assert [m][1..] == [];
      assert AdvanceAll(v, fill, [m]) == AdvanceAll(Advance(v, fill, m), fill, []);
    }
  }

  /** Where a served connection stands before its request is dispatched, it has only advanced. */
  lemma {:induction false} DispatchPoint(v: Server, fill: Fill, moves: seq<Move>, user: User) returns (k: nat)
    requires v.phase != Dispatched && ServeAll(v, fill, moves, user).phase == Dispatched
    ensures k < |moves|
    ensures var u := AdvanceAll(v, fill, moves[..k]); var u1 := Advance(u, fill, moves[k]);
      && u.phase != Dispatched && u1.phase == Dispatched
      && ServeAll(v, fill, moves, user) ==
         AdvanceAll(u1.(http := Execution(u1.http, fill, user)), fill, moves[k + 1..])
    decreases |moves|
  {
    hide Advance, Execution;
    var v1 := Advance(v, fill, moves[0]);
    if v1.phase == Dispatched {
      k := 0;
      assert moves[..0] == [];
      DispatchedOnlyAdvances(v1.(http := Execution(v1.http, fill, user)), fill, moves[1..], user);
    } else {
      var j := DispatchPoint(v1, fill, moves[1..], user);
      k := j + 1;
      assert moves[..k][0] == moves[0] && moves[..k][1..] == moves[1..][..j];
      assert moves[1..][j + 1..] == moves[k + 1..];
    }
  }

  lemma {:induction false} DispatchedOnlyAdvances(v: Server, fill: Fill, moves: seq<Move>, user: User)
    requires v.phase == Dispatched
    ensures ServeAll(v, fill, moves, user) == AdvanceAll(v, fill, moves)
    decreases |moves|
  {
    hide Advance, Execution;
    if moves != [] {
      StaysDispatched(v, fill, moves[0]);
      DispatchedOnlyAdvances(Advance(v, fill, moves[0]), fill, moves[1..], user);
    }
  }

  /** A run with the executions in it is a run of the connection, with their calls put in. */
  lemma ServedRunIsRun(s: Stream, fill: Fill, input: Input, moves: seq<Move>, user: User) returns (k: nat, all: seq<Move>)
    requires Fresh(s) && OnlyCalls(user.calls)
    requires ServeAll(Accepted(s, fill, input), fill, moves, user).phase == Dispatched
    ensures k < |moves|
    ensures var v := AdvanceAll(Accepted(s, fill, input), fill, moves[..k + 1]);
      && v.phase == Dispatched && Untouched(v.http) && !v.http.serverClosed
      && (!v.http.conn.stream.closed ==> v.http.conn.stream.log.accepted == Prologue(v.http.conn.request))
      && all == moves[..k + 1] + ExecutionMoves(v.http.conn.request.verb, user) + moves[k + 1..]
      && ServeAll(Accepted(s, fill, input), fill, moves, user) == AdvanceAll(Accepted(s, fill, input), fill, all)
      && ServeAll(Accepted(s, fill, input), fill, moves, user) ==
         AdvanceAll(v.(http := Execution(v.http, fill, user)), fill, moves[k + 1..])
      && ServeAll(Accepted(s, fill, input), fill, moves, user).http.conn.request == v.http.conn.request
  {
    AcceptedIsUntouched(s, fill, input);
    hide Accepted, Advance, Execution, Prologue, Untouched, OnlyCalls, Fresh;
    var v0 := Accepted(s, fill, input);
    k := DispatchPoint(v0, fill, moves, user);
    var first, rest := moves[..k + 1], moves[k + 1..];
    JustDispatched(s, fill, input, moves, k);
    var v := AdvanceAll(v0, fill, first);
    assert !v.http.finished by { UntouchedIsUnfinished(v.http); }
    var ex := ExecutionMoves(v.http.conn.request.verb, user);
    ExecutionAdvances(v, fill, user);
    all := first + ex + rest;
    AllAdvancesSplit(v0, fill, first + ex, rest);
    AllAdvancesSplit(v0, fill, first, ex);
    RequestStaysForGood(v, fill, ex);
    DispatchedForGood(v, fill, ex);
    RequestStaysForGood(AdvanceAll(v, fill, ex), fill, rest);
  }

  lemma UntouchedIsUnfinished(h: Http)
    requires Untouched(h)
    ensures !h.finished
  {
  }

  /** A connection whose request has just been dispatched: nothing answered, and nothing accepted but a 100-continue. */
  lemma JustDispatched(s: Stream, fill: Fill, input: Input, moves: seq<Move>, k: nat)
    requires Fresh(s) && k < |moves|
    requires AdvanceAll(Accepted(s, fill, input), fill, moves[..k]).phase != Dispatched
    requires Advance(AdvanceAll(Accepted(s, fill, input), fill, moves[..k]), fill, moves[k]).phase == Dispatched
    ensures var v := AdvanceAll(Accepted(s, fill, input), fill, moves[..k + 1]);
      && v == Advance(AdvanceAll(Accepted(s, fill, input), fill, moves[..k]), fill, moves[k])
      && Untouched(v.http) && !v.http.serverClosed
      && (!v.http.conn.stream.closed ==> v.http.conn.stream.log.accepted == Prologue(v.http.conn.request))
  {
    var v0, before := Accepted(s, fill, input), moves[..k];
    AcceptedIsOrderly(s, fill, input);
    AcceptedIsPrefaced(s, fill, input);
    AcceptedIsUntouched(s, fill, input);
    hide Accepted, Advance, AdvanceAll, Prefaced, Orderly, Prologue, Fresh, Untouched;
    OneMoveMore(v0, fill, moves, k);
    var v := AdvanceAll(v0, fill, moves[..k + 1]);
    AllAdvancesKeep(v0, fill, moves[..k + 1]);
    AllPrefaced(v0, fill, moves[..k + 1]);
    UntouchedAtDispatch(v0, fill, before, moves[k]);
    UntouchedIsUnfinished(v.http);
    OpenAtFinish(v);
  }

  lemma OneMoveMore(v: Server, fill: Fill, moves: seq<Move>, k: nat)
    requires k < |moves|
    ensures AdvanceAll(v, fill, moves[..k + 1]) == Advance(AdvanceAll(v, fill, moves[..k]), fill, moves[k])
  {
    hide Advance;
    var u := AdvanceAll(v, fill, moves[..k]);
    assert moves[..k + 1] == moves[..k] + [moves[k]] && [moves[k]][1..] == [];
    AllAdvancesSplit(v, fill, moves[..k], [moves[k]]);
    assert AdvanceAll(u, fill, [moves[k]]) == AdvanceAll(Advance(u, fill, moves[k]), fill, []);
  }

  lemma FinishKeepsRequest(h: Http, reason: string, date: string, output: Output)
    ensures HandlerFinish(h, reason, date, output).conn.request == h.conn.request
  {
    hide Close, Head, JustWrite, StreamModel.WriteBytesWith;
  }

  /** A dispatched request stays as it is. */
  lemma RequestStays(v: Server, fill: Fill, m: Move)
    requires v.phase == Dispatched
    ensures Advance(v, fill, m).http.conn.request == v.http.conn.request
  {
    hide HandleEvents, ErrorPage, Close, HandlerFinish;
    if m.HandlerCalls? {
      var h, call := v.http, m.call;
      if call.CallFinish? { FinishKeepsRequest(h, call.reason, call.date, call.output); }
      if call.CallError? {
        var page := ErrorPage(call.status, call.reason);
        FinishKeepsRequest(HandlerWrite(h.(status := call.status), page), call.reason, call.date, call.output);
      }
    }
  }

  lemma {:induction false} RequestStaysForGood(v: Server, fill: Fill, moves: seq<Move>)
    requires v.phase == Dispatched
    ensures AdvanceAll(v, fill, moves).http.conn.request == v.http.conn.request
    decreases |moves|
  {
    hide Advance;
    if moves != [] {
      RequestStays(v, fill, moves[0]);
      StaysDispatched(v, fill, moves[0]);
      RequestStaysForGood(Advance(v, fill, moves[0]), fill, moves[1..]);
    }
  }

  /** Until the request is dispatched its handler is untouched. */
  predicate Untouched(h: Http) { !h.finished && h.status == 200 && h.buff == "" }

  lemma MoveLeavesUntouched(v: Server, fill: Fill, m: Move)
    requires v.phase != Dispatched && Untouched(v.http)
    ensures Untouched(Advance(v, fill, m).http)
  {
    hide OnHeaders, OnRequestBody, HandleEvents, Close;
  }

  lemma {:induction false} UntouchedAtDispatch(v: Server, fill: Fill, moves: seq<Move>, m: Move)
    requires v.phase != Dispatched && Untouched(v.http) && AdvanceAll(v, fill, moves).phase != Dispatched
    ensures Untouched(Advance(AdvanceAll(v, fill, moves), fill, m).http)
    decreases |moves|
  {
    hide Advance, Untouched;
    if moves == [] {
      MoveLeavesUntouched(v, fill, m);
    } else {
      var v1 := Advance(v, fill, moves[0]);
      if v1.phase == Dispatched { DispatchedForGood(v1, fill, moves[1..]); }
      MoveLeavesUntouched(v, fill, moves[0]);
      UntouchedAtDispatch(v1, fill, moves[1..], m);
    }
  }

  lemma {:induction false} DispatchedForGood(v: Server, fill: Fill, moves: seq<Move>)
    requires v.phase == Dispatched
    ensures AdvanceAll(v, fill, moves).phase == Dispatched
    decreases |moves|
  {
    hide Advance;
    if moves != [] {
      StaysDispatched(v, fill, moves[0]);
      DispatchedForGood(Advance(v, fill, moves[0]), fill, moves[1..]);
    }
  }

  /** An answer once given stays as it is. */
  lemma AnswerStays(v: Server, fill: Fill, m: Move)
    requires v.http.finished && v.phase == Dispatched
    ensures var h, h' := v.http, Advance(v, fill, m).http;
      h'.answer == h.answer && h'.conn.request == h.conn.request && h'.finished
  {
    hide HandleEvents, ErrorPage, Close;
  }

  lemma {:induction false} AnswerStaysForGood(v: Server, fill: Fill, moves: seq<Move>)
    requires v.http.finished && v.phase == Dispatched
    ensures var h, h' := v.http, AdvanceAll(v, fill, moves).http;
      h'.answer == h.answer && h'.conn.request == h.conn.request && h'.finished
    decreases |moves|
  {
    hide Advance;
    if moves != [] {
      AnswerStays(v, fill, moves[0]);
      StaysDispatched(v, fill, moves[0]);
      AnswerStaysForGood(Advance(v, fill, moves[0]), fill, moves[1..]);
    }
  }

  /** Finished so, and sent in full by the time the server closes. */
  ghost predicate Served(h: Http, status: int, reason: string, date: string, body: string) {
    && h.finished && h.answer == body
    && (h.serverClosed ==>
          h.conn.stream.log.sent == Prologue(h.conn.request) + (Head(status, reason, date, |body|) + body))
  }

  lemma AnsweredIsServed(v: Server, fill: Fill, h: Http, status: int, reason: string, date: string, body: string,
      rest: seq<Move>)
    requires v.phase == Dispatched && !v.http.serverClosed && Answers(v.http, h, status, reason, date, body)
    requires !v.http.conn.stream.closed ==> v.http.conn.stream.log.accepted == Prologue(v.http.conn.request)
    requires var h' := AdvanceAll(v.(http := h), fill, rest).http; h'.serverClosed ==> h'.conn.stream.log.sent == h'.goal
    ensures Served(AdvanceAll(v.(http := h), fill, rest).http, status, reason, date, body)
    ensures AdvanceAll(v.(http := h), fill, rest).http.conn.request == v.http.conn.request
  {
    hide Head, Prologue, Advance;
    GoalStaysForGood(v.(http := h), fill, rest);
    AnswerStaysForGood(v.(http := h), fill, rest);
    var h' := AdvanceAll(v.(http := h), fill, rest).http;
    if h'.serverClosed { assert h'.goal == Prologue(v.http.conn.request) + (Head(status, reason, date, |body|) + body); }
  }

  lemma ServerClosesInFull(s: Stream, fill: Fill, input: Input, moves: seq<Move>)
    requires Fresh(s)
    ensures var h := AdvanceAll(Accepted(s, fill, input), fill, moves).http;
      h.serverClosed ==> h.conn.stream.log.sent == h.goal
  {
    hide Accepted, Advance;
    ConnectionsNeverStick(s, fill, input, moves);
  }

  lemma AcceptedIsUntouched(s: Stream, fill: Fill, input: Input)
    ensures Untouched(Accepted(s, fill, input).http) && Accepted(s, fill, input).phase == AwaitingHead
  {
  }

  /**
   What a client is answered, over every run from the accept in which its request is dispatched. With the
   handler executed on dispatch, a GET or a POST whose code writes and then finishes is answered with
   what it wrote under status 200, and any other verb with the page of a 405, whatever is called later:
   and when the server has closed, this and the 100-continue due before it are all that was sent.
   */
  lemma RequestsAreServed(s: Stream, fill: Fill, input: Input, moves: seq<Move>, user: User,
      chunks: seq<string>, last: Action)
    requires Fresh(s) && last.CallFinish? && OnlyCalls(user.calls)
    requires ServeAll(Accepted(s, fill, input), fill, moves, user).phase == Dispatched
    ensures var h := ServeAll(Accepted(s, fill, input), fill, moves, user).http;
      if !UserVerb(h.conn.request.verb) then
        Served(h, 405, user.reason, user.date, ErrorPage(405, user.reason))
      else
        user.calls == Writes(chunks) + [last] ==> Served(h, 200, last.reason, last.date, Flatten(chunks))
  {
    hide Execution, Prologue, Head, ErrorPage, Accepted, Served, Answers, Advance, UserVerb;
    var k, all := ServedRunIsRun(s, fill, input, moves, user);
    var v := AdvanceAll(Accepted(s, fill, input), fill, moves[..k + 1]);
    var h, rest := Execution(v.http, fill, user), moves[k + 1..];
    ServerClosesInFull(s, fill, input, all);
    ExecuteGoesByVerb(v.http, fill, user, chunks, last);
    assert "" + Flatten(chunks) == Flatten(chunks) && "" + ErrorPage(405, user.reason) == ErrorPage(405, user.reason);
    if !UserVerb(v.http.conn.request.verb) {
      AnsweredIsServed(v, fill, h, 405, user.reason, user.date, ErrorPage(405, user.reason), rest);
    } else if user.calls == Writes(chunks) + [last] {
      AnsweredIsServed(v, fill, h, 200, last.reason, last.date, Flatten(chunks), rest);
    }
  }

  /** So its client reads a response with that status, its reason, the length of the body, and the body. */
  lemma ServedReads(h: Http, status: int, reason: string, date: string, body: string)
    requires Served(h, status, reason, date, body) && h.serverClosed
    requires '\r' !in reason && '\r' !in date && Trimmed(date)
    ensures var sent, p := h.conn.stream.log.sent, Prologue(h.conn.request);
      && p <= sent
      && ReadResponse(sent[|p|..]) == Some(Response(Status("HTTP/1.1", status, reason), Fields(date, |body|), body))
  {
    hide Head, ReadResponse, Prologue, Fields;
    ResponseReads(status, reason, date, body);
    var p, more := Prologue(h.conn.request), Head(status, reason, date, |body|) + body;
    assert (p + more)[|p|..] == more;
  }
}
