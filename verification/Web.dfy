/** The request handler: it gathers an answer, then flushes it and finishes the connection. */
module Web {
  import opened StreamModel
  import opened HttpModel
  import opened HttpServers

  class RequestHandler {
    const conn: HTTPConnection
    var finished: bool
    var statusCode: int
    var buff: string
    ghost var answer: string
    ghost var goal: string
    ghost var ran: nat
    ghost var serverClosed: bool

    ghost predicate Valid()
      reads this, conn, conn.stream, conn.stream.loop, conn.stream.loop.timeouts, conn.stream.loop.handlers
      reads conn.stream.readBuffer, conn.stream.writeBuffer
    {
      conn.Valid() && (!finished ==> conn.stream.writeCallback.None?)
    }

    ghost function Value(): Http
      requires conn.stream.readBuffer.Valid() && conn.stream.writeBuffer.Valid()
      reads this, conn, conn.headers, conn.stream, conn.stream.loop.handlers
      reads conn.stream.readBuffer, conn.stream.writeBuffer
      reads conn.stream.readBuffer.buff, conn.stream.writeBuffer.buff
    {
      Http(conn.Value(), finished, statusCode, buff, answer, goal, ran, serverClosed)
    }

    constructor (conn: HTTPConnection)
      requires conn.Valid() && conn.stream.writeCallback.None?
      ensures Valid() && this.conn == conn
      ensures Value() == Http(conn.Value(), false, 200, "", "", "", |conn.stream.posted|, false)
    {
      this.conn := conn;
      finished, statusCode, buff := false, 200, "";
      answer, goal, ran, serverClosed := "", "", |conn.stream.posted|, false;
    }

    method Write(chunk: string)
      requires Valid()
      modifies this`buff
      ensures Valid() && Value() == HandlerWrite(old(Value()), chunk)
    {
      if finished {
        return;
      }
      buff := buff + chunk;
    }

    method Send(head: string, output: Output)
      requires conn.Valid() && conn.stream.writeCallback.None?
      modifies conn.stream.Footprint()
      ensures conn.Valid()
      ensures conn.Value() == HttpModel.Write(HttpModel.WriteToBuff(old(conn.Value()), head).0, buff, output).0
      ensures conn.stream.LeavesLoopOnClose()
    {
      HeadKeepsNoCallback(conn.stream.Value(), head);
      var _ := conn.WriteToBuff(head);
      var _ := conn.Write(buff, output);
    }

    /** Notes the answer about to be given and the bytes that will then have been accepted. */
    ghost method Promise(head: string)
      requires conn.Valid()
      modifies this`answer, this`goal
      ensures Value() == old(Value()).(answer := buff, goal := conn.stream.log.accepted + head + buff)
    {
      answer, goal := buff, conn.stream.log.accepted + head + buff;
    }

    method FlushUnder(head: string, output: Output)
      requires Valid() && conn.stream.writeCallback.None?
      modifies this`buff, this`answer, this`goal, conn.stream.Footprint()
      ensures conn.Valid() && Value() == HttpModel.FlushUnder(old(Value()), head, output)
      ensures conn.stream.LeavesLoopOnClose()
    {
      hide JustWrite, StreamModel.WriteBytesWith;
      ghost var c := HttpModel.Write(HttpModel.WriteToBuff(conn.Value(), head).0, buff, output).0;
      Promise(head);
      Send(head, output);
      buff := "";
      assert conn.Value() == c;
    }

    /** Formats the head for the gathered body and hands both to the connection. */
    method Flush(reason: string, date: string, output: Output)
      requires Valid() && conn.stream.writeCallback.None?
      modifies this`buff, this`answer, this`goal, conn.stream.Footprint()
      ensures conn.Valid() && Value() == HttpModel.Flush(old(Value()), reason, date, output)
      ensures conn.stream.LeavesLoopOnClose()
    {
      hide Head;
      FlushUnder(Head(statusCode, reason, date, |buff|), output);
    }

    /** Lets the connection close now if everything has been sent. */
    method Conclude()
      requires conn.Valid() && finished
      modifies this`serverClosed, conn`requestFinished, conn.stream.Footprint()
      ensures Valid() && Value() == Concluded(old(Value()))
      ensures conn.stream.LeavesLoopOnClose()
    {
      serverClosed := serverClosed || (!conn.stream.closed && !conn.stream.Writing());
      conn.Finish();
    }

    method Finish(reason: string, date: string, output: Output)
      requires Valid()
      modifies this, conn`requestFinished, conn.stream.Footprint()
      ensures Valid() && Value() == HandlerFinish(old(Value()), reason, date, output)
      ensures conn.stream.LeavesLoopOnClose()
    {
      if finished {
        return;
      }
      finished := true;
      Flush(reason, date, output);
      Conclude();
    }

    method SendError(status: int, reason: string, date: string, output: Output)
      requires Valid()
      modifies this, conn`requestFinished, conn.stream.Footprint()
      ensures Valid() && Value() == HttpModel.SendError(old(Value()), status, reason, date, output)
      ensures conn.stream.LeavesLoopOnClose()
    {
      hide HandlerFinish, ErrorPage;
      statusCode := status;
      Write(ErrorPage(statusCode, reason));
      Finish(reason, date, output);
    }

    /** One call the user's code makes on its handler. */
    method Perform(call: Action)
      requires Valid() && OfHandler(call)
      modifies this, conn`requestFinished, conn.stream.Footprint()
      ensures Valid() && Value() == Act(old(Value()), conn.stream.fill, call)
    {
      hide HandlerFinish, HttpModel.SendError;
      match call
      case CallWrite(chunk) => Write(chunk);
      case CallFinish(reason, date, output) => Finish(reason, date, output);
      case CallError(status, reason, date, output) => SendError(status, reason, date, output);
    }

    method RunCalls(calls: seq<Action>)
      requires Valid()
      requires forall c <- calls :: OfHandler(c)
      modifies this, conn`requestFinished, conn.stream.Footprint()
      ensures Valid() && Value() == Acts(old(Value()), conn.stream.fill, calls)
    {
      ghost var start := Value();
      var i := 0;
      while i < |calls|
        invariant 0 <= i <= |calls|
        invariant Valid()
        invariant Acts(start, conn.stream.fill, calls) == Acts(Value(), conn.stream.fill, calls[i..])
      {
        assert calls[i..][1..] == calls[i + 1..] && calls[i] in calls;
        Perform(calls[i]);
        i := i + 1;
      }
    }

    /** Runs the user's get() or post(), given as the calls it makes; other verbs are refused. */
    method Execute(calls: seq<Action>, reason: string, date: string, output: Output)
      requires Valid()
      requires forall c <- calls :: OfHandler(c)
      modifies this, conn`requestFinished, conn.stream.Footprint()
      ensures Valid()
      ensures Value() == Executed(old(Value()), conn.stream.fill, calls, reason, date, output)
    {
      if finished {
      } else if conn.verb == "GET" || conn.verb == "POST" {
        RunCalls(calls);
      } else {
        SendError(405, reason, date, output);
      }
    }
  }

  lemma HeadKeepsNoCallback(s: Stream, head: string)
    requires s.writeCb.None?
    ensures JustWrite(s, head).0.writeCb.None?
  {
  }
}
