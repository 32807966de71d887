/**
 One HTTP connection and the handler answering on it, on values: reading the request, writing
 the response, and closing once it has drained.
 */
module HttpModel {
  import opened Common
  import opened LoopModel
  import opened Buffers
  import opened StreamModel
  import opened Text
  import opened HttpParse

  const MAX_BODY: int := 1024 * 100

  /** The connection's own callbacks: what they enter is modelled below. */
  const ON_HEADERS := Script([Enter(HeadersEntry)])
  const ON_BODY := Script([Enter(BodyEntry)])
  const ON_CLOSE := Script([Enter(StreamClosedEntry)])
  const ON_WRITE_COMPLETE := Script([Enter(WriteCompleteEntry)])

  datatype Conn = Conn(
    stream: Stream, request: HttpRequest, bodyArguments: map<string, string>, body: string,
    requestFinished: bool)

  // ------------------------------------------------------------------------ numbers

  predicate IsDigit(c: char) { '0' <= c <= '9' }

  function DigitsValue(s: string, acc: nat): nat {
    if s == "" || !IsDigit(s[0]) then acc else DigitsValue(s[1..], acc * 10 + (s[0] as int - '0' as int))
  }

  /** atoi: white space, a sign, then digits up to the first other character. */
  function Atoi(s: string): int {
    var t := TrimLeft(s);
    if t != "" && t[0] == '-' then (var v: int := DigitsValue(t[1..], 0); -v)
    else if t != "" && t[0] == '+' then DigitsValue(t[1..], 0)
    else DigitsValue(t, 0)
  }

  function Decimal(n: nat): string {
    (if n < 10 then "" else Decimal(n / 10)) + [('0' as int + n % 10) as char]
  }

  // ---------------------------------------------------------------- reading a request

  /** startRun: install the close callback, then ask for the request head. */
  function StartRun(c: Conn, fill: Fill, input: Input): Conn {
    c.(stream := ReadUntil(c.stream.(closeCb := Some(ON_CLOSE)), fill, "\r\n\r\n", Some(ON_HEADERS), input).0)
  }

  function ContentLength(r: HttpRequest): int { Atoi(Lookup(r.headers.fields, "Content-Length")) }

  const CONTINUE := "HTTP/1.1 100 (Continue)\r\n\r\n"

  predicate Expects(r: HttpRequest) { Lookup(r.headers.fields, "Expect") == "100-continue" }

  /** Answers an expectation of 100-continue. */
  function Encourage(s: Stream, r: HttpRequest, output: Output): Stream {
    if Expects(r) then WriteBytes(s, CONTINUE, output).0 else s
  }

  /** What follows a request head that parsed: the body is asked for, if there is to be one. */
  function Proceed(c: Conn, fill: Fill, input: Input, output: Output): (Conn, bool) {
    var n := ContentLength(c.request);
    if n <= 0 then (c, true)
    else if n > MAX_BODY then (c.(stream := Close(c.stream)), false)
    else (c.(stream := ReadBytes(Encourage(c.stream, c.request, output), fill, n, Some(ON_BODY), input).0), false)
  }

  /** onHeaders; the flag says whether the request goes to its handler now. */
  function OnHeaders(c: Conn, fill: Fill, data: string, input: Input, output: Output): (Conn, bool) {
    var (r, ret) := ParseRequest(c.request, data);
    var c := c.(request := r);
    if ret != 0 then (c.(stream := Close(c.stream)), false) else Proceed(c, fill, input, output)
  }

  function ParseBody(c: Conn, body: string): (Conn, bool) {
    if StartsWith(Lookup(c.request.headers.fields, "Content-Encoding"), "application/x-www-form-urlencoded") then
      var (arguments, ok) := ParsePairs(c.bodyArguments, Split(body, '&'), false);
      (c.(bodyArguments := arguments), ok)
    else (c, true)
  }

  /** onRequestBody; the flag says whether the request goes to its handler. */
  function OnRequestBody(c: Conn, data: string): (Conn, bool) {
    var (c, ok) := if c.request.verb == "POST" then ParseBody(c.(body := data), data) else (c.(body := data), true);
    if ok then (c, true) else (c.(stream := Close(c.stream)), false)
  }

  // --------------------------------------------------------------- writing a response

  predicate Writing(s: Stream) { Readable(s.writeBuf) > 0 }

  function Write(c: Conn, chunk: string, output: Output): (Conn, int) {
    var (s, ret) := WriteBytesWith(c.stream, chunk, output, Some(ON_WRITE_COMPLETE));
    (c.(stream := s), ret)
  }

  function WriteToBuff(c: Conn, chunk: string): (Conn, int) {
    var (s, ret) := JustWrite(c.stream, chunk);
    (c.(stream := s), ret)
  }

  function Finish(c: Conn): Conn {
    var c := c.(requestFinished := true);
    if Writing(c.stream) then c else c.(stream := Close(c.stream))
  }

  function OnWriteComplete(c: Conn): Conn {
    if c.requestFinished && !Writing(c.stream) && !c.stream.closed then c.(stream := Close(c.stream)) else c
  }

  /**
   The handler, with what became of its answer: the body it flushed, all the bytes the stream
   has accepted once the response is (`goal`), how many of the stream's notices have been run,
   and whether finish or onWriteComplete closed the stream.
   */
  datatype Http = Http(
    conn: Conn, finished: bool, status: int, buff: string,
    answer: string, goal: string, ran: nat, serverClosed: bool)

  /** printf's %d. */
  function Signed(n: int): string { if n < 0 then "-" + Decimal(-n) else Decimal(n) }

  function StatusLine(status: int, reason: string): string {
    "HTTP/1.1 " + Signed(status) + " " + reason
  }

  const CONTENT_TYPE := "text/html; charset=utf-8"

  /** The response head flush() formats: five lines, the last one blank, after the status line. */
  function Head(status: int, reason: string, date: string, length: nat): string {
    StatusLine(status, reason) + CRLF
    + Unlines(["Server: cppsvr", "Date: " + date, "Content-Type: " + CONTENT_TYPE,
               "Content-Length: " + Decimal(length), ""])
  }

  function HandlerWrite(h: Http, chunk: string): Http {
    if h.finished then h else h.(buff := h.buff + chunk)
  }

  /** Hands a formatted head, then the gathered body, to the connection. */
  function FlushUnder(h: Http, head: string, output: Output): Http {
    var c := Write(WriteToBuff(h.conn, head).0, h.buff, output).0;
    h.(conn := c, answer := h.buff, goal := h.conn.stream.log.accepted + head + h.buff, buff := "")
  }

  function Flush(h: Http, reason: string, date: string, output: Output): Http {
    FlushUnder(h, Head(h.status, reason, date, |h.buff|), output)
  }

  /** The connection's finish(), noting whether it closes the stream. */
  function Concluded(h: Http): Http {
    h.(conn := Finish(h.conn),
       serverClosed := h.serverClosed || (!h.conn.stream.closed && !Writing(h.conn.stream)))
  }

  function HandlerFinish(h: Http, reason: string, date: string, output: Output): Http {
    if h.finished then h else Concluded(Flush(h.(finished := true), reason, date, output))
  }

  function ErrorPage(status: int, reason: string): string {
    "<html><title>" + Signed(status) + ": " + reason + "</title>"
  }

  /** send_error: its page goes after whatever was written; it ends the response. */
  function SendError(h: Http, status: int, reason: string, date: string, output: Output): Http {
    HandlerFinish(HandlerWrite(h.(status := status), ErrorPage(status, reason)), reason, date, output)
  }

  // --------------------------------------------------------------------------- runs

  datatype Action =
    | CallWrite(chunk: string)
    | CallFinish(reason: string, date: string, output: Output)
    | CallError(status: int, reason: string, date: string, output: Output)
    | LoopEvents(events: Mask, input: Input, output: Output)
    | LoopRunsNext

  /** The calls a handler makes, as against what the loop does. */
  predicate OfHandler(a: Action) { a.CallWrite? || a.CallFinish? || a.CallError? }

  function RunNext(h: Http): Http {
    if h.ran >= |h.conn.stream.posted| then h
    else if h.conn.stream.posted[h.ran].kind.WriteDone? then
      var c := OnWriteComplete(h.conn);
      h.(conn := c, ran := h.ran + 1,
         serverClosed := h.serverClosed || (c.stream.closed && !h.conn.stream.closed))
    else h.(ran := h.ran + 1)
  }

  /** The loop calls the handler of a descriptor while one is registered, and not otherwise. */
  function OnEvents(s: Stream, fill: Fill, events: Mask, input: Input, output: Output): Stream {
    if s.slot.None? then s else HandleEvents(s, fill, events, None, input, output)
  }

  function Act(h: Http, fill: Fill, a: Action): Http {
    match a
    case CallWrite(chunk) => HandlerWrite(h, chunk)
    case CallFinish(reason, date, output) => HandlerFinish(h, reason, date, output)
    case CallError(status, reason, date, output) => SendError(h, status, reason, date, output)
    case LoopEvents(events, input, output) =>
      h.(conn := h.conn.(stream := OnEvents(h.conn.stream, fill, events, input, output)))
    case LoopRunsNext => RunNext(h)
  }

  function Acts(h: Http, fill: Fill, actions: seq<Action>): Http
    decreases |actions|
  {
    if actions == [] then h else Acts(Act(h, fill, actions[0]), fill, actions[1..])
  }

  /** execute(): GET and POST go to the user's code, given as the calls it makes; nothing else does. */
  function Executed(h: Http, fill: Fill, calls: seq<Action>, reason: string, date: string, output: Output): Http {
    if h.finished then h
    else if h.conn.request.verb == "GET" || h.conn.request.verb == "POST" then Acts(h, fill, calls)
    else SendError(h, 405, reason, date, output)
  }
}
