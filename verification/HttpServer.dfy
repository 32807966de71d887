/** The header table and the server side of one HTTP connection. */
module HttpServers {
  import opened Common
  import opened StreamModel
  import opened IOStreams
  import opened Text
  import opened HttpParse
  import opened HttpModel

  /** boost::split items into a map, the last binding winning, as both callers do it. */
  method CollectPairs(m: map<string, string>, items: seq<string>, trim: bool)
    returns (result: map<string, string>, ok: bool)
    ensures (result, ok) == ParsePairs(m, items, trim)
  {
    result := m;
    var i := 0;
    while i < |items|
      invariant 0 <= i <= |items|
      invariant ParsePairs(m, items, trim) == ParsePairs(result, items[i..], trim)
    {
      var args := Split(if trim then Trim(items[i]) else items[i], '=');
      if |args| != 2 {
        return result, false;
      }
      result := result[args[0] := args[1]];
      assert items[i..][1..] == items[i + 1..];
      i := i + 1;
    }
    return result, true;
  }

  class HTTPHeaders {
    var lastKey: string
    var lastValue: string
    var headers: map<string, string>
    var cookies: map<string, string>

    function Value(): Headers
      reads this
    {
      Headers(lastKey, lastValue, headers, cookies)
    }

    constructor ()
      ensures Value() == NO_HEADERS
    {
      lastKey, lastValue, headers, cookies := "", "", map[], map[];
    }

    function GetValue(key: string): string
      reads this
    {
      Lookup(headers, key)
    }

    method ParseLine(line: string) returns (ret: int)
      requires line != ""
      modifies this
      ensures (Value(), ret) == HttpParse.ParseLine(old(Value()), line)
    {
      if line[0] == ' ' {
        if lastKey == "" {
          return -1;
        }
        var extValue := TrimLeft(line);
        lastValue := lastValue + " " + extValue;
        headers := headers[lastKey := lastValue];
      } else {
        var sem := IndexOf(line, ':');
        if sem == |line| {
          return -2;
        }
        lastKey := line[..sem];
        lastValue := Trim(line[sem + 1..]);
        headers := headers[lastKey := lastValue];
      }
      return 0;
    }

    method ParseCookies() returns (ret: int)
      modifies this`cookies
      ensures (Value(), ret == 0) == HttpParse.ParseCookies(old(Value()))
    {
      var cookiesBuff := GetValue("Cookie");
      if cookiesBuff == "" {
        return 0;
      }
      var result, ok := CollectPairs(cookies, Split(cookiesBuff, ';'), true);
      cookies := result;
      return if ok then 0 else -1;
    }

    /** The scanning loop over the text from `start` on. */
    method Parse(text: string, start: nat) returns (ret: int)
      requires start <= |text|
      modifies this
      ensures (Value(), ret) == ParseHeaders(old(Value()), text[start..])
    {
      var pos := start;
      while pos < |text|
        invariant start <= pos <= |text|
        invariant ParseLines(old(Value()), Lines(text[start..])) == ParseLines(Value(), Lines(text[pos..]))
      {
        var index := FindCrlf(text[pos..]);
        if index < 0 {
          break;
        }
        var line := text[pos..][..index];
        assert Lines(text[pos..]) == [line] + Lines(text[pos..][index + 2..]);
        assert text[pos..][index + 2..] == text[pos + index + 2..];
        if index > 0 {
          ret := ParseLine(line);
          if ret != 0 {
            return;
          }
        }
        pos := pos + index + 2;
      }
      ret := ParseCookies();
      ret := if ret != 0 then 100 else 0;
    }
  }

  class HTTPConnection {
    const stream: IOStream
    const headers: HTTPHeaders
    var verb: string
    var path: string
    var query: string
    var version: string
    var arguments: map<string, string>
    var bodyArguments: map<string, string>
    var body: string
    var requestFinished: bool

    ghost predicate Valid()
      reads this, stream, stream.loop, stream.loop.timeouts, stream.loop.handlers
      reads stream.readBuffer, stream.writeBuffer
    {
      stream.Valid()
    }

    function RequestValue(): HttpRequest
      reads this, headers
    {
      HttpRequest(verb, path, query, version, arguments, headers.Value())
    }

    ghost function Value(): Conn
      requires stream.readBuffer.Valid() && stream.writeBuffer.Valid()
      reads this, headers, stream, stream.loop.handlers
      reads stream.readBuffer, stream.writeBuffer, stream.readBuffer.buff, stream.writeBuffer.buff
    {
      Conn(stream.Value(), RequestValue(), bodyArguments, body, requestFinished)
    }

    constructor (stream: IOStream)
      requires stream.Valid()
      ensures Valid() && this.stream == stream && fresh(headers)
      ensures Value() == Conn(stream.Value(), NO_REQUEST, map[], "", false)
    {
      this.stream := stream;
      headers := new HTTPHeaders();
      verb, path, query, version := "", "", "", "";
      arguments, bodyArguments, body := map[], map[], "";
      requestFinished := false;
    }

    method StartRun(input: Input)
      requires Valid() && Idle(stream.Value())
      modifies stream.Footprint()
      ensures Valid() && Value() == HttpModel.StartRun(old(Value()), stream.fill, input)
      ensures stream.LeavesLoopOnClose()
    {
      hide StreamModel.ReadUntil;
      stream.SetCloseCallback(Some(ON_CLOSE));
      var _ := stream.ReadUntil("\r\n\r\n", Some(ON_HEADERS), input);
    }

    method ParseTarget(uri: string) returns (ret: int)
      modifies this
      ensures (RequestValue(), ret) == HttpParse.ParseTarget(old(RequestValue()), uri)
      ensures body == old(body) && bodyArguments == old(bodyArguments) && requestFinished == old(requestFinished)
    {
      var items := Split(uri, '?');
      if |items| > 2 {
        return -4;
      }
      path := items[0];
      if |items| >= 2 {
        query := items[1];
        var result, ok := CollectPairs(arguments, Split(query, '&'), false);
        arguments := result;
        if !ok {
          return -5;
        }
      }
      return 0;
    }

    method ParseHttpRequest(data: string) returns (ret: int)
      modifies this, headers
      ensures (RequestValue(), ret) == ParseRequest(old(RequestValue()), data)
      ensures body == old(body) && bodyArguments == old(bodyArguments) && requestFinished == old(requestFinished)
    {
      var eol := FindCrlf(data);
      if eol < 0 {
        return -1;
      }
      var items := Split(data[..eol], ' ');
      if |items| != 3 {
        return -2;
      }
      verb := items[0];
      version := items[2];
      if !StartsWith(version, "HTTP/") {
        return -3;
      }
      ret := ParseTarget(items[1]);
      if ret != 0 {
        return;
      }
      ret := headers.Parse(data, eol + 2);
      ret := if ret != 0 then -6 else 0;
    }

    /** Asks for a body of the given length, first answering an expectation of 100-continue. */
    method AwaitBody(contentLength: nat, input: Input, output: Output)
      requires Valid() && Idle(stream.Value())
      modifies stream.Footprint()
      ensures Valid()
      ensures var s := Encourage(old(stream.Value()), RequestValue(), output);
        Value() == old(Value()).(
          stream := StreamModel.ReadBytes(s, stream.fill, contentLength, Some(ON_BODY), input).0)
      ensures stream.LeavesLoopOnClose()
    {
      hide StreamModel.ReadBytes, StreamModel.WriteBytes;
      if headers.GetValue("Expect") == "100-continue" {
        WriteStaysIdle(stream.Value(), CONTINUE, output);
        var _ := stream.WriteBytes(CONTINUE, output);
      }
      var _ := stream.ReadBytes(contentLength, Some(ON_BODY), input);
    }

    /** What follows a request head that parsed. */
    method Proceed(input: Input, output: Output) returns (dispatched: bool)
      requires Valid() && Idle(stream.Value())
      modifies this, stream.Footprint()
      ensures Valid() && (Value(), dispatched) == HttpModel.Proceed(old(Value()), stream.fill, input, output)
      ensures stream.LeavesLoopOnClose()
    {
      hide Encourage, StreamModel.ReadBytes, StreamModel.Close;
      var contentLength := Atoi(headers.GetValue("Content-Length"));
      if contentLength > 0 {
        if contentLength > MAX_BODY {
          stream.Close();
          return false;
        }
        AwaitBody(contentLength, input, output);
        return false;
      }
      return true;
    }

    /** Runs when the request head is in; `dispatched` says whether the handler is called now. */
    method OnHeaders(data: string, input: Input, output: Output) returns (dispatched: bool)
      requires Valid() && Idle(stream.Value())
      modifies this, headers, stream.Footprint()
      ensures Valid()
      ensures (Value(), dispatched) == HttpModel.OnHeaders(old(Value()), stream.fill, data, input, output)
      ensures stream.LeavesLoopOnClose()
    {
      hide ParseRequest, HttpModel.Proceed, StreamModel.Close;
      var ret := ParseHttpRequest(data);
      if ret != 0 {
        stream.Close();
        return false;
      }
      dispatched := Proceed(input, output);
    }

    /** Collects the fields of a form body; false when they are malformed. */
    method CollectForm(data: string) returns (ok: bool)
      requires Valid()
      modifies this`bodyArguments
      ensures Valid() && (Value(), ok) == ParseBody(old(Value()), data)
    {
      ok := true;
      if StartsWith(headers.GetValue("Content-Encoding"), "application/x-www-form-urlencoded") {
        var result, parsed := CollectPairs(bodyArguments, Split(data, '&'), false);
        bodyArguments, ok := result, parsed;
      }
    }

    method OnRequestBody(data: string) returns (dispatched: bool)
      requires Valid()
      modifies this, stream.Footprint()
      ensures Valid() && (Value(), dispatched) == HttpModel.OnRequestBody(old(Value()), data)
      ensures stream.LeavesLoopOnClose()
    {
      hide ParseBody;
      body := data;
      dispatched := true;
      if verb == "POST" {
        dispatched := CollectForm(data);
      }
      if !dispatched {
        stream.Close();
      }
    }

    method Finish()
      requires Valid()
      modifies this`requestFinished, stream.Footprint()
      ensures Valid() && Value() == HttpModel.Finish(old(Value()))
      ensures stream.LeavesLoopOnClose()
    {
      requestFinished := true;
      if !stream.Writing() {
        stream.Close();
      }
    }

    method Write(chunk: string, output: Output) returns (ret: int)
      requires Valid() && stream.writeCallback.None?
      modifies stream.Footprint()
      ensures Valid() && (Value(), ret) == HttpModel.Write(old(Value()), chunk, output)
      ensures stream.LeavesLoopOnClose()
    {
      ret := stream.WriteBytesWith(chunk, output, Some(ON_WRITE_COMPLETE));
    }

    method WriteToBuff(chunk: string) returns (ret: int)
      requires Valid()
      modifies stream.Footprint()
      ensures Valid() && (Value(), ret) == HttpModel.WriteToBuff(old(Value()), chunk)
      ensures stream.LeavesLoopOnClose()
    {
      ret := stream.JustWriteBytesToBuff(chunk);
    }

    method OnWriteComplete()
      requires Valid()
      modifies stream.Footprint()
      ensures Valid() && Value() == HttpModel.OnWriteComplete(old(Value()))
      ensures stream.LeavesLoopOnClose()
    {
      if requestFinished && !stream.Writing() && !stream.closed {
        stream.Close();
      }
    }
  }

  lemma CloseStaysIdle(s: Stream)
    requires Idle(s)
    ensures Idle(Close(s))
  {
  }

  lemma WriteStaysIdle(s: Stream, data: string, output: Output)
    requires Idle(s)
    ensures Idle(WriteBytes(s, data, output).0)
  {
    CloseStaysIdle(s);
    CloseStaysIdle(HandleWrite(JustWrite(s, data).0, output).0);
  }
}
