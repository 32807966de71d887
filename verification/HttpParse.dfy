/** Parsing of an HTTP request head, on values, and the printing it undoes. */
module HttpParse {
  import opened Common
  import opened Text

  datatype Headers = Headers(
    lastKey: string, lastValue: string, fields: map<string, string>, cookies: map<string, string>)

  datatype HttpRequest = HttpRequest(
    verb: string, path: string, query: string, version: string,
    arguments: map<string, string>, headers: Headers)

  const NO_HEADERS := Headers("", "", map[], map[])
  const NO_REQUEST := HttpRequest("", "", "", "", map[], NO_HEADERS)

  // ---------------------------------------------------------------------- parsing

  /** The CRLF-terminated lines of a text; what follows the last CRLF is not a line. */
  function Lines(s: string): seq<string>
    decreases |s|
  {
    var i := FindCrlf(s);
    if i < 0 then [] else [s[..i]] + Lines(s[i + 2..])
  }

  /** One header line: a field, or the continuation of the latest one. */
  function ParseLine(h: Headers, line: string): (Headers, int)
    requires line != ""
  {
    if line[0] == ' ' then
      if h.lastKey == "" then (h, -1)
      else
        var value := h.lastValue + " " + TrimLeft(line);
        (h.(lastValue := value, fields := h.fields[h.lastKey := value]), 0)
    else
      var sem := IndexOf(line, ':');
      if sem == |line| then (h, -2)
      else
        var key, value := line[..sem], Trim(line[sem + 1..]);
        (h.(lastKey := key, lastValue := value, fields := h.fields[key := value]), 0)
  }

  function ParseLines(h: Headers, lines: seq<string>): (Headers, int)
    decreases |lines|
  {
    if lines == [] then (h, 0)
    else if lines[0] == "" then ParseLines(h, lines[1..])
    else
      var (h, ret) := ParseLine(h, lines[0]);
      if ret != 0 then (h, ret) else ParseLines(h, lines[1..])
  }

  /** key=value items into a map, the last one winning; false at the first malformed item. */
  function ParsePairs(m: map<string, string>, items: seq<string>, trim: bool): (map<string, string>, bool)
    decreases |items|
  {
    if items == [] then (m, true)
    else
      var kv := Split(if trim then Trim(items[0]) else items[0], '=');
      if |kv| != 2 then (m, false) else ParsePairs(m[kv[0] := kv[1]], items[1..], trim)
  }

  function Lookup(m: map<string, string>, key: string): string { if key in m then m[key] else "" }

  function ParseCookies(h: Headers): (Headers, bool) {
    var value := Lookup(h.fields, "Cookie");
    if value == "" then (h, true)
    else
      var (cookies, ok) := ParsePairs(h.cookies, Split(value, ';'), true);
      (h.(cookies := cookies), ok)
  }

  function ParseHeaders(h: Headers, text: string): (Headers, int) {
    var (h, ret) := ParseLines(h, Lines(text));
    if ret != 0 then (h, ret)
    else
      var (h, ok) := ParseCookies(h);
      (h, if ok then 0 else 100)
  }

  function ParseTarget(r: HttpRequest, uri: string): (HttpRequest, int) {
    var parts := Split(uri, '?');
    if |parts| > 2 then (r, -4)
    else if |parts| == 1 then (r.(path := parts[0]), 0)
    else
      var (arguments, ok) := ParsePairs(r.arguments, Split(parts[1], '&'), false);
      (r.(path := parts[0], query := parts[1], arguments := arguments), if ok then 0 else -5)
  }

  function ParseRequest(r: HttpRequest, data: string): (HttpRequest, int) {
    var eol := FindCrlf(data);
    if eol < 0 then (r, -1)
    else
      var items := Split(data[..eol], ' ');
      if |items| != 3 then (r, -2)
      else
        var r := r.(verb := items[0], version := items[2]);
        if !StartsWith(r.version, "HTTP/") then (r, -3)
        else
          var (r, ret) := ParseTarget(r, items[1]);
          if ret != 0 then (r, ret)
          else
            var (h, ret) := ParseHeaders(r.headers, data[eol + 2..]);
            (r.(headers := h), if ret != 0 then -6 else 0)
  }

  // ------------------------------------------------------------- the line-level reading

  function Unlines(lines: seq<string>): string {
    if lines == [] then "" else lines[0] + CRLF + Unlines(lines[1..])
  }

  lemma FirstLineHasNoCrlf(s: string)
    requires FindCrlf(s) >= 0
    ensures FindCrlf(s[..FindCrlf(s)]) < 0 && s == s[..FindCrlf(s)] + CRLF + s[FindCrlf(s) + 2..]
  {
    var i := FindCrlf(s);
    forall j: nat | CrlfAt(s[..i], j) ensures CrlfAt(s, j) { }
    FindCrlfFinds(s[..i]);
    FindCrlfFinds(s);
  }

  /** Scanning splits the text at every CRLF: the lines hold none, and nothing is lost. */
  lemma {:induction false} LinesPartition(s: string) returns (tail: string)
    ensures forall l <- Lines(s) :: FindCrlf(l) < 0
    ensures s == Unlines(Lines(s)) + tail && FindCrlf(tail) < 0
    decreases |s|
  {
    var i := FindCrlf(s);
    if i < 0 { return s; }
    var line, rest := s[..i], s[i + 2..];
    FirstLineHasNoCrlf(s);
    tail := LinesPartition(rest);
    assert Lines(s)[1..] == Lines(rest);
    ConcatAssoc(line + CRLF, Unlines(Lines(rest)), tail);
  }

  lemma {:induction false} LinesOfUnlines(lines: seq<string>)
    requires forall l <- lines :: '\r' !in l
    ensures Lines(Unlines(lines)) == lines
    decreases |lines|
  {
    if lines != [] {
      FindCrlfFirst(lines[0], Unlines(lines[1..]));
      var s := Unlines(lines);
      assert s[..|lines[0]|] == lines[0] && s[|lines[0]| + 2..] == Unlines(lines[1..]);
      LinesOfUnlines(lines[1..]);
    }
  }

  /** The key a continuation before the given lines would extend. */
  function KeyAfter(key: string, lines: seq<string>): string
    decreases |lines|
  {
    if lines == [] then key
    else
      var l := lines[|lines| - 1];
      if l == "" || l[0] == ' ' then KeyAfter(key, lines[..|lines| - 1])
      else l[..IndexOf(l, ':')]
  }

  /** A line that cannot be parsed where it stands. */
  predicate Malformed(key: string, lines: seq<string>, i: nat)
    requires i < |lines|
  {
    lines[i] != "" &&
    if lines[i][0] == ' ' then KeyAfter(key, lines[..i]) == "" else ':' !in lines[i]
  }

  lemma {:induction false} KeyAfterCons(key: string, l: string, lines: seq<string>)
    ensures KeyAfter(key, [l] + lines) == KeyAfter(KeyAfter(key, [l]), lines)
    decreases |lines|
  {
    if lines == [] {
      assert [l] + lines == [l];
    } else {
      assert ([l] + lines)[..|lines|] == [l] + lines[..|lines| - 1];
      KeyAfterCons(key, l, lines[..|lines| - 1]);
    }
  }

  /**
   Header scanning fails exactly when some line has no colon, or continues no key: whatever the
   other lines are.
   */
  lemma {:induction false} HeadersFailIff(h: Headers, lines: seq<string>)
    ensures ParseLines(h, lines).1 != 0 <==> exists i :: 0 <= i < |lines| && Malformed(h.lastKey, lines, i)
    decreases |lines|
  {
    if lines != [] {
      var l, rest := lines[0], lines[1..];
      assert lines == [l] + rest;
      IndexOfIsFirst(l, ':');
      assert Malformed(h.lastKey, lines, 0) <==> l != "" && ParseLine(h, l).1 != 0 by {
        assert lines[..0] == [];
        if l != "" && l[0] != ' ' && IndexOf(l, ':') == |l| { assert l[..|l|] == l; }
      }
      if !Malformed(h.lastKey, lines, 0) {
        var h' := if l == "" then h else ParseLine(h, l).0;
        assert h'.lastKey == KeyAfter(h.lastKey, [l]);
        HeadersFailIff(h', rest);
        forall i | 0 <= i < |rest| ensures Malformed(h'.lastKey, rest, i) <==> Malformed(h.lastKey, lines, i + 1) {
          assert lines[..i + 1] == [l] + rest[..i];
          KeyAfterCons(h.lastKey, l, rest[..i]);
        }
        if exists i :: 0 <= i < |lines| && Malformed(h.lastKey, lines, i) {
          var i :| 0 <= i < |lines| && Malformed(h.lastKey, lines, i);
          assert Malformed(h'.lastKey, rest, i - 1);
        }
        if exists i :: 0 <= i < |rest| && Malformed(h'.lastKey, rest, i) {
          var i :| 0 <= i < |rest| && Malformed(h'.lastKey, rest, i);
          assert Malformed(h.lastKey, lines, i + 1);
        }
      }
    }
  }

  // ---------------------------------------------------------- when a request is refused

  /** Exactly one '='. */
  predicate Paired(item: string) { Occurrences(item, '=') == 1 }

  predicate AllPaired(items: seq<string>) { forall item <- items :: Paired(item) }

  /** key=value items are taken exactly when every one of them holds exactly one '='. */
  lemma {:induction false} PairsParseIff(m: map<string, string>, items: seq<string>, trim: bool)
    ensures ParsePairs(m, items, trim).1 <==> AllPaired(items)
    decreases |items|
  {
    if items != [] {
      var item := if trim then Trim(items[0]) else items[0];
      SplitLength(item, '=');
      TrimKeeps(items[0], '=');
      assert items == [items[0]] + items[1..];
      if Paired(items[0]) {
        var kv := Split(item, '=');
        PairsParseIff(m[kv[0] := kv[1]], items[1..], trim);
      } else {
        assert items[0] in items;
      }
    }
  }

  /** At most one '?', and behind it only items with exactly one '='. */
  predicate GoodTarget(uri: string) {
    var parts := Split(uri, '?');
    Occurrences(uri, '?') == 0 || (Occurrences(uri, '?') == 1 && |parts| == 2 && AllPaired(Split(parts[1], '&')))
  }

  lemma TargetParsesIff(r: HttpRequest, uri: string)
    ensures ParseTarget(r, uri).1 == 0 <==> GoodTarget(uri)
  {
    var parts := Split(uri, '?');
    SplitLength(uri, '?');
    if |parts| == 2 { PairsParseIff(r.arguments, Split(parts[1], '&'), false); }
  }

  /** No line malformed where it stands. */
  ghost predicate GoodLines(key: string, lines: seq<string>) {
    forall i :: 0 <= i < |lines| ==> !Malformed(key, lines, i)
  }

  predicate GoodCookie(value: string) { value == "" || AllPaired(Split(value, ';')) }

  lemma HeaderTextParsesIff(h: Headers, text: string)
    ensures ParseHeaders(h, text).1 == 0 <==>
      GoodLines(h.lastKey, Lines(text)) && GoodCookie(Lookup(ParseLines(h, Lines(text)).0.fields, "Cookie"))
  {
    var h', value := ParseLines(h, Lines(text)).0, Lookup(ParseLines(h, Lines(text)).0.fields, "Cookie");
    HeadersFailIff(h, Lines(text));
    PairsParseIff(h'.cookies, Split(value, ';'), true);
  }

  /** A start line of three items, the last one a version and the middle one a target. */
  predicate GoodStart(line: string) {
    var items := Split(line, ' ');
    Occurrences(line, ' ') == 2 && |items| == 3 && StartsWith(items[2], "HTTP/") && GoodTarget(items[1])
  }

  /**
   A head with a CRLF, a well-formed start line, no malformed header line, and exactly one '=' in every
   item of its Cookie field.
   */
  ghost predicate Acceptable(r: HttpRequest, data: string) {
    var eol := FindCrlf(data);
    && eol >= 0 && GoodStart(data[..eol])
    && (var lines := Lines(data[eol + 2..]);
        GoodLines(r.headers.lastKey, lines) && GoodCookie(Lookup(ParseLines(r.headers, lines).0.fields, "Cookie")))
  }

  /** A request head is accepted exactly when it is such. */
  lemma RequestParsesIff(r: HttpRequest, data: string)
    ensures ParseRequest(r, data).1 == 0 <==> Acceptable(r, data)
  {
    hide ParseRequest, Split, Lines, ParseLines, GoodLines, GoodCookie, AllPaired;
    RequestCodeSays(r, data);
    var eol := FindCrlf(data);
    if eol >= 0 {
      var items := Split(data[..eol], ' ');
      if |items| == 3 { assert GoodTarget(items[1]) ==> Occurrences(items[1], '?') <= 1; }
    }
  }

  /** The code of a refusal says what is wrong: the first of these that is. */
  ghost predicate CodeSays(r: HttpRequest, data: string, code: int) {
    var eol := FindCrlf(data);
    if eol < 0 then code == -1
    else
      var items, lines := Split(data[..eol], ' '), Lines(data[eol + 2..]);
      if Occurrences(data[..eol], ' ') != 2 || |items| != 3 then code == -2
      else if !StartsWith(items[2], "HTTP/") then code == -3
      else if Occurrences(items[1], '?') > 1 then code == -4
      else if !GoodTarget(items[1]) then code == -5
      else if !GoodLines(r.headers.lastKey, lines)
           || !GoodCookie(Lookup(ParseLines(r.headers, lines).0.fields, "Cookie")) then code == -6
      else code == 0
  }

  lemma TargetCodeSays(r: HttpRequest, uri: string)
    ensures ParseTarget(r, uri).1 == if Occurrences(uri, '?') > 1 then -4 else if !GoodTarget(uri) then -5 else 0
  {
    var parts := Split(uri, '?');
    SplitLength(uri, '?');
    if |parts| == 2 { PairsParseIff(r.arguments, Split(parts[1], '&'), false); }
  }

  lemma RequestCodeSays(r: HttpRequest, data: string)
    ensures CodeSays(r, data, ParseRequest(r, data).1)
  {
    var eol := FindCrlf(data);
    if eol >= 0 {
      var items := Split(data[..eol], ' ');
      SplitLength(data[..eol], ' ');
      if |items| == 3 {
        var r' := r.(verb := items[0], version := items[2]);
        TargetCodeSays(r', items[1]);
        assert ParseTarget(r', items[1]).0.headers == r.headers;
        HeaderTextParsesIff(r.headers, data[eol + 2..]);
        hide ParseTarget, ParseHeaders, ParseLines, GoodTarget, GoodLines, GoodCookie, Split, Lines;
      }
    }
  }

  // ----------------------------------------------------------------- what a line binds

  /**
   A field line binds what is before its first colon to what is after it without the white space at
   both ends, whatever the line.
   */
  lemma LineBinds(h: Headers, line: string) returns (key: string, before: string, value: string, after: string)
    requires line != "" && line[0] != ' ' && ':' in line
    ensures line == key + ":" + before + value + after && ':' !in key
    ensures AllSpace(before) && AllSpace(after) && Trimmed(value)
    ensures ParseLine(h, line) == (h.(lastKey := key, lastValue := value, fields := h.fields[key := value]), 0)
  {
    IndexOfIsFirst(line, ':');
    var sem := IndexOf(line, ':');
    assert line[..|line|] == line;
    var rest := line[sem + 1..];
    key, value := line[..sem], Trim(rest);
    before, after := TrimIs(rest);
    assert line == key + ":" + rest;
  }

  /** A continuation adds a space and its text, without the white space in front, to the latest field. */
  lemma LineContinues(h: Headers, line: string) returns (before: string, value: string)
    requires line != "" && line[0] == ' ' && h.lastKey != ""
    ensures line == before + value && AllSpace(before) && (value != "" ==> !IsSpace(value[0]))
    ensures var all := h.lastValue + " " + value;
      ParseLine(h, line) == (h.(lastValue := all, fields := h.fields[h.lastKey := all]), 0)
  {
    value := TrimLeft(line);
    before := TrimLeftIs(line);
  }
}
