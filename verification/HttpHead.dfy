/** The head a handler flushes, read back by the library's own header parser. */
module HttpHead {
  import opened Text
  import opened HttpParse
  import opened HttpRoundTrip
  import opened HttpModel

  lemma {:induction false} DigitsFold(a: string, c: char, acc: nat)
    requires IsDigit(c) && forall d <- a :: IsDigit(d)
    ensures DigitsValue(a + [c], acc) == DigitsValue(a, acc) * 10 + (c as int - '0' as int)
    decreases |a|
  {
    if a == "" {
      assert a + [c] == [c];
      assert DigitsValue([c], acc) == DigitsValue([c][1..], acc * 10 + (c as int - '0' as int));
    } else {
      assert (a + [c])[1..] == a[1..] + [c];
      assert IsDigit(a[0]);
      DigitsFold(a[1..], c, acc * 10 + (a[0] as int - '0' as int));
    }
  }

  lemma DigitChar(n: nat)
    requires n < 10
    ensures var c := ('0' as int + n) as char; IsDigit(c) && c as int - '0' as int == n
  {
  }

  /** atoi undoes decimal formatting. */
  lemma {:induction false} AtoiDecimal(n: nat)
    ensures Decimal(n) != "" && (forall d <- Decimal(n) :: IsDigit(d)) && DigitsValue(Decimal(n), 0) == n
    ensures Atoi(Decimal(n)) == n
  {
    DigitChar(n % 10);
    var c := ('0' as int + n % 10) as char;
    if n >= 10 {
      AtoiDecimal(n / 10);
      DigitsFold(Decimal(n / 10), c, 0);
    } else {
      assert Decimal(n) == [c];
      assert DigitsValue([c], 0) == DigitsValue([c][1..], c as int - '0' as int);
    }
    assert IsDigit(Decimal(n)[0]);
  }

  lemma {:induction false} SpaceTrims(before: string, s: string)
    requires AllSpace(before) && (s == "" || !IsSpace(s[0]))
    ensures TrimLeft(before + s) == s
    decreases |before|
  {
    if before == "" {
      assert before + s == s;
    } else {
      assert (before + s)[1..] == before[1..] + s && before[0] in before;
      SpaceTrims(before[1..], s);
    }
  }

  lemma {:induction false} DigitsStop(d: string, rest: string, acc: nat)
    requires (forall c <- d :: IsDigit(c)) && (rest == "" || !IsDigit(rest[0]))
    ensures DigitsValue(d + rest, acc) == DigitsValue(d, acc)
    decreases |d|
  {
    if d == "" {
      assert d + rest == rest;
    } else {
      assert (d + rest)[1..] == d[1..] + rest && d[0] in d;
      DigitsStop(d[1..], rest, acc * 10 + (d[0] as int - '0' as int));
    }
  }

  lemma SignedStart(sign: string, d: string, rest: string)
    requires sign in ["", "+", "-"] && d != "" && IsDigit(d[0])
    ensures var s := sign + d + rest;
      && s != "" && !IsSpace(s[0]) && s[0] == (if sign == "" then d[0] else sign[0])
      && (if sign == "" then s == d + rest else s[1..] == d + rest)
  {
    var s := sign + d + rest;
    if sign == "" { assert s == d + rest; } else { assert s[1..] == d + rest; }
  }

  /** atoi skips white space, takes a sign, and reads digits up to the first other character. */
  lemma AtoiReads(before: string, sign: string, n: nat, rest: string)
    requires AllSpace(before) && sign in ["", "+", "-"] && (rest == "" || !IsDigit(rest[0]))
    ensures Atoi(before + sign + Decimal(n) + rest) == if sign == "-" then 0 - n as int else n as int
  {
    AtoiDecimal(n);
    var d := Decimal(n);
    assert d[0] in d;
    hide DigitsValue, Decimal, TrimLeft, AllSpace;
    SignedStart(sign, d, rest);
    SpaceTrims(before, sign + d + rest);
    assert before + sign + d + rest == before + (sign + d + rest);
    DigitsStop(d, rest, 0);
  }

  function HeadFields(date: string, length: nat): seq<Field> {
    [Field("Server", "cppsvr", []), Field("Date", date, []),
     Field("Content-Type", CONTENT_TYPE, []), Field("Content-Length", Decimal(length), [])]
  }

  lemma PlainField(key: string, value: string, line: string)
    requires key != "" && key[0] != ' ' && ':' !in key && '\r' !in key && Trimmed(value) && '\r' !in value
    requires line == key + ": " + value
    ensures GoodField(Field(key, value, [])) && FieldLines(Field(key, value, [])) == [line]
  {
  }

  lemma FourLines(a: Field, b: Field, c: Field, d: Field)
    ensures AllLines([a, b, c, d]) == FieldLines(a) + FieldLines(b) + FieldLines(c) + FieldLines(d)
  {
    assert [a, b, c, d][1..] == [b, c, d] && [b, c, d][1..] == [c, d] && [c, d][1..] == [d] && [d][1..] == [];
    assert AllLines([d]) == FieldLines(d) + [];
    assert AllLines([c, d]) == FieldLines(c) + AllLines([d]);
    assert AllLines([b, c, d]) == FieldLines(b) + AllLines([c, d]);
  }

  lemma ServerField()
    ensures var f := Field("Server", "cppsvr", []); GoodField(f) && FieldLines(f) == ["Server: cppsvr"]
  {
    PlainField("Server", "cppsvr", "Server: cppsvr");
  }

  lemma TypeField()
    ensures var f := Field("Content-Type", CONTENT_TYPE, []);
      GoodField(f) && FieldLines(f) == ["Content-Type: " + CONTENT_TYPE]
  {
    TypeIsPlain();
    PlainField("Content-Type", CONTENT_TYPE, "Content-Type: " + CONTENT_TYPE);
  }

  lemma TypeIsPlain()
    ensures '\r' !in CONTENT_TYPE && Trimmed(CONTENT_TYPE)
  {
  }

  lemma LengthField(length: nat)
    ensures var f := Field("Content-Length", Decimal(length), []);
      GoodField(f) && FieldLines(f) == ["Content-Length: " + Decimal(length)]
  {
    AtoiDecimal(length);
    var d := Decimal(length);
    assert IsDigit(d[0]) && IsDigit(d[|d| - 1]);
    PlainField("Content-Length", d, "Content-Length: " + d);
  }

  lemma DateField(date: string)
    requires '\r' !in date && Trimmed(date)
    ensures var f := Field("Date", date, []); GoodField(f) && FieldLines(f) == ["Date: " + date]
  {
    PlainField("Date", date, "Date: " + date);
  }

  lemma HeadLines(date: string, length: nat)
    requires '\r' !in date && Trimmed(date)
    ensures AllLines(HeadFields(date, length)) ==
      ["Server: cppsvr", "Date: " + date, "Content-Type: " + CONTENT_TYPE,
       "Content-Length: " + Decimal(length)]
    ensures forall f <- HeadFields(date, length) :: GoodField(f)
  {
    ServerField();
    TypeField();
    LengthField(length);
    DateField(date);
    var fs := HeadFields(date, length);
    FourLines(fs[0], fs[1], fs[2], fs[3]);
  }

  lemma HeadIsPrinted(status: int, reason: string, date: string, length: nat)
    requires '\r' !in date && Trimmed(date)
    ensures Head(status, reason, date, length) ==
      StatusLine(status, reason) + CRLF + Unlines(AllLines(HeadFields(date, length)) + [""])
  {
    HeadLines(date, length);
    assert AllLines(HeadFields(date, length)) + [""] ==
      ["Server: cppsvr", "Date: " + date, "Content-Type: " + CONTENT_TYPE,
       "Content-Length: " + Decimal(length), ""];
  }

  /** Good fields, none of them Cookie, are parsed into their map. */
  lemma PlainHeadParses(fields: seq<Field>)
    requires forall f <- fields :: GoodField(f) && f.key != "Cookie"
    ensures var (h, ret) := ParseHeaders(NO_HEADERS, Unlines(AllLines(fields) + [""]));
      ret == 0 && h.fields == Bind(map[], FieldPairs(fields))
  {
    LinesClean(fields);
    LinesOfUnlines(AllLines(fields) + [""]);
    FieldsParse(NO_HEADERS, fields);
    NoCookieField(fields);
  }

  lemma HeadParses(date: string, length: nat)
    requires '\r' !in date && Trimmed(date)
    ensures var (h, ret) := ParseHeaders(NO_HEADERS, Unlines(AllLines(HeadFields(date, length)) + [""]));
      ret == 0 && Lookup(h.fields, "Content-Length") == Decimal(length)
  {
    HeadLines(date, length);
    PlainHeadParses(HeadFields(date, length));
    LengthIsLast(date, length);
  }

  lemma LengthIsLast(date: string, length: nat)
    ensures var m := Bind(map[], FieldPairs(HeadFields(date, length)));
      "Content-Length" in m && m["Content-Length"] == Decimal(length)
  {
    var fields := HeadFields(date, length);
    LastField(fields[..3], "Content-Length", Decimal(length));
    assert fields[..3] + [fields[3]] == fields;
  }

  /**
   The head is well-formed and truthful: after its status line the header parser accepts it, and
   the Content-Length it reads is the length of the body that follows.
   */
  lemma HeadDeclaresItsBody(status: int, reason: string, date: string, body: string)
    requires '\r' !in reason && '\r' !in date && Trimmed(date)
    ensures var head := Head(status, reason, date, |body|);
      var eol := FindCrlf(head);
      && eol == |StatusLine(status, reason)|
      && (var (h, ret) := ParseHeaders(NO_HEADERS, head[eol + 2..]);
          ret == 0 && Atoi(Lookup(h.fields, "Content-Length")) == |body|)
  {
    var head, line := Head(status, reason, date, |body|), StatusLine(status, reason);
    var rest := Unlines(AllLines(HeadFields(date, |body|)) + [""]);
    StatusLineHasNoReturn(status, reason);
    AtoiDecimal(|body|);
    HeadIsPrinted(status, reason, date, |body|);
    FindCrlfFirst(line, rest);
    assert head[|line| + 2..] == rest;
    HeadParses(date, |body|);
  }

  lemma StatusLineHasNoReturn(status: int, reason: string)
    requires '\r' !in reason
    ensures '\r' !in StatusLine(status, reason)
  {
    AtoiDecimal(if status < 0 then -status else status);
  }

  // ------------------------------------------------------------- the formatting buffers

  function PowerOfTen(k: nat): nat { if k == 0 then 1 else 10 * PowerOfTen(k - 1) }

  /** How many characters decimal formatting takes. */
  lemma {:induction false} DecimalLengthIff(n: nat, k: nat)
    requires k > 0
    ensures |Decimal(n)| <= k <==> n < PowerOfTen(k)
    decreases k
  {
    if k == 1 {
      assert PowerOfTen(1) == 10 * PowerOfTen(0);
      if n >= 10 { assert |Decimal(n / 10)| >= 1; }
    } else {
      if n >= 10 { DecimalLengthIff(n / 10, k - 1); }
      PowersGrow(k);
    }
  }

  lemma {:induction false} PowersGrow(k: nat)
    requires k > 0
    ensures PowerOfTen(k) >= 10
  {
    if k > 1 { PowersGrow(k - 1); }
  }

  /** The 256 bytes flush() and send_error() format into, the terminating zero included. */
  const FORMAT_BUFFER: nat := 256

  lemma HeadLength(status: int, reason: string, date: string, length: nat)
    ensures |Head(status, reason, date, length)| ==
      |Signed(status)| + |reason| + |date| + |Decimal(length)| + 96
  {
    var lines := ["Server: cppsvr", "Date: " + date, "Content-Type: " + CONTENT_TYPE,
                  "Content-Length: " + Decimal(length), ""];
    FiveLines(lines);
    assert |lines[0]| == 14 && |lines[1]| == 6 + |date| && |lines[2]| == 38;
    assert |StatusLine(status, reason)| == 10 + |Signed(status)| + |reason|;
  }

  lemma FiveLines(lines: seq<string>)
    requires |lines| == 5
    ensures |Unlines(lines)| == |lines[0]| + |lines[1]| + |lines[2]| + |lines[3]| + |lines[4]| + 10
  {
    assert lines[4..][1..] == [] && Unlines([]) == "";
    assert Unlines(lines[4..]) == lines[4] + CRLF + Unlines(lines[4..][1..]);
    assert lines[3..][1..] == lines[4..] && lines[2..][1..] == lines[3..] && lines[1..][1..] == lines[2..];
    assert Unlines(lines[3..]) == lines[3] + CRLF + Unlines(lines[4..]);
    assert Unlines(lines[2..]) == lines[2] + CRLF + Unlines(lines[3..]);
    assert Unlines(lines[1..]) == lines[1] + CRLF + Unlines(lines[2..]);
  }

  /** The formatted head is complete in its buffer exactly when its four variable parts are short enough. */
  lemma HeadFitsIff(status: int, reason: string, date: string, length: nat)
    ensures |Head(status, reason, date, length)| < FORMAT_BUFFER <==>
      |Signed(status)| + |reason| + |date| + |Decimal(length)| < 160
  {
    HeadLength(status, reason, date, length);
  }

  /** And so for the error page. */
  lemma ErrorPageFitsIff(status: int, reason: string)
    ensures |ErrorPage(status, reason)| < FORMAT_BUFFER <==> |Signed(status)| + |reason| < 233
  {
    assert |ErrorPage(status, reason)| == 13 + |Signed(status)| + 2 + |reason| + 8;
  }

  // ---------------------------------------------------------- what the code puts in them

  const MAX_CODE: int := 506

  /** The lookup compares with <=, so this status is read one past the end of the table. */
  predicate InTable(code: int) { 0 <= code <= MAX_CODE ==> code < MAX_CODE }

  /** The phrases of the table, by class: within each the codes follow one another. */
  const INFORMATIONAL := [
    "Continue", "Switching Protocols"]
  const SUCCESSFUL := [
    "OK", "Created", "Accepted", "Non-Authoritative Information", "No Content", "Reset Content",
    "Partial Content"]
  const REDIRECTION := [
    "Multiple Choices", "Moved Permanently", "Found", "See Other", "Not Modified", "Use Proxy", "(Unused)",
    "Temporary Redirect"]
  const CLIENT_ERROR := [
    "Bad Request", "Unauthorized", "Payment Required", "Forbidden", "Not Found", "Method Not Allowed",
    "Not Acceptable", "Proxy Authentication Required", "Request Timeout", "Conflict", "Gone",
    "Length Required", "Precondition Failed", "Request Entity Too Large", "Request-URI Too Long",
    "Unsupported Media Type", "Requested Range Not Satisfiable", "Expectation Failed"]
  const SERVER_ERROR := [
    "Internal Server Error", "Not Implemented", "Bad Gateway", "Service Unavailable", "Gateway Timeout",
    "HTTP Version Not Supported"]

  function PhraseIn(phrases: seq<string>, i: int): string {
    if 0 <= i < |phrases| then phrases[i] else "Unknown"
  }

  /** The reason phrase of a status. */
  function Reason(code: int): string
    requires InTable(code)
  {
    if code < 200 then PhraseIn(INFORMATIONAL, code - 100)
    else if code < 300 then PhraseIn(SUCCESSFUL, code - 200)
    else if code < 400 then PhraseIn(REDIRECTION, code - 300)
    else if code < 500 then PhraseIn(CLIENT_ERROR, code - 400)
    else PhraseIn(SERVER_ERROR, code - 500)
  }

  /** A broken-down time, and how it is written. */
  datatype Time = Time(weekday: nat, day: nat, month: nat, year: nat, hour: nat, minute: nat, second: nat)

  const WEEKDAYS := ["Sun", "Mon", "Tue", "Wed", "Thu", "Fri", "Sat"]
  const MONTHS := ["Jan", "Feb", "Mar", "Apr", "May", "Jun", "Jul", "Aug", "Sep", "Oct", "Nov", "Dec"]

  /** What gmtime() can give for a clock reading: its year counts from 1900 in 32 bits. */
  predicate OnCalendar(t: Time) {
    && t.weekday < 7 && 1 <= t.day <= 31 && t.month < 12 && t.year < 1900 + 0x8000_0000
    && t.hour < 24 && t.minute < 60 && t.second <= 60
  }

  function TwoDigits(n: nat): string
    requires n < 100
  {
    [('0' as int + n / 10) as char, ('0' as int + n % 10) as char]
  }

  function GmtDate(t: Time): string
    requires OnCalendar(t)
  {
    WEEKDAYS[t.weekday] + ", " + TwoDigits(t.day) + " " + MONTHS[t.month] + " " + Decimal(t.year) + " "
    + TwoDigits(t.hour) + ":" + TwoDigits(t.minute) + ":" + TwoDigits(t.second) + " GMT"
  }

  predicate Phrase(s: string) { |s| <= 31 && '\r' !in s }

  lemma FirstAndLastPhrases(i: int)
    ensures Phrase(PhraseIn(INFORMATIONAL, i)) && Phrase(PhraseIn(SERVER_ERROR, i))
  {
  }

  lemma SuccessfulPhrases(i: int)
    ensures Phrase(PhraseIn(SUCCESSFUL, i))
  {
  }

  lemma RedirectionPhrases(i: int)
    ensures Phrase(PhraseIn(REDIRECTION, i))
  {
  }

  lemma ClientPhrases(i: int)
    requires i < 9
    ensures Phrase(PhraseIn(CLIENT_ERROR, i))
  {
  }

  lemma MoreClientPhrases(i: int)
    requires 9 <= i
    ensures Phrase(PhraseIn(CLIENT_ERROR, i))
  {
  }

  lemma ReasonIsPhrase(code: int)
    requires InTable(code)
    ensures Phrase(Reason(code))
  {
    hide PhraseIn, Phrase;
    FirstAndLastPhrases(code - if code < 200 then 100 else 500);
    SuccessfulPhrases(code - 200);
    RedirectionPhrases(code - 300);
    if code < 409 { ClientPhrases(code - 400); } else { MoreClientPhrases(code - 400); }
  }

  /** A status without a phrase of its own is unknown; the others are those of the table. */
  lemma ReasonStandsFor(code: int)
    requires InTable(code)
    ensures Reason(code) == "Unknown" <==>
      !(100 <= code <= 101 || 200 <= code <= 206 || 300 <= code <= 307 || 400 <= code <= 417 || 500 <= code <= 505)
    ensures Reason(100) == "Continue" && Reason(200) == "OK" && Reason(206) == "Partial Content"
    ensures Reason(301) == "Moved Permanently" && Reason(307) == "Temporary Redirect"
    ensures Reason(400) == "Bad Request" && Reason(404) == "Not Found" && Reason(405) == "Method Not Allowed"
    ensures Reason(417) == "Expectation Failed" && Reason(500) == "Internal Server Error"
    ensures Reason(505) == "HTTP Version Not Supported"
  {
  }

  lemma DayAndMonth(t: Time)
    requires OnCalendar(t)
    ensures var day, month := WEEKDAYS[t.weekday], MONTHS[t.month];
      |day| == |month| == 3 && '\r' !in day && '\r' !in month && !IsSpace(day[0])
  {
  }

  lemma DateFacts(t: Time)
    requires OnCalendar(t)
    ensures |GmtDate(t)| <= 35 && '\r' !in GmtDate(t) && Trimmed(GmtDate(t))
  {
    DayAndMonth(t);
    DecimalLengthIff(t.year, 10);
    assert PowerOfTen(10) == 10_000_000_000;
    AtoiDecimal(t.year);
    hide Decimal, Atoi, DigitsValue, PowerOfTen;
    var day, date := WEEKDAYS[t.weekday], GmtDate(t);
    assert date[0] == day[0] && date[|date| - 1] == 'T';
  }

  lemma SignedIsShort(n: int)
    requires -0x8000_0000 <= n < 0x8000_0000
    ensures |Signed(n)| <= 11
  {
    DecimalLengthIff(if n < 0 then -n else n, 10);
    assert PowerOfTen(10) == 10_000_000_000;
  }

  /**
   With the phrases of the table, a clock reading and the integer widths of the code the head
   always fits its buffer, is accepted by the library's own parser and declares the length of its
   body; and the error page fits. Only the status 506 is looked up past the end of the table.
   */
  lemma HeadAlwaysFits(status: int, t: Time, body: string)
    requires -0x8000_0000 <= status < 0x8000_0000 && OnCalendar(t) && |body| < 0x1_0000_0000_0000_0000
    ensures InTable(status) <==> status != 506
    ensures status != 506 ==>
      && (var head := Head(status, Reason(status), GmtDate(t), |body|); var eol := FindCrlf(head);
          && |head| < FORMAT_BUFFER && eol >= 0
          && ParseHeaders(NO_HEADERS, head[eol + 2..]).1 == 0
          && Atoi(Lookup(ParseHeaders(NO_HEADERS, head[eol + 2..]).0.fields, "Content-Length")) == |body|)
      && |ErrorPage(status, Reason(status))| < FORMAT_BUFFER
  {
    hide Head, ParseHeaders, Reason, ErrorPage, Atoi;
    if status != 506 {
      ReasonIsPhrase(status);
      DateFacts(t);
      SignedIsShort(status);
      DecimalLengthIff(|body|, 20);
      assert PowerOfTen(10) == 10_000_000_000;
      assert PowerOfTen(15) == 1_000_000_000_000_000;
      assert PowerOfTen(20) == 100_000_000_000_000_000_000;
      HeadFitsIff(status, Reason(status), GmtDate(t), |body|);
      ErrorPageFitsIff(status, Reason(status));
      HeadDeclaresItsBody(status, Reason(status), GmtDate(t), body);
    }
  }
}
