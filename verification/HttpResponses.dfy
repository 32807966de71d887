/** A response as its client reads it: the status line, the fields and the body come back. */
module HttpResponses {
  import opened Common
  import opened Buffers
  import opened Text
  import opened HttpParse
  import opened HttpRoundTrip
  import opened HttpModel
  import opened HttpHead

  // ------------------------------------------------------------------ the status line

  /** A status line: a version, a status, and a reason, which may hold spaces (section 3.1.2 of RFC 7230). */
  datatype Status = Status(version: string, code: int, reason: string)

  function ReadStatus(line: string): Option<Status> {
    var items := Split(line, ' ');
    if |items| < 3 then None else Some(Status(items[0], Atoi(items[1]), Join(items[2..], ' ')))
  }

  /** atoi undoes printf's %d, negative numbers included. */
  lemma AtoiSigned(n: int)
    ensures Atoi(Signed(n)) == n && ' ' !in Signed(n) && ':' !in Signed(n) && '\r' !in Signed(n)
  {
    AtoiDecimal(if n < 0 then -n else n);
    if n < 0 {
      var d := Decimal(-n);
      assert ("-" + d)[1..] == d;
      assert TrimLeft("-" + d) == "-" + d;
    }
  }

  /** What the text holds before its first CRLF. */
  function FirstLine(text: string): string {
    var eol := FindCrlf(text);
    if eol < 0 then text else text[..eol]
  }

  lemma SplitTwice(a: string, b: string, rest: string, c: char)
    requires c !in a && c !in b
    ensures var items := Split(a + [c] + b + [c] + rest, c);
      |items| > 2 && items[0] == a && items[1] == b && Join(items[2..], c) == rest
  {
    hide Split, Join;
    var more := b + [c] + rest;
    assert a + [c] + b + [c] + rest == a + [c] + more;
    SplitOnce(a, c, more);
    SplitOnce(b, c, rest);
    JoinSplit(rest, c);
    var items := [a] + ([b] + Split(rest, c));
    assert items[2..] == Split(rest, c);
  }

  lemma StatusReads(status: int, reason: string)
    ensures ReadStatus(StatusLine(status, reason)) == Some(Status("HTTP/1.1", status, reason))
  {
    AtoiSigned(status);
    hide Split, Join, Atoi, Signed;
    var text := Signed(status);
    SplitTwice("HTTP/1.1", text, reason, ' ');
    assert "HTTP/1.1" + [' '] + text + [' '] + reason == "HTTP/1.1 " + text + " " + reason;
  }

  lemma NoReturnThere(a: string, t: string, k: nat)
    requires '\r' !in a && k < |a|
    ensures !CrlfAt(a + t, k)
  {
    assert (a + t)[k] == a[k] && a[k] in a;
  }

  /** A first line without returns, then a text that may hold some. */
  lemma {:induction false} FirstLineOn(a: string, b: string, more: string)
    requires '\r' !in a
    ensures FirstLine(a + b + CRLF + more) == a + FirstLine(b + CRLF)
    decreases |a|
  {
    var t := b + CRLF + more;
    assert a + b + CRLF + more == a + t;
    FindCrlfFinds(b + CRLF);
    FindCrlfFinds(t);
    FindCrlfFinds(a + t);
    var i, j, k := FindCrlf(b + CRLF), FindCrlf(t), FindCrlf(a + t);
    assert CrlfAt(b + CRLF, |b|);
    assert forall n: nat :: CrlfAt(b + CRLF, n) ==> CrlfAt(t, n);
    assert j <= i <= |b|;
    assert CrlfAt(b + CRLF, j);
    assert CrlfAt(a + t, |a| + j);
    assert k <= |a| + j;
    assert |a| <= k by { if k < |a| { NoReturnThere(a, t, k); } }
    assert CrlfAt(t, k - |a|);
    assert (a + t)[..k] == a + (b + CRLF)[..i];
  }

  /** Of every head flush() formats, for every status and reason: its first line reads back as them. */
  lemma HeadsFirstLineReads(status: int, reason: string, date: string, length: nat)
    ensures ReadStatus(FirstLine(Head(status, reason, date, length))) ==
      Some(Status("HTTP/1.1", status, FirstLine(reason + CRLF)))
  {
    AtoiSigned(status);
    var start := "HTTP/1.1 " + Signed(status) + " ";
    var more := Unlines(["Server: cppsvr", "Date: " + date, "Content-Type: " + CONTENT_TYPE,
                         "Content-Length: " + Decimal(length), ""]);
    FirstLineOn(start, reason, more);
    assert Head(status, reason, date, length) == start + reason + CRLF + more;
    StatusReads(status, FirstLine(reason + CRLF));
  }

  // ----------------------------------------------------------------- the whole response

  datatype Response = Response(status: Status, fields: map<string, string>, body: string)

  /** A response: a status line, fields up to the first blank line, and the rest. */
  function ReadResponse(text: string): Option<Response> {
    var eol, end := FindCrlf(text), Find(text, BLANK);
    if eol < 0 || end < eol then None
    else
      var status := ReadStatus(text[..eol]);
      var (h, ret) := ParseHeaders(NO_HEADERS, text[eol + 2..end + 4]);
      if status.None? || ret != 0 then None else Some(Response(status.value, h.fields, text[end + 4..]))
  }

  /** The fields of every response of the library. */
  function Fields(date: string, length: nat): map<string, string> {
    map["Server" := "cppsvr", "Date" := date, "Content-Type" := "text/html; charset=utf-8",
        "Content-Length" := Decimal(length)]
  }

  lemma BindFour(m: map<string, string>, a: Pair, b: Pair, c: Pair, d: Pair)
    ensures Bind(m, [a, b, c, d]) == m[a.key := a.value][b.key := b.value][c.key := c.value][d.key := d.value]
  {
    assert [a, b, c, d][1..] == [b, c, d] && [b, c, d][1..] == [c, d] && [c, d][1..] == [d] && [d][1..] == [];
    var m1 := m[a.key := a.value];
    assert Bind(m, [a, b, c, d]) == Bind(m1, [b, c, d]);
    assert Bind(m1, [b, c, d]) == Bind(m1[b.key := b.value], [c, d]);
    var m3 := m1[b.key := b.value][c.key := c.value];
    assert Bind(m1[b.key := b.value], [c, d]) == Bind(m3, [d]);
    assert Bind(m3, [d]) == Bind(m3[d.key := d.value], []);
  }

  lemma FieldsAre(date: string, length: nat)
    ensures Bind(map[], FieldPairs(HeadFields(date, length))) == Fields(date, length)
  {
    var a, b := Pair("Server", "cppsvr"), Pair("Date", date);
    var c, d := Pair("Content-Type", CONTENT_TYPE), Pair("Content-Length", Decimal(length));
    assert FieldPairs(HeadFields(date, length)) == [a, b, c, d];
    hide Decimal, Bind, FieldPairs, HeadFields;
    BindFour(map[], a, b, c, d);
  }

  lemma FieldsParseBack(date: string, length: nat)
    requires '\r' !in date && Trimmed(date)
    ensures var (h, ret) := ParseHeaders(NO_HEADERS, Unlines(AllLines(HeadFields(date, length)) + [""]));
      ret == 0 && h.fields == Fields(date, length)
  {
    HeadLines(date, length);
    PlainHeadParses(HeadFields(date, length));
    FieldsAre(date, length);
  }

  lemma HeadText(line: string, lines: seq<string>)
    ensures line + CRLF + Unlines(lines + [""]) == Unlines([line] + lines) + CRLF
  {
    UnlinesPush(lines, "");
    assert ([line] + lines)[1..] == lines;
    assert Unlines([line] + lines) == line + CRLF + Unlines(lines);
  }

  /** The first blank line of a response ends its head, whatever the body. */
  lemma HeadEnds(status: int, reason: string, date: string, length: nat, body: string)
    requires '\r' !in reason && '\r' !in date && Trimmed(date)
    ensures var head := Head(status, reason, date, length); 4 <= |head| && Find(head + body, BLANK) == |head| - 4
  {
    var line, fields := StatusLine(status, reason), HeadFields(date, length);
    var lines, head := AllLines(fields), Head(status, reason, date, length);
    StatusLineHasNoReturn(status, reason);
    HeadLines(date, length);
    HeadIsPrinted(status, reason, date, length);
    LinesClean(fields);
    LinesFull(fields);
    assert line != "";
    hide Head, StatusLine, AllLines, Unlines, Find, HeadFields;
    HeadText(line, lines);
    LinesEndFirst([line] + lines, body);
    FirstIsFound(head + body, BLANK, |head| - 4);
  }

  /**
   The round trip of a response: what its client reads is the version, the status and reason given, the
   four fields with the length of the body, and exactly the body.
   */
  lemma ResponseReads(status: int, reason: string, date: string, body: string)
    requires '\r' !in reason && '\r' !in date && Trimmed(date)
    ensures ReadResponse(Head(status, reason, date, |body|) + body) ==
      Some(Response(Status("HTTP/1.1", status, reason), Fields(date, |body|), body))
  {
    var head, line := Head(status, reason, date, |body|), StatusLine(status, reason);
    var rest := Unlines(AllLines(HeadFields(date, |body|)) + [""]);
    var text := head + body;
    StatusLineHasNoReturn(status, reason);
    HeadIsPrinted(status, reason, date, |body|);
    HeadEnds(status, reason, date, |body|, body);
    FieldsParseBack(date, |body|);
    StatusReads(status, reason);
    hide Head, StatusLine, ParseHeaders, Find, ReadStatus, Unlines, AllLines;
    assert text == line + CRLF + (rest + body);
    FindCrlfFirst(line, rest + body);
    assert text[..|line|] == line;
    assert text[|line| + 2..|head|] == rest;
    assert text[|head|..] == body;
  }

  lemma HeadAloneReads(line: string)
    requires '\r' !in line && ReadStatus(line).Some?
    ensures ReadResponse(line + CRLF + CRLF) == Some(Response(ReadStatus(line).value, map[], ""))
  {
    var text := line + CRLF + CRLF;
    FindCrlfFirst(line, CRLF);
    BlankAfterLastLine(line, "");
    assert text + "" == text;
    FirstIsFound(text, BLANK, |line|);
    NoFieldsParse();
    hide ReadStatus, ParseHeaders, FindCrlf, Find;
    assert text[..|line|] == line && text[|line| + 2..|line| + 4] == CRLF && text[|line| + 4..] == "";
  }

  /** What goes out before it to a client that expects it reads as a 100 without fields. */
  lemma ContinueReads()
    ensures ReadResponse(CONTINUE) == Some(Response(Status("HTTP/1.1", 100, "(Continue)"), map[], ""))
  {
    var line := "HTTP/1.1 100 (Continue)";
    OneHundred();
    StatusReads(100, "(Continue)");
    hide ReadStatus, ReadResponse, StatusLine;
    HeadAloneReads(line);
  }

  lemma OneHundred()
    ensures StatusLine(100, "(Continue)") == "HTTP/1.1 100 (Continue)" && '\r' !in "HTTP/1.1 100 (Continue)"
    ensures CONTINUE == "HTTP/1.1 100 (Continue)" + CRLF + CRLF
  {
    assert Decimal(1) == "1" && Decimal(10) == "10" && Decimal(100) == "100";
  }

  lemma NoFieldsParse()
    ensures ParseHeaders(NO_HEADERS, CRLF) == (NO_HEADERS, 0)
  {
    assert CRLF[..0] == "" && CRLF[2..] == "";
    assert Lines(CRLF) == [""] + Lines("");
    assert [""][1..] == [];
  }

  // --------------------------------------------------------------------- the error page

  /** An error page: the status and the reason its title gives. */
  function ReadPage(page: string): Option<(int, string)> {
    var open, close := "<html><title>", "</title>";
    if !StartsWith(page, open) || |page| < |open| + |close| || page[|page| - |close|..] != close then None
    else
      var title := page[|open|..|page| - |close|];
      var items := Split(title, ':');
      if |items| < 2 then None else Some((Atoi(items[0]), TrimLeft(Join(items[1..], ':'))))
  }

  lemma TitleCut(text: string, reason: string)
    ensures var page, title := "<html><title>" + text + ": " + reason + "</title>", text + ": " + reason;
      && |page| == 13 + |title| + 8 && StartsWith(page, "<html><title>")
      && page[|page| - 8..] == "</title>" && page[13..|page| - 8] == title
  {
    var title := text + ": " + reason;
    var page := "<html><title>" + text + ": " + reason + "</title>";
    assert page == "<html><title>" + title + "</title>";
  }

  lemma TitleSplits(text: string, reason: string)
    requires ':' !in text
    ensures var items := Split(text + ": " + reason, ':');
      |items| >= 2 && items[0] == text && Join(items[1..], ':') == " " + reason
  {
    assert text + ": " + reason == text + [':'] + (" " + reason);
    SplitOnce(text, ':', " " + reason);
    JoinSplit(" " + reason, ':');
    assert ([text] + Split(" " + reason, ':'))[1..] == Split(" " + reason, ':');
  }

  lemma PageReads(status: int, reason: string)
    requires Trimmed(reason)
    ensures ReadPage(ErrorPage(status, reason)) == Some((status, reason))
  {
    AtoiSigned(status);
    TrimTrimmed(reason);
    var text := Signed(status);
    var title := text + ": " + reason;
    hide Split, Join, Atoi, Signed, TrimLeft;
    TitleCut(text, reason);
    TitleSplits(text, reason);
  }

  // --------------------------------------------------------------------------- the date

  lemma TwoDigitsRead(n: nat)
    requires n < 100
    ensures var d := TwoDigits(n); |d| == 2 && Atoi(d) == n && ' ' !in d && ':' !in d
  {
    var a, b := n / 10, n % 10;
    DigitChar(a);
    DigitChar(b);
    var d := TwoDigits(n);
    assert d[1..] == [d[1]] && [d[1]][1..] == "";
    assert DigitsValue(d, 0) == DigitsValue(d[1..], a);
    assert DigitsValue([d[1]], a) == DigitsValue("", a * 10 + b);
  }

  lemma NamesHaveNoSpace(t: Time)
    requires OnCalendar(t)
    ensures ' ' !in WEEKDAYS[t.weekday] && ' ' !in MONTHS[t.month]
  {
  }

  lemma ClockReads(hour: nat, minute: nat, second: nat)
    requires hour < 100 && minute < 100 && second < 100
    ensures var clock := TwoDigits(hour) + ":" + TwoDigits(minute) + ":" + TwoDigits(second);
      ' ' !in clock && Split(clock, ':') == [TwoDigits(hour), TwoDigits(minute), TwoDigits(second)]
  {
    TwoDigitsRead(hour);
    TwoDigitsRead(minute);
    TwoDigitsRead(second);
    hide TwoDigits, Split, Atoi;
    var a, b, c := TwoDigits(hour), TwoDigits(minute), TwoDigits(second);
    assert a + ":" + b + ":" + c == a + [':'] + (b + [':'] + c);
    SplitOnce(a, ':', b + [':'] + c);
    SplitOnce(b, ':', c);
    SplitOnce(c, ':', "");
  }

  lemma {:induction false} SplitPush(text: string, piece: string, c: char)
    requires c !in piece
    ensures Split(text + [c] + piece, c) == Split(text, c) + [piece]
    decreases |text|
  {
    var i := IndexOf(text, c);
    IndexOfIsFirst(text, c);
    var first := text[..i];
    if i == |text| {
      SplitOnce(text, c, piece);
      SplitOnce(piece, c, "");
    } else {
      var rest := text[i + 1..];
      assert text + [c] + piece == first + [c] + (rest + [c] + piece) && text == first + [c] + rest;
      SplitOnce(first, c, rest + [c] + piece);
      SplitOnce(first, c, rest);
      SplitPush(rest, piece, c);
    }
  }

  /** Six pieces, joined by spaces. */
  lemma SixPieces(a: string, b: string, c: string, d: string, e: string, f: string)
    requires ' ' !in a && ' ' !in b && ' ' !in c && ' ' !in d && ' ' !in e && ' ' !in f
    ensures Split(a + " " + b + " " + c + " " + d + " " + e + " " + f, ' ') == [a, b, c, d, e, f]
  {
    hide Split;
    SplitOnce(a, ' ', "");
    var t1 := a + [' '] + b;
    SplitPush(a, b, ' ');
    var t2 := t1 + [' '] + c;
    SplitPush(t1, c, ' ');
    var t3 := t2 + [' '] + d;
    SplitPush(t2, d, ' ');
    var t4 := t3 + [' '] + e;
    SplitPush(t3, e, ' ');
    SplitPush(t4, f, ' ');
  }

  function Clock(t: Time): string
    requires OnCalendar(t)
  {
    TwoDigits(t.hour) + ":" + TwoDigits(t.minute) + ":" + TwoDigits(t.second)
  }

  /** The pieces of the date of a response: the names of the day and the month are those of the calendar. */
  lemma DateSplits(t: Time)
    requires OnCalendar(t)
    ensures Split(GmtDate(t), ' ') ==
      [WEEKDAYS[t.weekday] + ",", TwoDigits(t.day), MONTHS[t.month], Decimal(t.year), Clock(t), "GMT"]
  {
    NamesHaveNoSpace(t);
    TwoDigitsRead(t.day);
    ClockReads(t.hour, t.minute, t.second);
    AtoiDecimal(t.year);
    hide TwoDigits, Split, Atoi, Decimal, DigitsValue;
    var a, b, c, d := WEEKDAYS[t.weekday], TwoDigits(t.day), MONTHS[t.month], Decimal(t.year);
    DateText(a, b, c, d, TwoDigits(t.hour), TwoDigits(t.minute), TwoDigits(t.second));
    SixPieces(a + ",", b, c, d, Clock(t), "GMT");
  }

  predicate SayTime(clock: seq<string>, t: Time) {
    |clock| == 3 && Atoi(clock[0]) == t.hour && Atoi(clock[1]) == t.minute && Atoi(clock[2]) == t.second
  }

  /** What the numbers among such pieces say. */
  predicate SayDate(items: seq<string>, t: Time) {
    |items| == 6 && Atoi(items[1]) == t.day && Atoi(items[3]) == t.year && SayTime(Split(items[4], ':'), t)
  }

  lemma ClockSays(t: Time)
    requires OnCalendar(t)
    ensures SayTime(Split(Clock(t), ':'), t)
  {
    TwoDigitsRead(t.hour);
    TwoDigitsRead(t.minute);
    TwoDigitsRead(t.second);
    hide TwoDigits, Split, Atoi;
    ClockReads(t.hour, t.minute, t.second);
  }

  lemma PiecesSay(a: string, c: string, f: string, t: Time)
    requires OnCalendar(t)
    ensures SayDate([a, TwoDigits(t.day), c, Decimal(t.year), Clock(t), f], t)
  {
    TwoDigitsRead(t.day);
    DecimalReads(t.year);
    ClockSays(t);
    hide TwoDigits, Split, Atoi, Decimal, Clock, SayTime;
  }

  lemma DecimalReads(n: nat)
    ensures Atoi(Decimal(n)) == n
  {
    AtoiDecimal(n);
  }

  /** And its numbers read back: day, year, and the time of day, in that order. */
  lemma DateReads(t: Time)
    requires OnCalendar(t)
    ensures SayDate(Split(GmtDate(t), ' '), t)
  {
    hide TwoDigits, Split, Decimal, GmtDate, SayDate, Clock;
    DateSplits(t);
    PiecesSay(WEEKDAYS[t.weekday] + ",", MONTHS[t.month], "GMT", t);
  }

  lemma DateText(a: string, b: string, c: string, d: string, h: string, m: string, s: string)
    ensures a + ", " + b + " " + c + " " + d + " " + h + ":" + m + ":" + s + " GMT" ==
      (a + ",") + " " + b + " " + c + " " + d + " " + (h + ":" + m + ":" + s) + " " + "GMT"
  {
    var front := a + "," + " " + b + " " + c + " " + d + " ";
    assert a + ", " + b + " " + c + " " + d + " " == front by { assert a + ", " == a + "," + " "; }
    var clock := h + ":" + m + ":" + s;
    assert front + h + ":" + m + ":" + s == front + clock;
    assert front + clock + " GMT" == front + clock + " " + "GMT";
  }
}
