/**
 Printing a request head (the start line of section 3.1.1 of RFC 7230, fields folded as in its
 section 3.2.4) and parsing it again.
 */
module HttpRoundTrip {
  import opened Common
  import opened Buffers
  import opened Text
  import opened HttpParse

  datatype Pair = Pair(key: string, value: string)

  /** A header field: its first line and its continuation lines. */
  datatype Field = Field(key: string, first: string, more: seq<string>)

  datatype Message = Message(
    verb: string, path: string, query: Option<seq<Pair>>, version: string,
    fields: seq<Field>, cookies: seq<Pair>)

  // --------------------------------------------------------------------- printing

  function Items(pairs: seq<Pair>): (items: seq<string>)
    ensures |items| == |pairs|
  {
    seq(|pairs|, i requires 0 <= i < |pairs| => pairs[i].key + "=" + pairs[i].value)
  }

  /** Cookie items: all but the first are set off by a space. */
  function CookieItems(pairs: seq<Pair>): (items: seq<string>)
    ensures |items| == |pairs|
  {
    seq(|pairs|, i requires 0 <= i < |pairs| => (if i == 0 then "" else " ") + Items(pairs)[i])
  }

  function Continued(more: seq<string>): (lines: seq<string>)
    ensures |lines| == |more|
  {
    seq(|more|, i requires 0 <= i < |more| => " " + more[i])
  }

  function FieldLines(f: Field): seq<string> { [f.key + ": " + f.first] + Continued(f.more) }

  function AllLines(fields: seq<Field>): seq<string> {
    if fields == [] then [] else FieldLines(fields[0]) + AllLines(fields[1..])
  }

  function AllFields(m: Message): seq<Field> {
    m.fields + if m.cookies == [] then [] else [Field("Cookie", Join(CookieItems(m.cookies), ';'), [])]
  }

  function Uri(m: Message): string
    requires m.query.Some? ==> m.query.value != []
  {
    if m.query.None? then m.path else Join([m.path, Join(Items(m.query.value), '&')], '?')
  }

  function Print(m: Message): string
    requires m.query.Some? ==> m.query.value != []
  {
    Join([m.verb, Uri(m), m.version], ' ') + CRLF + Unlines(AllLines(AllFields(m)) + [""])
  }

  // ------------------------------------------------------------ what it should mean

  /** Maps where the last binding of a key wins. */
  function Bind(m: map<string, string>, pairs: seq<Pair>): map<string, string>
    decreases |pairs|
  {
    if pairs == [] then m else Bind(m[pairs[0].key := pairs[0].value], pairs[1..])
  }

  /** The value of a folded field: its lines joined by one space. */
  function Unfolded(value: string, more: seq<string>): string
    decreases |more|
  {
    if more == [] then value else Unfolded(value + " " + more[0], more[1..])
  }

  function FieldPairs(fields: seq<Field>): seq<Pair> {
    seq(|fields|, i requires 0 <= i < |fields| => Pair(fields[i].key, Unfolded(fields[i].first, fields[i].more)))
  }

  function Without(s: string, bad: string): bool { forall c <- bad :: c !in s }

  predicate GoodPair(p: Pair, bad: string) {
    '=' !in p.key && '=' !in p.value && Without(p.key, bad) && Without(p.value, bad)
  }

  predicate GoodField(f: Field) {
    && f.key != "" && f.key[0] != ' ' && Without(f.key, ":\r")
    && Trimmed(f.first) && '\r' !in f.first
    && forall s <- f.more :: '\r' !in s && (s == "" || !IsSpace(s[0]))
  }

  predicate Good(m: Message) {
    && Without(m.verb, " \r") && Without(m.path, " ?\r") && Without(m.version, " \r")
    && StartsWith(m.version, "HTTP/")
    && (m.query.Some? ==> m.query.value != [] && forall p <- m.query.value :: GoodPair(p, " ?&\r"))
    && (forall f <- m.fields :: GoodField(f))
    && (forall p <- m.cookies :: GoodPair(p, ";\r") && Trimmed(p.key + "=" + p.value))
    && (m.cookies == [] ==> forall f <- m.fields :: f.key != "Cookie")
  }

  // --------------------------------------------------------------------- characters

  lemma {:induction false} JoinWithout(parts: seq<string>, c: char, x: char)
    requires |parts| > 0 && c != x && forall p <- parts :: x !in p
    ensures x !in Join(parts, c)
    decreases |parts|
  {
    if |parts| > 1 { JoinWithout(parts[1..], c, x); }
  }

  lemma {:induction false} JoinTrimmed(parts: seq<string>, c: char)
    requires |parts| > 0 && parts[0] != "" && !IsSpace(parts[0][0])
    requires forall p <- parts :: p != "" && !IsSpace(p[|p| - 1])
    ensures Join(parts, c) != "" && Trimmed(Join(parts, c)) && !IsSpace(Join(parts, c)[|Join(parts, c)| - 1])
    decreases |parts|
  {
    if |parts| > 1 {
      var rest := Join(parts[1..], c);
      JoinEnds(parts[1..], c);
      assert Join(parts, c) == parts[0] + [c] + rest;
      assert Join(parts, c)[0] == parts[0][0];
      assert Join(parts, c)[|Join(parts, c)| - 1] == rest[|rest| - 1];
    }
  }

  lemma {:induction false} JoinEnds(parts: seq<string>, c: char)
    requires |parts| > 0 && forall p <- parts :: p != "" && !IsSpace(p[|p| - 1])
    ensures var j := Join(parts, c); j != "" && !IsSpace(j[|j| - 1])
    decreases |parts|
  {
    if |parts| > 1 { JoinEnds(parts[1..], c); }
  }

  // -------------------------------------------------------------------------- pairs

  lemma PairSplits(p: Pair)
    requires '=' !in p.key && '=' !in p.value
    ensures Split(p.key + "=" + p.value, '=') == [p.key, p.value]
  {
    SplitJoin([p.key, p.value], '=');
    assert Join([p.key, p.value], '=') == p.key + ['='] + Join([p.value], '=');
  }

  lemma {:induction false} PairsParse(m: map<string, string>, pairs: seq<Pair>, items: seq<string>, trim: bool)
    requires |items| == |pairs| && forall p <- pairs :: '=' !in p.key && '=' !in p.value
    requires forall i :: 0 <= i < |items| ==>
      (if trim then Trim(items[i]) else items[i]) == pairs[i].key + "=" + pairs[i].value
    ensures ParsePairs(m, items, trim) == (Bind(m, pairs), true)
    decreases |pairs|
  {
    if pairs != [] {
      PairSplits(pairs[0]);
      PairsParse(m[pairs[0].key := pairs[0].value], pairs[1..], items[1..], trim);
    }
  }

  lemma TargetParses(m: Message, r: HttpRequest)
    requires Good(m) && r.arguments == map[] && r.query == ""
    ensures ParseTarget(r, Uri(m)) ==
      (r.(path := m.path,
          query := if m.query.None? then "" else Join(Items(m.query.value), '&'),
          arguments := if m.query.None? then map[] else Bind(map[], m.query.value)), 0)
  {
    assert '?' in " ?\r";
    if m.query.None? {
      SplitOnce(m.path, '?', "");
    } else {
      var pairs := m.query.value;
      var items := Items(pairs);
      forall p <- items ensures '?' !in p && '&' !in p {
        var i :| 0 <= i < |items| && items[i] == p;
        assert GoodPair(pairs[i], " ?&\r") && '?' in " ?&\r" && '&' in " ?&\r";
      }
      JoinWithout(items, '&', '?');
      SplitJoin([m.path, Join(items, '&')], '?');
      SplitJoin(items, '&');
      PairsParse(map[], pairs, items, false);
    }
  }

  lemma UriClean(m: Message, x: char)
    requires Good(m) && (x == ' ' || x == '\r')
    ensures x !in Uri(m)
  {
    assert x in " ?\r";
    if m.query.Some? {
      var items := Items(m.query.value);
      forall p <- items ensures x !in p {
        var i :| 0 <= i < |items| && items[i] == p;
        assert GoodPair(m.query.value[i], " ?&\r") && x in " ?&\r";
      }
      JoinWithout(items, '&', x);
      JoinWithout([m.path, Join(items, '&')], '?', x);
    }
  }

  // ------------------------------------------------------------------------- fields

  lemma {:induction false} ContinuationsParse(h: Headers, more: seq<string>, rest: seq<string>)
    requires h.lastKey != "" && h.lastKey in h.fields && h.fields[h.lastKey] == h.lastValue
    requires forall s <- more :: s == "" || !IsSpace(s[0])
    ensures var v := Unfolded(h.lastValue, more);
      ParseLines(h, Continued(more) + rest) ==
      ParseLines(h.(lastValue := v, fields := h.fields[h.lastKey := v]), rest)
    decreases |more|
  {
    if more == [] {
      assert Continued(more) + rest == rest;
      assert h.fields[h.lastKey := h.lastValue] == h.fields;
    } else {
      var line, v := " " + more[0], h.lastValue + " " + more[0];
      var lines := Continued(more) + rest;
      assert lines[0] == line && lines[1..] == Continued(more[1..]) + rest;
      assert more[0] in more;
      assert line[1..] == more[0];
      assert TrimLeft(line) == TrimLeft(more[0]) == more[0];
      var h' := ParseLine(h, line).0;
      assert h' == h.(lastValue := v, fields := h.fields[h.lastKey := v]);
      ContinuationsParse(h', more[1..], rest);
      var w := Unfolded(v, more[1..]);
      assert h'.fields[h.lastKey := w] == h.fields[h.lastKey := w];
    }
  }

  lemma FieldParses(h: Headers, f: Field, rest: seq<string>)
    requires GoodField(f)
    ensures var v := Unfolded(f.first, f.more);
      ParseLines(h, FieldLines(f) + rest) ==
      ParseLines(h.(lastKey := f.key, lastValue := v, fields := h.fields[f.key := v]), rest)
  {
    var line := f.key + ": " + f.first;
    var lines := FieldLines(f) + rest;
    assert lines[0] == line && lines[1..] == Continued(f.more) + rest;
    assert ':' in ":\r";
    assert line == f.key + [':'] + (" " + f.first);
    IndexOfFirst(f.key, ':', " " + f.first);
    assert line[..|f.key|] == f.key && line[|f.key| + 1..] == " " + f.first;
    TrimTrimmed(f.first);
    var h' := ParseLine(h, line).0;
    assert h' == h.(lastKey := f.key, lastValue := f.first, fields := h.fields[f.key := f.first]);
    ContinuationsParse(h', f.more, rest);
    var v := Unfolded(f.first, f.more);
    assert h'.fields[f.key := v] == h.fields[f.key := v];
  }

  lemma {:induction false} FieldsParse(h: Headers, fields: seq<Field>)
    requires forall f <- fields :: GoodField(f)
    ensures var (h', ret) := ParseLines(h, AllLines(fields) + [""]);
      ret == 0 && h'.fields == Bind(h.fields, FieldPairs(fields)) && h'.cookies == h.cookies
    decreases |fields|
  {
    if fields == [] {
      assert AllLines(fields) + [""] == [""];
      assert ParseLines(h, [""]) == ParseLines(h, [""][1..]);
    } else {
      var f, rest := fields[0], AllLines(fields[1..]) + [""];
      assert AllLines(fields) + [""] == FieldLines(f) + rest;
      FieldParses(h, f, rest);
      var v := Unfolded(f.first, f.more);
      FieldsParse(h.(lastKey := f.key, lastValue := v, fields := h.fields[f.key := v]), fields[1..]);
      assert FieldPairs(fields)[1..] == FieldPairs(fields[1..]);
    }
  }

  lemma {:induction false} LinesClean(fields: seq<Field>)
    requires forall f <- fields :: GoodField(f)
    ensures forall l <- AllLines(fields) :: '\r' !in l
    decreases |fields|
  {
    if fields != [] {
      var f := fields[0];
      assert GoodField(f);
      assert ":\r"[1] == '\r' && '\r' !in f.key;
      forall i | 0 <= i < |f.more| ensures '\r' !in Continued(f.more)[i] { assert f.more[i] in f.more; }
      LinesClean(fields[1..]);
    }
  }

  // ------------------------------------------------------------------------ cookies

  lemma CookieItemFacts(pairs: seq<Pair>, i: nat)
    requires i < |pairs| && GoodPair(pairs[i], ";\r") && Trimmed(pairs[i].key + "=" + pairs[i].value)
    ensures var item, plain := CookieItems(pairs)[i], Items(pairs)[i];
      && item != "" && !IsSpace(item[|item| - 1]) && '\r' !in item && ';' !in item
      && Trim(item) == plain && plain != "" && !IsSpace(plain[0])
  {
    assert ";\r"[0] == ';' && ";\r"[1] == '\r';
    TrimTrimmed(Items(pairs)[i]);
  }

  /** Every printed cookie item is clean and trims to its plain form. */
  lemma CookieItemsFacts(m: Message)
    requires Good(m)
    ensures forall p <- CookieItems(m.cookies) :: p != "" && !IsSpace(p[|p| - 1]) && '\r' !in p && ';' !in p
    ensures forall i :: 0 <= i < |m.cookies| ==> Trim(CookieItems(m.cookies)[i]) == Items(m.cookies)[i]
    ensures m.cookies != [] ==> !IsSpace(CookieItems(m.cookies)[0][0])
  {
    hide Trim, Trimmed, GoodField;
    var items := CookieItems(m.cookies);
    forall i | 0 <= i < |items|
      ensures items[i] != "" && !IsSpace(items[i][|items[i]| - 1]) && '\r' !in items[i] && ';' !in items[i]
      ensures Trim(items[i]) == Items(m.cookies)[i]
      ensures Items(m.cookies)[i] != "" && !IsSpace(Items(m.cookies)[i][0])
    {
      assert m.cookies[i] in m.cookies;
      CookieItemFacts(m.cookies, i);
    }
    if m.cookies != [] { assert items[0] == Items(m.cookies)[0]; }
  }

  /** The text of the cookie line, from the facts of its items. */
  lemma CookieText(items: seq<string>)
    requires items != [] && !(items[0] != "" && IsSpace(items[0][0]))
    requires forall p <- items :: p != "" && !IsSpace(p[|p| - 1]) && '\r' !in p && ';' !in p
    ensures var text := Join(items, ';'); text != "" && Trimmed(text) && '\r' !in text && Split(text, ';') == items
  {
    JoinTrimmed(items, ';');
    JoinWithout(items, ';', '\r');
    SplitJoin(items, ';');
  }

  lemma CookiesParse(m: Message)
    requires Good(m)
    ensures ParsePairs(map[], CookieItems(m.cookies), true) == (Bind(map[], m.cookies), true)
  {
    CookieItemsFacts(m);
    hide Trim, CookieItems, GoodField, Trimmed, Without;
    PairsParse(map[], m.cookies, CookieItems(m.cookies), true);
  }

  lemma CookieFacts(m: Message)
    requires Good(m) && m.cookies != []
    ensures var items := CookieItems(m.cookies); var text := Join(items, ';');
      && text != "" && Trimmed(text) && '\r' !in text && Split(text, ';') == items
      && ParsePairs(map[], items, true) == (Bind(map[], m.cookies), true)
  {
    hide *;
    CookieItemsFacts(m);
    CookieText(CookieItems(m.cookies));
    CookiesParse(m);
  }

  lemma {:induction false} BindKeys(m: map<string, string>, pairs: seq<Pair>, key: string)
    requires key !in m && forall p <- pairs :: p.key != key
    ensures key !in Bind(m, pairs)
    decreases |pairs|
  {
    if pairs != [] { BindKeys(m[pairs[0].key := pairs[0].value], pairs[1..], key); }
  }

  lemma {:induction false} BindLast(m: map<string, string>, pairs: seq<Pair>, p: Pair)
    ensures p.key in Bind(m, pairs + [p]) && Bind(m, pairs + [p])[p.key] == p.value
    decreases |pairs|
  {
    if pairs == [] {
      assert pairs + [p] == [p];
      assert Bind(m, [p]) == Bind(m[p.key := p.value], [p][1..]);
    } else {
      assert (pairs + [p])[1..] == pairs[1..] + [p];
      BindLast(m[pairs[0].key := pairs[0].value], pairs[1..], p);
    }
  }

  lemma NoCookieField(fields: seq<Field>)
    requires forall f <- fields :: f.key != "Cookie"
    ensures "Cookie" !in Bind(map[], FieldPairs(fields))
  {
    var pairs := FieldPairs(fields);
    forall p <- pairs ensures p.key != "Cookie" {
      var i :| 0 <= i < |pairs| && pairs[i] == p;
      assert fields[i] in fields;
    }
    BindKeys(map[], pairs, "Cookie");
  }

  lemma LastField(fields: seq<Field>, key: string, text: string)
    ensures var m := Bind(map[], FieldPairs(fields + [Field(key, text, [])])); key in m && m[key] == text
  {
    assert Unfolded(text, []) == text;
    assert FieldPairs(fields + [Field(key, text, [])]) == FieldPairs(fields) + [Pair(key, text)];
    BindLast(map[], FieldPairs(fields), Pair(key, text));
  }

  lemma CookieField(m: Message)
    requires Good(m)
    ensures var fields := Bind(map[], FieldPairs(AllFields(m)));
      Lookup(fields, "Cookie") == if m.cookies == [] then "" else Join(CookieItems(m.cookies), ';')
  {
    if m.cookies == [] {
      assert AllFields(m) == m.fields;
      NoCookieField(m.fields);
    } else {
      LastField(m.fields, "Cookie", Join(CookieItems(m.cookies), ';'));
    }
  }

  lemma FieldsGood(m: Message)
    requires Good(m)
    ensures forall f <- AllFields(m) :: GoodField(f)
  {
    if m.cookies != [] {
      CookieFacts(m);
      assert forall c <- ":\r" :: c !in "Cookie";
      assert GoodField(Field("Cookie", Join(CookieItems(m.cookies), ';'), []));
    }
  }

  lemma HeadersParse(m: Message)
    requires Good(m)
    ensures var (h, ret) := ParseHeaders(NO_HEADERS, Unlines(AllLines(AllFields(m)) + [""]));
      && ret == 0
      && h.fields == Bind(map[], FieldPairs(AllFields(m)))
      && h.cookies == Bind(map[], m.cookies)
  {
    var fields := AllFields(m);
    CookieField(m);
    FieldsGood(m);
    LinesClean(fields);
    LinesOfUnlines(AllLines(fields) + [""]);
    FieldsParse(NO_HEADERS, fields);
    if m.cookies != [] { CookieFacts(m); }
  }

  /** The first line of a printed head: where it ends, and its three items. */
  lemma FirstLineParses(m: Message)
    requires Good(m)
    ensures var line, data := Join([m.verb, Uri(m), m.version], ' '), Print(m);
      && FindCrlf(data) == |line| && data[..|line|] == line
      && data[|line| + 2..] == Unlines(AllLines(AllFields(m)) + [""])
      && Split(line, ' ') == [m.verb, Uri(m), m.version]
  {
    var start := [m.verb, Uri(m), m.version];
    var line, rest := Join(start, ' '), Unlines(AllLines(AllFields(m)) + [""]);
    UriClean(m, ' ');
    UriClean(m, '\r');
    assert " \r"[0] == ' ' && " \r"[1] == '\r';
    SplitJoin(start, ' ');
    JoinWithout(start, ' ', '\r');
    FindCrlfFirst(line, rest);
    assert Print(m)[..|line|] == line && Print(m)[|line| + 2..] == rest;
  }

  /**
   The round trip: parsing a printed request head succeeds and recovers the verb, the path, the
   query, the version, the arguments, the unfolded header fields and the cookies, the last
   binding of a repeated key winning.
   */
  lemma ParsePrint(m: Message)
    requires Good(m)
    ensures var (r, ret) := ParseRequest(NO_REQUEST, Print(m));
      && ret == 0
      && r.verb == m.verb && r.path == m.path && r.version == m.version
      && (m.query.None? ==> r.query == "" && r.arguments == map[])
      && (m.query.Some? ==>
            r.query == Join(Items(m.query.value), '&') && r.arguments == Bind(map[], m.query.value))
      && r.headers.fields == Bind(map[], FieldPairs(AllFields(m)))
      && r.headers.cookies == Bind(map[], m.cookies)
  {
    assert m.query.Some? ==> m.query.value != [];
    assert StartsWith(m.version, "HTTP/");
    hide Good, Print, Join, Split, Unlines, ParseTarget, ParseHeaders, FindCrlf;
    FirstLineParses(m);
    TargetParses(m, NO_REQUEST.(verb := m.verb, version := m.version));
    HeadersParse(m);
  }

  // ------------------------------------------------------------- where a head ends

  const BLANK := CRLF + CRLF

  /** The first match of `d` in `s`. */
  ghost predicate FirstAt(s: string, d: string, k: nat) {
    MatchAt(s, d, k) && forall j: nat :: j < k ==> !MatchAt(s, d, j)
  }

  lemma FirstIsFound(s: string, d: string, k: nat)
    requires s != "" && FirstAt(s, d, k)
    ensures Find(s, d) == k
  {
    FindFromIsFirst(s, d, 0);
  }

  lemma BlankAt(s: string, j: nat)
    ensures MatchAt(s, BLANK, j) <==> j + 4 <= |s| && s[j] == s[j + 2] == '\r' && s[j + 1] == s[j + 3] == '\n'
  {
    if j + 4 <= |s| { MatchByCharacters(s, BLANK, j); }
  }

  /** Putting a line before a text moves its first blank line along. */
  lemma BlankAfterLine(line: string, rest: string, k: nat)
    requires '\r' !in line && rest != "" && rest[0] != '\r' && FirstAt(rest, BLANK, k)
    ensures FirstAt(line + CRLF + rest, BLANK, |line| + 2 + k)
  {
    var s := line + CRLF + rest;
    assert s[|line| + 2..] == rest;
    forall j: nat | j <= |line| + 2 + k ensures MatchAt(s, BLANK, j) <==> j == |line| + 2 + k {
      BlankAt(s, j);
      if j < |line| {
        assert s[j] == line[j];
      } else if j >= |line| + 2 {
        BlankAt(rest, j - |line| - 2);
        assert MatchAt(rest, BLANK, j - |line| - 2) <==> j - |line| - 2 == k;
      }
    }
  }

  lemma BlankAfterLastLine(line: string, more: string)
    requires '\r' !in line
    ensures FirstAt(line + CRLF + CRLF + more, BLANK, |line|)
  {
    var s := line + CRLF + CRLF + more;
    forall j: nat | j <= |line| ensures MatchAt(s, BLANK, j) <==> j == |line| {
      BlankAt(s, j);
      if j < |line| { assert s[j] == line[j]; }
    }
  }

  /** Non-empty lines without returns end in the first blank line of what they begin. */
  lemma {:induction false} LinesEndFirst(lines: seq<string>, more: string)
    requires lines != [] && forall l <- lines :: l != "" && '\r' !in l
    ensures 2 <= |Unlines(lines)| && FirstAt(Unlines(lines) + CRLF + more, BLANK, |Unlines(lines)| - 2)
    decreases |lines|
  {
    var rest := Unlines(lines[1..]) + CRLF + more;
    assert lines[0] in lines;
    assert Unlines(lines) + CRLF + more == lines[0] + CRLF + rest;
    if |lines| == 1 {
      assert Unlines(lines) + CRLF + more == lines[0] + CRLF + CRLF + more;
      BlankAfterLastLine(lines[0], more);
    } else {
      forall l <- lines[1..] ensures l != "" && '\r' !in l { assert l in lines; }
      LinesEndFirst(lines[1..], more);
      assert lines[1] in lines && rest[0] == lines[1][0];
      BlankAfterLine(lines[0], rest, |Unlines(lines[1..])| - 2);
    }
  }

  lemma {:induction false} LinesFull(fields: seq<Field>)
    ensures forall l <- AllLines(fields) :: l != ""
    decreases |fields|
  {
    if fields != [] { LinesFull(fields[1..]); }
  }

  lemma {:induction false} UnlinesPush(lines: seq<string>, line: string)
    ensures Unlines(lines + [line]) == Unlines(lines) + line + CRLF
    decreases |lines|
  {
    if lines == [] {
      assert [line][1..] == [];
      assert Unlines([line]) == line + CRLF + Unlines([line][1..]);
    } else {
      assert (lines + [line])[1..] == lines[1..] + [line];
      UnlinesPush(lines[1..], line);
    }
  }

  lemma PrintedLines(m: Message)
    requires m.query.Some? ==> m.query.value != []
    ensures Print(m) == Unlines([Join([m.verb, Uri(m), m.version], ' ')] + AllLines(AllFields(m))) + CRLF
  {
    var line, lines := Join([m.verb, Uri(m), m.version], ' '), AllLines(AllFields(m));
    UnlinesPush(lines, "");
    assert ([line] + lines)[1..] == lines;
    assert Unlines([line] + lines) == line + CRLF + Unlines(lines);
  }

  lemma StartLine(m: Message)
    requires Good(m)
    ensures var line := Join([m.verb, Uri(m), m.version], ' '); line != "" && '\r' !in line
  {
    UriClean(m, '\r');
    assert " \r"[1] == '\r';
    JoinWithout([m.verb, Uri(m), m.version], ' ', '\r');
  }

  /** A printed head holds no blank line before its end, whatever follows it. */
  lemma HeadEndsFirst(m: Message, more: string)
    requires Good(m)
    ensures 4 <= |Print(m)| && FirstAt(Print(m) + more, BLANK, |Print(m)| - 4)
    ensures Find(Print(m) + more, BLANK) == |Print(m)| - 4
  {
    var lines := [Join([m.verb, Uri(m), m.version], ' ')] + AllLines(AllFields(m));
    PrintedLines(m);
    StartLine(m);
    FieldsGood(m);
    LinesClean(AllFields(m));
    LinesFull(AllFields(m));
    LinesEndFirst(lines, more);
    FirstIsFound(Print(m) + more, BLANK, |Print(m)| - 4);
  }
}
