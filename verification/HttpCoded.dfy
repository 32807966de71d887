/**
 A request in pieces, where the code has reads land: exactly which sizes of pieces let every request
 of its size reach its handler as it was sent.
 */
module HttpCoded {
  import opened Common
  import opened LoopModel
  import opened Buffers
  import opened StreamModel
  import opened StreamFill
  import opened StreamTwins
  import opened Text
  import opened HttpParse
  import opened HttpRoundTrip
  import opened HttpModel
  import opened HttpLifecycle
  import opened HttpClosed
  import opened HttpNotices
  import opened HttpArrival
  import opened HttpPieces
  import opened HttpFill
  import opened HttpEndings
  import opened HttpSplitting
  import opened HttpTwins

  /** What becomes of a connection on which these pieces arrive. */
  function Outcome(s: Stream, fill: Fill, pieces: seq<string>): Server {
    AdvanceAll(Accepted(s, fill, WouldBlock), fill, Moments(pieces))
  }

  // -------------------------------------------------------------------- other requests

  /** The same message with another first character to its verb. */
  function Renamed(m: Message, c: char): Message
    requires m.verb != ""
  {
    m.(verb := [c] + m.verb[1..])
  }

  lemma RenamedIsGood(m: Message, c: char)
    requires Good(m) && m.verb != "" && c != ' ' && c != '\r'
    ensures Good(Renamed(m, c))
  {
    assert forall x <- " \r" :: x !in m.verb;
    forall x <- " \r" ensures x !in Renamed(m, c).verb { }
  }

  lemma RenamedPrints(m: Message, c: char)
    requires Good(m) && m.verb != ""
    ensures SameBut(Print(m), Print(Renamed(m, c)), 0) && Print(Renamed(m, c))[0] == c
  {
    var r := Renamed(m, c);
    assert AllFields(r) == AllFields(m) && Uri(r) == Uri(m);
    var more := " " + Join([Uri(m), m.version], ' ');
    assert [m.verb, Uri(m), m.version][1..] == [Uri(m), m.version] == [r.verb, Uri(m), m.version][1..];
    assert Join([m.verb, Uri(m), m.version], ' ') == m.verb + more;
    assert Join([r.verb, Uri(m), m.version], ' ') == r.verb + more;
  }

  /** It is parsed into the same request, but for the verb. */
  lemma RenamedMeans(m: Message, c: char)
    requires m.verb != "" && Good(m) && Good(Renamed(m, c))
    ensures Meant(Renamed(m, c)).verb == Renamed(m, c).verb && Meant(m).verb == m.verb
    ensures Meant(Renamed(m, c)).headers.fields == Meant(m).headers.fields
  {
    hide Good, ParseRequest, Print;
    ParsePrint(m);
    ParsePrint(Renamed(m, c));
  }

  /** A form of any length from two on, begun with this key. */
  function FormOf(key: char, n: nat): string
    requires n >= 2
  {
    [key, '='] + seq(n - 2, _ => 'a')
  }

  lemma FormOfParses(key: char, n: nat)
    requires n >= 2 && key != '=' && key != '&'
    ensures ParsePairs(map[], Split(FormOf(key, n), '&'), false).1
  {
    var body, value := FormOf(key, n), seq(n - 2, _ => 'a');
    SplitOnce(body, '&', "");
    assert body == [key] + "=" + value;
    PairsParse(map[], [Pair([key], value)], [body], false);
  }

  lemma FormsDiffer(n: nat)
    requires n >= 2
    ensures SameBut(FormOf('a', n), FormOf('b', n), 0) && FormOf('a', n) != FormOf('b', n) && |FormOf('a', n)| == n
  {
    assert FormOf('a', n)[0] != FormOf('b', n)[0];
  }

  lemma FormsAreDeclared(m: Message, body: string, key: char)
    requires Declares(m, body) && |body| >= 2 && key != '=' && key != '&'
    ensures Declares(m, FormOf(key, |body|)) && Form(m, FormOf(key, |body|)).1 && |FormOf(key, |body|)| == |body|
  {
    hide Good, ParsePairs, Print;
    FormOfParses(key, |body|);
  }

  // ------------------------------------------------------------------- the same pieces

  /** A text in pieces of the same sizes. */
  function Cut(all: string, pieces: seq<string>): (cut: seq<string>)
    requires |all| == |Flatten(pieces)|
    decreases |pieces|
  {
    if pieces == [] then [] else [all[..|pieces[0]|]] + Cut(all[|pieces[0]|..], pieces[1..])
  }

  lemma {:induction false} CutIsSame(all: string, pieces: seq<string>)
    requires |all| == |Flatten(pieces)|
    ensures Flatten(Cut(all, pieces)) == all && SameShape(pieces, Cut(all, pieces))
    decreases |pieces|
  {
    if pieces != [] {
      CutIsSame(all[|pieces[0]|..], pieces[1..]);
      var rest := Cut(all[|pieces[0]|..], pieces[1..]);
      assert Cut(all, pieces)[1..] == rest;
      forall i | 0 <= i < |pieces| ensures |pieces[i]| == |Cut(all, pieces)[i]| {
        if i > 0 { assert pieces[i] == pieces[1..][i - 1]; }
      }
    }
  }

  lemma FirstSize(pieces: seq<string>)
    requires pieces != []
    ensures |Flatten(pieces)| == |pieces[0]| + |Flatten(pieces[1..])|
  {
  }

  /** Texts that differ in the first piece alone are cut into the same pieces after it. */
  lemma CutApart(x: string, y: string, k: nat, pieces: seq<string>)
    requires SameBut(x, y, k) && |x| == |Flatten(pieces)| && pieces != [] && k < |pieces[0]| <= |x|
    ensures var n := |pieces[0]|;
      && |x[n..]| == |Flatten(pieces[1..])| && SameBut(x[..n], y[..n], k)
      && Cut(x, pieces) == [x[..n]] + Cut(x[n..], pieces[1..])
      && Cut(y, pieces) == [y[..n]] + Cut(x[n..], pieces[1..])
  {
    var n := |pieces[0]|;
    assert x[n..] == y[n..];
  }

  lemma SameButSized(q: string, r: string, k: nat)
    requires SameBut(q, r, k)
    ensures |r| == |q|
  {
  }

  lemma CutHeads(h: string, g: string, body: string, pieces: seq<string>)
    requires SameBut(h, g, 0) && |Flatten(pieces)| == |h + body| && pieces != [] && pieces[0] != ""
    ensures var n, x, y := |pieces[0]|, h + body, g + body;
      && n <= |x| == |y| && x[..n] + x[n..] == x && y[..n] + x[n..] == y && SameBut(x[..n], y[..n], 0)
      && |x[n..]| == |Flatten(pieces[1..])|
      && Cut(x, pieces) == [x[..n]] + Cut(x[n..], pieces[1..])
      && Cut(y, pieces) == [y[..n]] + Cut(x[n..], pieces[1..])
  {
    hide Cut;
    var n, x, y := |pieces[0]|, h + body, g + body;
    FirstSize(pieces);
    assert SameBut(x, y, 0);
    CutApart(x, y, 0, pieces);
    assert x[..n] + x[n..] == x;
    assert y[n..] == x[n..];
    assert y[..n] + y[n..] == y;
  }

  lemma RestGoesOn(rest: string, pieces: seq<string>)
    requires pieces != [] && |rest| == |Flatten(pieces[1..])| && rest != "" && (forall p <- pieces :: p != "")
    ensures Cut(rest, pieces[1..]) != [] && Cut(rest, pieces[1..])[0] != ""
  {
    assert pieces[1] in pieces;
  }

  // ------------------------------------------------------------------------- both ways

  /** A request of the same size in pieces of the same sizes: a form body of it is well-formed. */
  ghost predicate Alike(m: Message, body: string, pieces: seq<string>, m': Message, body': string, pieces': seq<string>)
    requires Good(m)
  {
    && Declares(m', body') && Form(m', body').1 && |Print(m')| == |Print(m)| && |body'| == |body|
    && SameShape(pieces, pieces') && Flatten(pieces') == Print(m') + body'
  }

  /** It reaches its handler where the code has reads land, as it was sent. */
  ghost predicate CodedArrives(s: Stream, m: Message, body: string, pieces: seq<string>)
    requires Good(m)
  {
    Reached(Outcome(s, AtReadEnd, pieces), m, body)
  }

  /** Twins cannot both hold what was sent, when that is not the same. */
  lemma TwinsHoldTheSame(v: Server, w: Server, m: Message, body: string, m': Message, body': string)
    requires TwinServers(v, w) && Good(m) && Good(m') && Reached(v, m, body) && Reached(w, m', body')
    ensures Meant(m) == Meant(m') && body == body'
  {
    hide Good, Meant;
  }

  lemma AcceptedWaits(s: Stream)
    requires Fresh(s) && s.readBuf.read == 0 && s.reachable
    ensures var v := Accepted(s, AtReadEnd, WouldBlock);
      && Waiting(v) && v.http.conn.stream.readBytes == 0 && v.http.conn.stream.readDelimiter == BLANK
      && v.http.conn.stream.readBuf.write == 0 && |v.http.conn.stream.readBuf.bytes| == DEFAULT_SIZE
  {
    hide Find;
    assert |Contents(s.readBuf)| == Readable(s.readBuf);
    HeadWaits(s, AtReadEnd);
  }

  /** No part of a head short of all of it holds its end. */
  lemma HeadUnserved(m: Message, body: string, q: string, more: string)
    requires Good(m) && q + more == Print(m) + body && |q| < |Print(m)|
    ensures Find(q, BLANK) < 0
  {
    HeadEndsFirst(m, body);
    if Find(q, BLANK) >= 0 { FindIsStable(q, BLANK, more); }
  }

  lemma StartIsLost(s: Stream, m: Message, m': Message, body: string, q: string, r: string, tail: string, rest: seq<string>)
    requires Fresh(s) && s.readBuf.read == 0 && s.reachable && Good(m) && Good(m') && |Print(m)| == |Print(m')|
    requires q + tail == Print(m) + body && r + tail == Print(m') + body && SameBut(q, r, 0)
    requires |q| <= READ_CHUNK ==> |q| < |Print(m)| && rest != [] && rest[0] != ""
    ensures TwinServers(Outcome(s, AtReadEnd, [q] + rest), Outcome(s, AtReadEnd, [r] + rest))
  {
    AcceptedWaits(s);
    hide Print, Good, Accepted, AdvanceAll, Moments, TwinServers, Waiting, Find, Fresh;
    if |q| <= READ_CHUNK {
      HeadUnserved(m, body, q, tail);
      HeadUnserved(m', body, r, tail);
    }
    FirstMakesNoDifference(Accepted(s, AtReadEnd, WouldBlock), q, r, rest);
  }

  /** A head that does not come in its first chunk: the first character of the verb makes no difference. */
  lemma VerbIsLost(s: Stream, m: Message, m': Message, body: string, pieces: seq<string>)
    requires Fresh(s) && s.readBuf.read == 0 && s.reachable && Good(m) && Good(m') && SameBut(Print(m), Print(m'), 0)
    requires |Flatten(pieces)| == |Print(m) + body| && (forall p <- pieces :: p != "") && pieces != []
    requires |pieces[0]| < |Print(m)| || READ_CHUNK < |pieces[0]|
    ensures |Flatten(pieces)| == |Print(m') + body|
    ensures TwinServers(Outcome(s, AtReadEnd, Cut(Print(m) + body, pieces)),
                        Outcome(s, AtReadEnd, Cut(Print(m') + body, pieces)))
  {
    assert (m.query.Some? ==> m.query.value != []) && (m'.query.Some? ==> m'.query.value != []);
    assert pieces[0] in pieces;
    hide Print, Good, Outcome, TwinServers, Fresh, Cut, Flatten, SameBut;
    var h, g, n := Print(m), Print(m'), |pieces[0]|;
    SameButSized(h, g, 0);
    CutHeads(h, g, body, pieces);
    var q, r, tail := (h + body)[..n], (g + body)[..n], (h + body)[n..];
    if n <= READ_CHUNK { RestGoesOn(tail, pieces); }
    StartIsLost(s, m, m', body, q, r, tail, Cut(tail, pieces[1..]));
  }

  // --------------------------------------------------------------- a head in one chunk

  /** A piece that holds the head, in one chunk, and not yet all of the body. */
  ghost predicate HoldsHead(m: Message, body: string, q: string)
    requires Good(m)
  {
    |Print(m)| <= |q| <= READ_CHUNK && q <= Print(m) + body && |q| < |Print(m)| + |body|
  }

  /** After it the head is the next notice, and what follows it is unread. */
  lemma HeadIsNext(s: Stream, m: Message, body: string, q: string)
    requires Fresh(s) && s.readBuf.read == 0 && s.reachable && Declares(m, body) && HoldsHead(m, body, q)
    ensures var v := Advance(Accepted(s, AtReadEnd, WouldBlock), AtReadEnd, Arrives(q));
      && Reading(v, m, body) && v.phase == AwaitingHead && v.http.conn.stream.log.received == q
  {
    HeadEndsFirst(m, "");
    AcceptedWaits(s);
    AcceptedRests(s, m, body);
    AcceptedAgrees(s, WouldBlock);
    assert Good(m) && (m.query.Some? ==> m.query.value != []);
    hide Accepted, Advance, Good, Declares, AtRest, Reading, Print, Fresh;
    var v := Accepted(s, AtReadEnd, WouldBlock);
    assert "" + q == q;
    PieceStep(v, q, m, body);
    MoveAgrees(v, Arrives(q));
  }

  lemma HeadNextIs(v: Server, m: Message, body: string)
    requires Declares(m, body) && Reading(v, m, body) && v.phase == AwaitingHead
    requires HoldsHead(m, body, v.http.conn.stream.log.received)
    ensures DataIsNext(v) && v.http.conn.stream.posted[v.http.ran].kind.data == Print(m)
    ensures AsksForMore(v.http.conn, Print(m)) && v.http.conn.stream.readDelimiter == ""
    ensures Readable(v.http.conn.stream.readBuf) == |v.http.conn.stream.log.received| - |Print(m)|
  {
    ReadingHead(v, m, body);
    ParsePrint(m);
    HeadTask(v, m);
    assert Good(m) && (m.query.Some? ==> m.query.value != []);
    hide Good, Print, ParseRequest, Tended, Early;
    assert |Contents(v.http.conn.stream.readBuf)| == Readable(v.http.conn.stream.readBuf);
    NextCarried(v.http.conn.stream.posted, v.http.ran);
  }

  /** Its notice run, the connection waits for the rest of the body. */
  lemma ThenBodyIsAwaited(v: Server, m: Message, body: string)
    requires Declares(m, body) && Reading(v, m, body) && v.phase == AwaitingHead
    requires HoldsHead(m, body, v.http.conn.stream.log.received)
    ensures var v1 := Advance(v, AtReadEnd, TICK);
      && Ticked(v, AtReadEnd) == v1 && AtRest(v1, m, body) && v1.phase == AwaitingBody
      && v1.http.conn.stream.log.received == v.http.conn.stream.log.received
  {
    ReadingHead(v, m, body);
    assert Good(m) && (m.query.Some? ==> m.query.value != []);
    hide Advance, Good, Declares, Reading, Print;
    var v1 := Advance(v, AtReadEnd, TICK);
    assert body != "" && v.http.conn.stream.log.received != Print(m) + body;
    TickHead(v, m, body);
    MoveAgrees(v, TICK);
    ReadingBody(v1, m, body);
    TickRests(v1, AtReadEnd);
  }

  // ----------------------------------------------------------- some of the body with it

  /** Two requests alike but for the first byte of their bodies, which comes with the head. */
  lemma LeftoverIsNear(s: Stream, m: Message, b: string, d: string, q: string, r: string)
    requires Fresh(s) && s.readBuf.read == 0 && s.reachable && Declares(m, b) && Declares(m, d)
    requires HoldsHead(m, b, q) && HoldsHead(m, d, r) && SameBut(q, r, |Print(m)|)
    ensures var v := Accepted(s, AtReadEnd, WouldBlock);
      var v1 := Ticked(Advance(v, AtReadEnd, Arrives(q)), AtReadEnd);
      var w1 := Ticked(Advance(v, AtReadEnd, Arrives(r)), AtReadEnd);
      NearServers(v1, w1) && Hears(v1)
  {
    AcceptedWaits(s);
    HeadIsNext(s, m, b, q);
    HeadIsNext(s, m, d, r);
    assert Good(m) && (m.query.Some? ==> m.query.value != []);
    hide Accepted, Advance, Good, Declares, Reading, Print, Fresh, HandleEvents, Ticked, AsksForMore, SameBut, DataIsNext;
    hide Differ, HoldsHead, AtRest;
    var v := Accepted(s, AtReadEnd, WouldBlock);
    var v1, w1 := Advance(v, AtReadEnd, Arrives(q)), Advance(v, AtReadEnd, Arrives(r));
    HeadNextIs(v1, m, b);
    PiecesServeNear(v, m, b, d, q, r);
    HeadTickNear(v1, w1, Print(m));
    ThenBodyIsAwaited(v1, m, b);
    ThenBodyIsAwaited(w1, m, d);
    RestHears(Advance(v1, AtReadEnd, TICK), m, b);
  }

  lemma PiecesServeNear(v: Server, m: Message, b: string, d: string, q: string, r: string)
    requires Waiting(v) && v.http.conn.stream.readBytes == 0 && v.http.conn.stream.readDelimiter == BLANK
    requires Good(m) && HoldsHead(m, b, q) && HoldsHead(m, d, r) && SameBut(q, r, |Print(m)|)
    ensures var v1, w1 := Advance(v, AtReadEnd, Arrives(q)), Advance(v, AtReadEnd, Arrives(r));
      NearServers(v1, w1) && READ_CHUNK <= Writable(v1.http.conn.stream.readBuf)
  {
    HeadIn(m, q, b);
    HeadIn(m, r, d);
    assert m.query.Some? ==> m.query.value != [];
    hide Good, Print, HandleEvents, SameBut, Find, Advance, Differ;
    ChunkServesNear(v.http.conn.stream, q, r, |Print(m)|);
    EventsAdvance(v, AtReadEnd, READ, Bytes(q, WouldBlock), Refuses);
    EventsAdvance(v, AtReadEnd, READ, Bytes(r, WouldBlock), Refuses);
  }

  lemma HeadIn(m: Message, q: string, body: string)
    requires Good(m) && q <= Print(m) + body && |Print(m)| <= |q|
    ensures Find(q, BLANK) == |Print(m)| - 4 && 4 <= |Print(m)|
  {
    assert q == Print(m) + q[|Print(m)|..];
    HeadEndsFirst(m, q[|Print(m)|..]);
  }

  lemma RestHears(v: Server, m: Message, body: string)
    requires Good(m) && AtRest(v, m, body) && READ_CHUNK <= Writable(v.http.conn.stream.readBuf)
    ensures Hears(v)
  {
    ReadingListens(v, m, body);
  }

  /** The byte that comes with the head is lost under the next piece. */
  lemma LeftoverIsLost(s: Stream, m: Message, b: string, d: string, q: string, r: string, rest: seq<string>)
    requires Fresh(s) && s.readBuf.read == 0 && s.reachable && Declares(m, b) && Declares(m, d)
    requires HoldsHead(m, b, q) && HoldsHead(m, d, r) && SameBut(q, r, |Print(m)|) && rest != [] && rest[0] != ""
    ensures TwinServers(Outcome(s, AtReadEnd, [q] + rest), Outcome(s, AtReadEnd, [r] + rest))
  {
    LeftoverIsNear(s, m, b, d, q, r);
    hide Accepted, Advance, AdvanceAll, Moments, Declares, Print, Fresh, Ticked, NearServers, TwinServers, Hears;
    hide HoldsHead, SameBut, Good;
    var v := Accepted(s, AtReadEnd, WouldBlock);
    MomentsFirst(v, AtReadEnd, q, rest);
    MomentsFirst(v, AtReadEnd, r, rest);
    NearThenPiece(Ticked(Advance(v, AtReadEnd, Arrives(q)), AtReadEnd),
                  Ticked(Advance(v, AtReadEnd, Arrives(r)), AtReadEnd), rest);
  }

  // ------------------------------------------------------------- the head, then the body

  /** After the head alone: the buffer is empty, and the body is awaited. */
  ghost predicate AwaitsBody(v: Server, n: nat) {
    Waiting(v) && v.http.conn.stream.readBytes == n && v.http.conn.stream.readDelimiter == ""
  }

  lemma HeadEnds(s: Stream, m: Message, body: string)
    requires Fresh(s) && s.readBuf.read == 0 && s.reachable && Declares(m, body) && body != "" && |Print(m)| <= READ_CHUNK
    ensures var b := Ticked(Advance(Accepted(s, AtReadEnd, WouldBlock), AtReadEnd, Arrives(Print(m))), AtReadEnd)
                     .http.conn.stream.readBuf;
      b.write == |Print(m)| && |b.bytes| == DEFAULT_SIZE
  {
    HeadEndsFirst(m, "");
    AcceptedWaits(s);
    HeadIsNext(s, m, body, Print(m));
    assert Good(m) && (m.query.Some? ==> m.query.value != []);
    hide Accepted, Advance, Good, Declares, Print, Fresh, HandleEvents, Ticked, AsksForMore;
    var v := Accepted(s, AtReadEnd, WouldBlock);
    var v1 := Advance(v, AtReadEnd, Arrives(Print(m)));
    HeadNextIs(v1, m, body);
    ReadingListens(v1, m, body);
    ThenBodyIsAwaited(v1, m, body);
    hide Reading, AtRest;
    ChunkEnds(v.http.conn.stream, Print(m));
    EventsAdvance(v, AtReadEnd, READ, Bytes(Print(m), WouldBlock), Refuses);
    HeadTickKeepsEnd(v1);
  }

  lemma HeadAloneWaits(s: Stream, m: Message, body: string)
    requires Fresh(s) && s.readBuf.read == 0 && s.reachable && Declares(m, body) && body != "" && |Print(m)| <= READ_CHUNK
    ensures AwaitsBody(Ticked(Advance(Accepted(s, AtReadEnd, WouldBlock), AtReadEnd, Arrives(Print(m))), AtReadEnd), |body|)
  {
    HeadIsNext(s, m, body, Print(m));
    HeadEnds(s, m, body);
    assert Good(m) && (m.query.Some? ==> m.query.value != []);
    hide Accepted, Advance, Good, Declares, Print, Fresh, Ticked, Reading;
    var v1 := Advance(Accepted(s, AtReadEnd, WouldBlock), AtReadEnd, Arrives(Print(m)));
    ThenBodyIsAwaited(v1, m, body);
    AwaitsAtRest(Ticked(v1, AtReadEnd), m, body);
  }

  lemma AwaitsAtRest(v: Server, m: Message, body: string)
    requires Good(m) && AtRest(v, m, body) && v.phase == AwaitingBody && v.http.conn.stream.log.received == Print(m)
    requires var b := v.http.conn.stream.readBuf; b.write <= READ_CHUNK && |b.bytes| == DEFAULT_SIZE
    ensures AwaitsBody(v, |body|)
  {
    ReadingListens(v, m, body);
    BodyAsksFor(v, m, body);
    assert m.query.Some? ==> m.query.value != [];
    hide Good, Print, AtRest;
    RestsAt(v, m, body);
  }

  /** The first byte of a body is lost when it comes in more than a chunk. */
  lemma BodyIsLost(s: Stream, m: Message, body: string, q: string, r: string, rest: seq<string>)
    requires Fresh(s) && s.readBuf.read == 0 && s.reachable && Declares(m, body) && body != "" && |Print(m)| <= READ_CHUNK
    requires SameBut(q, r, 0) && (|q| <= READ_CHUNK ==> |q| < |body| && rest != [] && rest[0] != "")
    ensures TwinServers(Outcome(s, AtReadEnd, [Print(m)] + ([q] + rest)), Outcome(s, AtReadEnd, [Print(m)] + ([r] + rest)))
  {
    HeadAloneWaits(s, m, body);
    assert Good(m) && (m.query.Some? ==> m.query.value != []);
    assert |r| == |q|;
    hide Accepted, Advance, AdvanceAll, Moments, Declares, Good, Print, Fresh, Ticked, TwinServers, Waiting, SameBut;
    var v, head := Accepted(s, AtReadEnd, WouldBlock), Print(m);
    MomentsFirst(v, AtReadEnd, head, [q] + rest);
    MomentsFirst(v, AtReadEnd, head, [r] + rest);
    FirstMakesNoDifference(Ticked(Advance(v, AtReadEnd, Arrives(head)), AtReadEnd), q, r, rest);
  }

  // ------------------------------------------------------------------------ which pieces

  /** The whole request in one chunk, or the head in one and the body in another. */
  predicate GentlePieces(head: nat, pieces: seq<string>) {
    pieces != [] && |pieces[0]| <= READ_CHUNK
    && (|pieces| == 1 || (|pieces| == 2 && |pieces[0]| == head && |pieces[1]| <= READ_CHUNK))
  }

  lemma LeftoverCut(h: string, b: string, d: string, pieces: seq<string>)
    requires SameBut(b, d, 0) && |Flatten(pieces)| == |h + b| && |pieces| >= 2 && |h| < |pieces[0]|
    requires forall p <- pieces :: p != ""
    ensures var n, x, y := |pieces[0]|, h + b, h + d; var tail := x[n..];
      && n < |x| == |y| && SameBut(x[..n], y[..n], |h|)
      && |tail| == |Flatten(pieces[1..])| && Cut(tail, pieces[1..]) != [] && Cut(tail, pieces[1..])[0] != ""
      && Cut(x, pieces) == [x[..n]] + Cut(tail, pieces[1..])
      && Cut(y, pieces) == [y[..n]] + Cut(tail, pieces[1..])
  {
    hide Cut;
    var n, x, y := |pieces[0]|, h + b, h + d;
    assert SameBut(x, y, |h|);
    FirstSize(pieces);
    FirstSize(pieces[1..]);
    assert pieces[1] in pieces;
    CutApart(x, y, |h|, pieces);
    RestGoesOn(x[n..], pieces);
  }

  lemma BodyCut(h: string, b: string, d: string, pieces: seq<string>)
    requires SameBut(b, d, 0) && |Flatten(pieces)| == |h + b| && |pieces| >= 2 && |h| == |pieces[0]|
    requires forall p <- pieces :: p != ""
    ensures |pieces[1]| <= |b| == |d|
    ensures var n := |pieces[1]|; var tail := b[n..];
      && SameBut(b[..n], d[..n], 0) && |tail| == |Flatten(pieces[2..])|
      && (|pieces| > 2 ==> n < |b| && Cut(tail, pieces[2..]) != [] && Cut(tail, pieces[2..])[0] != "")
      && Cut(h + b, pieces) == [h] + ([b[..n]] + Cut(tail, pieces[2..]))
      && Cut(h + d, pieces) == [h] + ([d[..n]] + Cut(tail, pieces[2..]))
  {
    FirstSize(pieces);
    FirstSize(pieces[1..]);
    assert pieces[1] in pieces && pieces[1..][1..] == pieces[2..];
    CutApart(b, d, 0, pieces[1..]);
    assert (h + b)[..|h|] == h && (h + b)[|h|..] == b && (h + d)[..|h|] == h && (h + d)[|h|..] == d;
    if |pieces| > 2 {
      forall p <- pieces[1..] ensures p != "" { assert p in pieces; }
      FirstSize(pieces[2..]);
      assert pieces[2] in pieces;
      RestGoesOn(b[|pieces[1]|..], pieces[1..]);
    }
  }

  /** A head in one chunk, pieces not gentle all the same: the first byte of the body makes no difference. */
  lemma BodyByteIsLost(s: Stream, m: Message, b: string, d: string, pieces: seq<string>)
    requires Fresh(s) && s.readBuf.read == 0 && s.reachable && Declares(m, b) && Declares(m, d) && SameBut(b, d, 0)
    requires |Flatten(pieces)| == |Print(m) + b| && |pieces| >= 2 && (forall p <- pieces :: p != "")
    requires |Print(m)| <= |pieces[0]| <= READ_CHUNK && !GentlePieces(|Print(m)|, pieces)
    ensures |Flatten(pieces)| == |Print(m) + d|
    ensures TwinServers(Outcome(s, AtReadEnd, Cut(Print(m) + b, pieces)), Outcome(s, AtReadEnd, Cut(Print(m) + d, pieces)))
  {
    assert Good(m) && (m.query.Some? ==> m.query.value != []) && |b| == |d| && b != "";
    hide Print, Good, Declares, Outcome, TwinServers, Fresh, Cut, Flatten, SameBut;
    var h, n := Print(m), |pieces[0]|;
    if |h| < n {
      LeftoverCut(h, b, d, pieces);
      var q, r := (h + b)[..n], (h + d)[..n];
      assert q <= h + b && r <= h + d;
      LeftoverIsLost(s, m, b, d, q, r, Cut((h + b)[n..], pieces[1..]));
    } else {
      BodyCut(h, b, d, pieces);
      var k := |pieces[1]|;
      BodyIsLost(s, m, b, b[..k], d[..k], Cut(b[k..], pieces[2..]));
    }
  }

  lemma CutIsAlike(m: Message, body: string, pieces: seq<string>, m': Message, body': string)
    requires Good(m) && |Flatten(pieces)| == |Print(m) + body| && Declares(m', body') && Form(m', body').1
    requires |Print(m')| == |Print(m)| && |body'| == |body|
    ensures |Flatten(pieces)| == |Print(m') + body'|
    ensures Alike(m, body, pieces, m', body', Cut(Print(m') + body', pieces))
  {
    assert Good(m') && (m'.query.Some? ==> m'.query.value != []);
    hide Good, Declares, Form, Print, Cut, Flatten;
    CutIsSame(Print(m') + body', pieces);
  }

  lemma VerbTwin(m: Message, body: string, c: char)
    requires m.verb != "" && Declares(m, body) && Form(m, body).1 && (c == 'A' || c == 'B')
    ensures var m' := Renamed(m, c);
      && Declares(m', body) && Form(m', body).1 && SameBut(Print(m), Print(m'), 0)
      && (Meant(m') == Meant(m) ==> m.verb[0] == c)
  {
    RenamedIsGood(m, c);
    RenamedPrints(m, c);
    RenamedMeans(m, c);
    hide Good, Print, ParseRequest, ParsePairs, Atoi;
    assert Renamed(m, c).verb[0] == c;
  }

  /** One of two twins has not arrived. */
  ghost predicate NotBoth(s: Stream, m: Message, b: string, x: seq<string>, m': Message, d: string, y: seq<string>)
    requires Good(m) && Good(m')
  {
    !CodedArrives(s, m, b, x) || !CodedArrives(s, m', d, y)
  }

  lemma LostIsNotBoth(s: Stream, m: Message, b: string, x: seq<string>, m': Message, d: string, y: seq<string>)
    requires TwinServers(Outcome(s, AtReadEnd, x), Outcome(s, AtReadEnd, y))
    requires Good(m) && Good(m') && (Meant(m) != Meant(m') || b != d)
    ensures NotBoth(s, m, b, x, m', d, y)
  {
    hide Good, Meant, Outcome, TwinServers, Reached;
    if Reached(Outcome(s, AtReadEnd, x), m, b) && Reached(Outcome(s, AtReadEnd, y), m', d) {
      TwinsHoldTheSame(Outcome(s, AtReadEnd, x), Outcome(s, AtReadEnd, y), m, b, m', d);
    }
  }

  /** In pieces that are not gentle some request of that size does not arrive. */
  lemma SomeRequestIsLost(s: Stream, m: Message, body: string, pieces: seq<string>)
    returns (m': Message, body': string, pieces': seq<string>)
    requires Fresh(s) && s.readBuf.read == 0 && s.reachable && m.verb != "" && Declares(m, body) && Form(m, body).1
    requires (forall p <- pieces :: p != "") && Flatten(pieces) == Print(m) + body
    requires !GentlePieces(|Print(m)|, pieces)
    ensures Alike(m, body, pieces, m', body', pieces') && !CodedArrives(s, m', body', pieces')
  {
    HeadEndsFirst(m, "");
    assert pieces != [];
    var h := |Print(m)|;
    if |pieces[0]| < h || READ_CHUNK < |pieces[0]| {
      m', body', pieces' := SomeVerbIsLost(s, m, body, pieces);
    } else {
      m' := m;
      body', pieces' := SomeBodyIsLost(s, m, body, pieces);
    }
  }

  lemma SomeVerbIsLost(s: Stream, m: Message, body: string, pieces: seq<string>)
    returns (m': Message, body': string, pieces': seq<string>)
    requires Fresh(s) && s.readBuf.read == 0 && s.reachable && m.verb != "" && Declares(m, body) && Form(m, body).1
    requires pieces != [] && (forall p <- pieces :: p != "") && |Flatten(pieces)| == |Print(m) + body|
    requires |pieces[0]| < |Print(m)| || READ_CHUNK < |pieces[0]|
    ensures Alike(m, body, pieces, m', body', pieces') && !CodedArrives(s, m', body', pieces')
  {
    var c := if m.verb[0] == 'A' then 'B' else 'A';
    var r := Renamed(m, c);
    VerbTwin(m, body, c);
    assert Good(m) && Good(r) && (m.query.Some? ==> m.query.value != []) && |Print(r)| == |Print(m)|;
    hide Good, Declares, Form, Print, Cut, Flatten, Outcome, TwinServers, Reached, Fresh, Alike, Meant, SameBut;
    VerbIsLost(s, m, r, body, pieces);
    CutIsAlike(m, body, pieces, m, body);
    CutIsAlike(m, body, pieces, r, body);
    var x, y := Cut(Print(m) + body, pieces), Cut(Print(r) + body, pieces);
    LostIsNotBoth(s, m, body, x, r, body, y);
    body' := body;
    if CodedArrives(s, m, body, x) { m', pieces' := r, y; } else { m', pieces' := m, x; }
  }

  lemma SomeBodyIsLost(s: Stream, m: Message, body: string, pieces: seq<string>)
    returns (body': string, pieces': seq<string>)
    requires Fresh(s) && s.readBuf.read == 0 && s.reachable && Declares(m, body)
    requires pieces != [] && (forall p <- pieces :: p != "") && |Flatten(pieces)| == |Print(m) + body|
    requires |Print(m)| <= |pieces[0]| <= READ_CHUNK && !GentlePieces(|Print(m)|, pieces)
    ensures Alike(m, body, pieces, m, body', pieces') && !CodedArrives(s, m, body', pieces')
  {
    BodyHasTwo(|Print(m)|, |body|, pieces);
    assert Good(m) && (m.query.Some? ==> m.query.value != []);
    hide Good, Declares, Form, Print, Cut, Flatten, Outcome, TwinServers, Reached, Fresh, Alike, Meant, SameBut, FormOf;
    var b, d := FormOf('a', |body|), FormOf('b', |body|);
    FormsAreDeclared(m, body, 'a');
    FormsAreDeclared(m, body, 'b');
    FormsDiffer(|body|);
    BodyByteIsLost(s, m, b, d, pieces);
    CutIsAlike(m, body, pieces, m, b);
    CutIsAlike(m, body, pieces, m, d);
    var x, y := Cut(Print(m) + b, pieces), Cut(Print(m) + d, pieces);
    LostIsNotBoth(s, m, b, x, m, d, y);
    if CodedArrives(s, m, b, x) { body', pieces' := d, y; } else { body', pieces' := b, x; }
  }

  /** Such pieces are two at least, and the body holds two bytes at least. */
  lemma BodyHasTwo(head: nat, n: nat, pieces: seq<string>)
    requires pieces != [] && (forall p <- pieces :: p != "") && |Flatten(pieces)| == head + n
    requires head <= |pieces[0]| <= READ_CHUNK && !GentlePieces(head, pieces)
    ensures |pieces| >= 2 && n >= 2
  {
    FirstSize(pieces);
    FirstSize(pieces[1..]);
    assert pieces[1] in pieces;
    if |pieces| > 2 { FirstSize(pieces[2..]); assert pieces[2] in pieces && pieces[1..][1..] == pieces[2..]; }
  }

  // --------------------------------------------------------------------- gentle pieces

  lemma EmptyThenChunkAgrees(v: Server, piece: string)
    requires Readable(v.http.conn.stream.readBuf) == 0 && |piece| <= READ_CHUNK
    ensures AdvanceAll(v, AtReadEnd, Moments([piece])) == AdvanceAll(v, AtWriteEnd, Moments([piece]))
  {
    hide Advance;
    assert [piece][1..] == [] && [TICK, TICK][1..] == [TICK];
    var v1 := Advance(v, AtReadEnd, Arrives(piece));
    assert GentleMoves(Advance(v1, AtReadEnd, TICK), [TICK]);
    assert GentleMoves(v1, [TICK, TICK]);
    assert Moments([piece])[1..] == [TICK, TICK];
    CodedConnectionIsMeant(v, Moments([piece]));
  }

  lemma HeadThenBodyAgrees(s: Stream, m: Message, body: string)
    requires Fresh(s) && s.reachable && Declares(m, body) && body != "" && |Print(m)| <= READ_CHUNK && |body| <= READ_CHUNK
    ensures Outcome(s, AtReadEnd, [Print(m), body]) == Outcome(s, AtWriteEnd, [Print(m), body])
  {
    HeadPieceArrives(s, AtReadEnd, m, body);
    HeadPieceAgrees(s, Print(m));
    assert Good(m) && (m.query.Some? ==> m.query.value != []);
    hide Accepted, AdvanceAll, Good, Declares, Print, AtRest, Fresh, Moments;
    var v, head := Accepted(s, AtWriteEnd, WouldBlock), Print(m);
    var v1 := AdvanceAll(v, AtReadEnd, Moments([head]));
    RestsAt(v1, m, body);
    EmptyThenChunkAgrees(v1, body);
    TwoPieces(head, body);
    AllAdvancesSplit(v, AtReadEnd, Moments([head]), Moments([body]));
    AllAdvancesSplit(v, AtWriteEnd, Moments([head]), Moments([body]));
  }

  /** Gentle pieces are the message at once, or its head and its body. */
  lemma GentleTexts(h: string, body: string, pieces: seq<string>)
    requires GentlePieces(|h|, pieces) && Flatten(pieces) == h + body
    ensures pieces == if |pieces| == 1 then [h + body] else [h, body]
  {
    FirstSize(pieces);
    FlattenParts(pieces);
    if |pieces| == 2 {
      var t := pieces[0] + pieces[1];
      assert t[..|h|] == pieces[0] && t[|h|..] == pieces[1] && (h + body)[..|h|] == h && (h + body)[|h|..] == body;
    }
  }

  lemma FlattenParts(pieces: seq<string>)
    requires 1 <= |pieces| <= 2
    ensures Flatten(pieces) == if |pieces| == 1 then pieces[0] else pieces[0] + pieces[1]
  {
    assert |pieces| == 1 ==> pieces[1..] == [];
    assert |pieces| == 2 ==> pieces[1..] == [pieces[1]] && pieces[1..][1..] == [];
    if |pieces| == 1 { assert pieces[0] + "" == pieces[0]; }
    else { assert Flatten(pieces[1..]) == pieces[1] + ""; assert pieces[1] + "" == pieces[1]; }
  }

  lemma GentleAgrees(s: Stream, m: Message, body: string, pieces: seq<string>)
    requires Fresh(s) && s.reachable && Declares(m, body)
    requires (forall p <- pieces :: p != "") && Flatten(pieces) == Print(m) + body && GentlePieces(|Print(m)|, pieces)
    ensures Outcome(s, AtReadEnd, pieces) == Outcome(s, AtWriteEnd, pieces)
  {
    assert Good(m) && (m.query.Some? ==> m.query.value != []);
    hide Accepted, AdvanceAll, Good, Declares, Print, Fresh, Moments, Flatten;
    GentleTexts(Print(m), body, pieces);
    if |pieces| == 1 {
      HeadPieceAgrees(s, pieces[0]);
      assert pieces == [pieces[0]];
    } else {
      assert pieces[1] in pieces;
      HeadThenBodyAgrees(s, m, body);
    }
  }

  lemma GentleFits(head: nat, n: nat, pieces: seq<string>)
    requires GentlePieces(head, pieces) && |Flatten(pieces)| == head + n
    ensures HeadFits(0, head, pieces) && n + READ_CHUNK <= DEFAULT_SIZE
  {
    FlattenParts(pieces);
    var rest := pieces[1..];
    assert HeadFits(|pieces[0]|, head, rest);
  }

  lemma GentleArrives(s: Stream, m: Message, body: string, pieces: seq<string>)
    requires Fresh(s) && s.reachable && Declares(m, body) && Form(m, body).1
    requires (forall p <- pieces :: p != "") && Flatten(pieces) == Print(m) + body && GentlePieces(|Print(m)|, pieces)
    ensures CodedArrives(s, m, body, pieces)
  {
    assert Good(m) && (m.query.Some? ==> m.query.value != []);
    hide Accepted, AdvanceAll, Good, Declares, Print, Fresh, Moments, Flatten, HeadFits, GentlePieces, Exact, Form;
    GentleAgrees(s, m, body, pieces);
    GentleFits(|Print(m)|, |body|, pieces);
    RequestArrivesIff(s, m, body, pieces);
  }

  lemma SameIsGentle(head: nat, pieces: seq<string>, others: seq<string>)
    requires GentlePieces(head, pieces) && SameShape(pieces, others) && (forall p <- pieces :: p != "")
    ensures GentlePieces(head, others) && forall p <- others :: p != ""
  {
    forall i | 0 <= i < |others| ensures others[i] != "" { assert pieces[i] in pieces && |pieces[i]| == |others[i]|; }
  }

  /** Outside the handler table nothing arrives at all. */
  lemma UnreachableLosesAll(s: Stream, m: Message, body: string, pieces: seq<string>)
    requires Fresh(s) && !s.reachable && Good(m)
    ensures !CodedArrives(s, m, body, pieces)
  {
    AcceptedRests(s, m, body);
    AcceptedAgrees(s, WouldBlock);
    hide Good, Accepted, Exact, Fresh;
    UncalledRests(Accepted(s, AtReadEnd, WouldBlock), AtReadEnd, pieces);
  }

  /** Every request of the size of this one, in pieces of these sizes. */
  ghost predicate AllArrive(s: Stream, m: Message, body: string, pieces: seq<string>)
    requires Good(m)
  {
    forall m', body', pieces' :: Alike(m, body, pieces, m', body', pieces') ==> CodedArrives(s, m', body', pieces')
  }

  lemma AllGentleArrive(s: Stream, m: Message, body: string, pieces: seq<string>)
    requires Fresh(s) && s.reachable && Good(m) && (forall p <- pieces :: p != "") && GentlePieces(|Print(m)|, pieces)
    ensures AllArrive(s, m, body, pieces)
  {
    assert m.query.Some? ==> m.query.value != [];
    forall m', body', pieces' | Alike(m, body, pieces, m', body', pieces') ensures CodedArrives(s, m', body', pieces') {
      assert Good(m') && (m'.query.Some? ==> m'.query.value != []);
      hide Good, Print, CodedArrives, GentlePieces, Fresh, Flatten, Form, Meant;
      SameIsGentle(|Print(m)|, pieces, pieces');
      GentleArrives(s, m', body', pieces');
    }
  }

  /**
   The exact condition for a request where the code has reads land: every request with as long a head
   and as long a body, in pieces of the same sizes, reaches its handler as it was sent, if and only if
   the descriptor is in the handler table and the request comes in one piece of a chunk at most, or
   its head in one such piece and its body in another.
   */
  lemma CodedRequestsArriveIff(s: Stream, m: Message, body: string, pieces: seq<string>)
    requires Fresh(s) && s.readBuf.read == 0 && m.verb != "" && Declares(m, body) && Form(m, body).1
    requires (forall p <- pieces :: p != "") && Flatten(pieces) == Print(m) + body
    ensures AllArrive(s, m, body, pieces) <==> s.reachable && GentlePieces(|Print(m)|, pieces)
  {
    assert Alike(m, body, pieces, m, body, pieces);
    hide Declares, Form, Print, Flatten, Fresh, Alike, CodedArrives, GentlePieces;
    if !s.reachable {
      UnreachableLosesAll(s, m, body, pieces);
    } else if GentlePieces(|Print(m)|, pieces) {
      AllGentleArrive(s, m, body, pieces);
    } else {
      var m', body', pieces' := SomeRequestIsLost(s, m, body, pieces);
    }
  }
}
