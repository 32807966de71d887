/**
 The base64 and base64url codecs (sections 4 and 5 of RFC 4648). Whether `char` is signed decides
 for which inputs the two loops stay inside their tables, so it is a parameter of both.
 */
module Base64 {
  import opened Common

  type byte = x: int | 0 <= x < 256
  type sextet = x: int | 0 <= x < 64

  const INVALID: int := 77

  /** The alphabets of encode_base64 and encode_base64url. */
  function Basis(url: bool, i: sextet): char {
    if i < 26 then (65 + i) as char
    else if i < 52 then (97 + i - 26) as char
    else if i < 62 then (48 + i - 52) as char
    else if i == 62 then (if url then '-' else '+')
    else (if url then '_' else '/')
  }

  /** The decoding tables. */
  function Table(url: bool, c: char): (v: int)
    ensures v == INVALID || 0 <= v < 64
  {
    if 'A' <= c <= 'Z' then c as int - 65
    else if 'a' <= c <= 'z' then c as int - 97 + 26
    else if '0' <= c <= '9' then c as int - 48 + 52
    else if c == (if url then '-' else '+') then 62
    else if c == (if url then '_' else '/') then 63
    else INVALID
  }

  lemma TableInvertsBasis(url: bool, i: sextet)
    ensures Table(url, Basis(url, i)) == i && Basis(url, i) != '='
  {
  }

  lemma BasisInvertsTable(url: bool, c: char)
    requires Table(url, c) != INVALID
    ensures Basis(url, Table(url, c)) == c
  {
  }

  // ------------------------------------------------------------------ shift arithmetic

  /** The value of a byte held in a `char`. */
  function CharOf(b: byte, signed: bool): int { if signed && b >= 128 then b - 256 else b }

  /** x << 4 | y >> 4 and x << 2 | y >> 6: a negative shifted value has all the upper bits set. */
  function Or(high: int, low: int): int { if low < 0 then low else high + low }

  function Index0(a: int): int { (a / 4) % 64 }
  function Index1(a: int, b: int): int { Or((a % 4) * 16, b / 16) }
  function Index2(b: int, c: int): int { Or((b % 16) * 4, c / 64) }
  function Index3(c: int): int { c % 64 }

  /** The table indices encode_base64_internal uses, for the characters it reads. */
  function Indices(s: seq<int>): seq<int>
    decreases |s|
  {
    if |s| > 2 then
      [Index0(s[0]), Index1(s[0], s[1]), Index2(s[1], s[2]), Index3(s[2])] + Indices(s[3..])
    else if |s| == 2 then [Index0(s[0]), Index1(s[0], s[1]), (s[1] % 16) * 4]
    else if |s| == 1 then [Index0(s[0]), (s[0] % 4) * 16]
    else []
  }

  function Chars(src: seq<byte>, signed: bool): (s: seq<int>)
    ensures |s| == |src|
  {
    seq(|src|, i requires 0 <= i < |src| => CharOf(src[i], signed))
  }

  /** The bytes whose shifts are not masked are below 128, or `char` is unsigned. */
  predicate Encodable(src: seq<byte>, signed: bool) {
    signed ==> forall i :: 0 <= i < |src| && i % 3 != 0 ==> src[i] < 128
  }

  /** Whether the index the encoder computes stays inside the 64-character table. */
  ghost predicate InTable(indices: seq<int>) {
    forall i :: 0 <= i < |indices| ==> 0 <= indices[i] < 64
  }

  lemma EncodableRest(src: seq<byte>, signed: bool)
    requires |src| >= 3
    ensures Encodable(src, signed) <==>
      (signed ==> src[1] < 128 && src[2] < 128) && Encodable(src[3..], signed)
  {
    var rest := src[3..];
    if signed && Encodable(src, signed) {
      forall i | 0 <= i < |rest| && i % 3 != 0 ensures rest[i] < 128 { assert src[i + 3] < 128; }
    }
    if signed && src[1] < 128 && src[2] < 128 && Encodable(rest, signed) {
      forall i | 0 <= i < |src| && i % 3 != 0 ensures src[i] < 128 {
        if i >= 3 { assert rest[i - 3] < 128; }
      }
    }
  }

  /** Exactly when the encoder stays inside its table, and then signedness does not matter. */
  lemma {:induction false} EncodableIff(src: seq<byte>, signed: bool)
    ensures InTable(Indices(Chars(src, signed))) <==> Encodable(src, signed)
    ensures Encodable(src, signed) ==> Indices(Chars(src, signed)) == Indices(Chars(src, false))
    decreases |src|
  {
    if |src| > 2 {
      EncodableIff(src[3..], signed);
      EncodableRest(src, signed);
      GroupIndices(src, signed);
      GroupIndices(src, false);
      HeadIff(src[0], src[1], src[2], signed);
      InTableConcat(HeadIndices(src, signed), Indices(Chars(src[3..], signed)));
    } else if |src| == 2 {
      var all := Indices(Chars(src, signed));
      assert all[1] == Index1(CharOf(src[0], signed), CharOf(src[1], signed));
    }
  }

  function HeadIndices(src: seq<byte>, signed: bool): seq<int>
    requires |src| > 2
  {
    var x, y, z := CharOf(src[0], signed), CharOf(src[1], signed), CharOf(src[2], signed);
    [Index0(x), Index1(x, y), Index2(y, z), Index3(z)]
  }

  lemma GroupIndices(src: seq<byte>, signed: bool)
    requires |src| > 2
    ensures Indices(Chars(src, signed)) == HeadIndices(src, signed) + Indices(Chars(src[3..], signed))
  {
    assert Chars(src, signed)[3..] == Chars(src[3..], signed);
  }

  lemma HeadIff(a: byte, b: byte, c: byte, signed: bool)
    ensures InTable(HeadIndices([a, b, c], signed)) <==> (signed ==> b < 128 && c < 128)
    ensures (signed ==> b < 128 && c < 128) ==> HeadIndices([a, b, c], signed) == HeadIndices([a, b, c], false)
  {
    var head := HeadIndices([a, b, c], signed);
    assert head[1] == Index1(CharOf(a, signed), CharOf(b, signed));
    assert head[2] == Index2(CharOf(b, signed), CharOf(c, signed));
  }

  lemma InTableConcat(a: seq<int>, b: seq<int>)
    ensures InTable(a + b) <==> InTable(a) && InTable(b)
  {
    if InTable(a + b) {
      forall i | 0 <= i < |a| ensures 0 <= a[i] < 64 { assert (a + b)[i] == a[i]; }
      forall i | 0 <= i < |b| ensures 0 <= b[i] < 64 { assert (a + b)[|a| + i] == b[i]; }
    }
  }

  // ------------------------------------------------------------------------ the codecs

  /** The four six-bit digits of three bytes. */
  function Digit0(a: byte): sextet { a / 4 }
  function Digit1(a: byte, b: byte): sextet { (a % 4) * 16 + b / 16 }
  function Digit2(b: byte, c: byte): sextet { (b % 16) * 4 + c / 64 }
  function Digit3(c: byte): sextet { c % 64 }

  function Decode4(a: int, b: int): byte { (a * 4 + b / 16) % 256 }
  function Decode5(b: int, c: int): byte { (b * 16 + c / 4) % 256 }
  function Decode6(c: int, d: int): byte { (c * 64 + d) % 256 }

  /** Inside the table, the indices computed are the digits. */
  lemma IndicesAreDigits(a: byte, b: byte, c: byte, signed: bool)
    requires signed ==> b < 128 && c < 128
    ensures var x, y, z := CharOf(a, signed), CharOf(b, signed), CharOf(c, signed);
      && Index0(x) == Digit0(a) && Index1(x, y) == Digit1(a, b) && Index2(y, z) == Digit2(b, c)
      && Index3(z) == Digit3(c) && (x % 4) * 16 == Digit1(a, 0) && (y % 16) * 4 == Digit2(b, 0)
  {
  }

  // --------------------------------------------------------------------- one group

  datatype Bytes3 = Bytes3(x: byte, y: byte, z: byte)
  datatype Chars4 = Chars4(p: char, q: char, r: char, s: char)

  function EncodeGroup(g: Bytes3, url: bool): Chars4 {
    Chars4(Basis(url, Digit0(g.x)), Basis(url, Digit1(g.x, g.y)),
           Basis(url, Digit2(g.y, g.z)), Basis(url, Digit3(g.z)))
  }

  function DecodeGroup(c: Chars4, url: bool): Bytes3 {
    Bytes3(Decode4(Table(url, c.p), Table(url, c.q)),
           Decode5(Table(url, c.q), Table(url, c.r)),
           Decode6(Table(url, c.r), Table(url, c.s)))
  }

  function Encoder(url: bool): Bytes3 -> Chars4 { (g: Bytes3) => EncodeGroup(g, url) }
  function Decoder(url: bool): Chars4 -> Bytes3 { (c: Chars4) => DecodeGroup(c, url) }
  function Digits(url: bool): char -> int { (c: char) => Table(url, c) }

  // -------------------------------------------------------------------- whole texts

  /** Encoding by groups: a short last group is filled with zero bytes and cut off. */
  function EncodeBy(src: seq<byte>, enc: Bytes3 -> Chars4, padding: bool): string
    decreases |src|
  {
    if |src| > 2 then
      var g := enc(Bytes3(src[0], src[1], src[2]));
      [g.p, g.q, g.r, g.s] + EncodeBy(src[3..], enc, padding)
    else if |src| == 2 then
      var g := enc(Bytes3(src[0], src[1], 0));
      [g.p, g.q, g.r] + (if padding then "=" else "")
    else if |src| == 1 then
      var g := enc(Bytes3(src[0], 0, 0));
      [g.p, g.q] + (if padding then "==" else "")
    else ""
  }

  /** Decoding by groups: what a short last group lacks is never looked at. */
  function DecodeBy(s: string, dec: Chars4 -> Bytes3): seq<byte>
    decreases |s|
  {
    if |s| > 3 then
      var g := dec(Chars4(s[0], s[1], s[2], s[3]));
      [g.x, g.y, g.z] + DecodeBy(s[4..], dec)
    else if |s| == 3 then
      var g := dec(Chars4(s[0], s[1], s[2], 'A'));
      [g.x, g.y]
    else if |s| == 2 then [dec(Chars4(s[0], s[1], 'A', 'A')).x]
    else []
  }

  /** What precedes the first '='. */
  function Body(s: string): string {
    if s == "" || s[0] == '=' then "" else [s[0]] + Body(s[1..])
  }

  predicate AllValid(s: string, val: char -> int) { forall c <- s :: val(c) != INVALID }

  /** What encode_base64 and encode_base64url yield. */
  function Encode(src: seq<byte>, url: bool, padding: bool): string { EncodeBy(src, Encoder(url), padding) }

  predicate InAlphabet(s: string, url: bool) { AllValid(s, Digits(url)) }

  datatype Decoded = Decoded(ret: int, dst: seq<byte>)

  /** decode_base64_internal; on failure the destination is not touched. */
  function Decode(s: string, url: bool): Decoded {
    var body := Body(s);
    if !InAlphabet(body, url) then Decoded(-1, [])
    else if |body| % 4 == 1 then Decoded(-2, [])
    else Decoded(0, DecodeBy(body, Decoder(url)))
  }

  // ---------------------------------------------------------------------- the loops

  method GroupChars(g: Bytes3, url: bool, signed: bool) returns (c: Chars4)
    requires signed ==> g.y < 128 && g.z < 128
    ensures c == Encoder(url)(g)
  {
    IndicesAreDigits(g.x, g.y, g.z, signed);
    var a, b, d := CharOf(g.x, signed), CharOf(g.y, signed), CharOf(g.z, signed);
    c := Chars4(Basis(url, Index0(a)), Basis(url, Index1(a, b)), Basis(url, Index2(b, d)), Basis(url, Index3(d)));
  }

  /** The two characters of a last single byte. */
  method LastOne(x: byte, url: bool, signed: bool) returns (p: char, q: char)
    ensures var g := Encoder(url)(Bytes3(x, 0, 0)); p == g.p && q == g.q
  {
    IndicesAreDigits(x, 0, 0, signed);
    var a := CharOf(x, signed);
    p, q := Basis(url, Index0(a)), Basis(url, (a % 4) * 16);
  }

  /** The three characters of two last bytes. */
  method LastTwo(x: byte, y: byte, url: bool, signed: bool) returns (p: char, q: char, r: char)
    requires signed ==> y < 128
    ensures var g := Encoder(url)(Bytes3(x, y, 0)); p == g.p && q == g.q && r == g.r
  {
    IndicesAreDigits(x, y, 0, signed);
    var a, b := CharOf(x, signed), CharOf(y, signed);
    p, q, r := Basis(url, Index0(a)), Basis(url, Index1(a, b)), Basis(url, (b % 16) * 4);
  }

  lemma EncodeByStep(src: seq<byte>, s: nat, enc: Bytes3 -> Chars4, padding: bool, dst: string)
    requires s + 2 < |src|
    ensures var g := enc(Bytes3(src[s], src[s + 1], src[s + 2]));
      dst + [g.p, g.q, g.r, g.s] + EncodeBy(src[s + 3..], enc, padding) == dst + EncodeBy(src[s..], enc, padding)
  {
    assert src[s..][3..] == src[s + 3..];
  }

  lemma EncodableAt(src: seq<byte>, s: nat, signed: bool)
    requires s + 2 < |src| && Encodable(src[s..], signed)
    ensures Encodable(src[s + 3..], signed) && (signed ==> src[s + 1] < 128 && src[s + 2] < 128)
  {
    EncodableRest(src[s..], signed);
    assert src[s..][3..] == src[s + 3..];
  }

  lemma EncodableTwo(src: seq<byte>, s: nat, signed: bool)
    requires s + 2 == |src| && Encodable(src[s..], signed)
    ensures signed ==> src[s + 1] < 128
  {
    assert src[s..][1] == src[s + 1];
  }

  /** One turn of the encoding loop: the characters of three bytes. */
  method ThreeBytes(src: seq<byte>, s: nat, url: bool, padding: bool, signed: bool, ghost dst: string)
    returns (out: string)
    requires s + 2 < |src| && Encodable(src[s..], signed)
    ensures Encodable(src[s + 3..], signed)
    ensures (dst + out) + EncodeBy(src[s + 3..], Encoder(url), padding) == dst + EncodeBy(src[s..], Encoder(url), padding)
  {
    EncodableAt(src, s, signed);
    var g := GroupChars(Bytes3(src[s], src[s + 1], src[s + 2]), url, signed);
    out := [g.p, g.q, g.r, g.s];
    EncodeByStep(src, s, Encoder(url), padding, dst);
  }

  /** What a short last group encodes to. */
  lemma EncodeShort(src: seq<byte>, s: nat, enc: Bytes3 -> Chars4, padding: bool)
    requires |src| - 2 <= s <= |src|
    ensures s == |src| ==> EncodeBy(src[s..], enc, padding) == ""
    ensures s + 1 == |src| ==>
      var g := enc(Bytes3(src[s], 0, 0));
      EncodeBy(src[s..], enc, padding) == [g.p, g.q] + (if padding then "==" else "")
    ensures s + 2 == |src| ==>
      var g := enc(Bytes3(src[s], src[s + 1], 0));
      EncodeBy(src[s..], enc, padding) == [g.p, g.q, g.r] + (if padding then "=" else "")
  {
  }

  /** The short group after the encoding loop. */
  method LastChars(src: seq<byte>, s: nat, url: bool, padding: bool, signed: bool) returns (dst: string)
    requires |src| - 2 <= s <= |src| && Encodable(src[s..], signed)
    ensures dst == EncodeBy(src[s..], Encoder(url), padding)
  {
    EncodeShort(src, s, Encoder(url), padding);
    dst := "";
    if |src| - s == 1 {
      var p, q := LastOne(src[s], url, signed);
      dst := [p, q] + (if padding then "==" else "");
    } else if |src| - s == 2 {
      EncodableTwo(src, s, signed);
      var p, q, r := LastTwo(src[s], src[s + 1], url, signed);
      dst := [p, q, r] + (if padding then "=" else "");
    }
  }

  /** The encoding loop, one three-byte group at a time. */
  method EncodeInternal(src: seq<byte>, url: bool, padding: bool, signed: bool) returns (dst: string)
    requires Encodable(src, signed)
    ensures dst == Encode(src, url, padding)
  {
    hide EncodeBy, Encodable;
    dst := "";
    var s: nat := 0;
    assert src[s..] == src;
    while |src| - s > 2
      invariant s <= |src| && Encodable(src[s..], signed)
      invariant dst + EncodeBy(src[s..], Encoder(url), padding) == EncodeBy(src, Encoder(url), padding)
    {
      var out := ThreeBytes(src, s, url, padding, signed, dst);
      dst := dst + out;
      s := s + 3;
    }
    var tail := LastChars(src, s, url, padding, signed);
    dst := dst + tail;
  }

  // ------------------------------------------------- the decoder's own table accesses

  /** The index of a text character: a signed char counts from -128. */
  function CharIndex(c: char, signed: bool): int {
    if signed && 128 <= c as int < 256 then c as int - 256 else c as int
  }

  /** The indices the scan reads its table at: up to '=', or to the first it refuses or is outside. */
  function ScanIndices(s: string, url: bool, signed: bool): seq<int> {
    if s == "" || s[0] == '=' then []
    else if Table(url, s[0]) == INVALID then [CharIndex(s[0], signed)]
    else [CharIndex(s[0], signed)] + ScanIndices(s[1..], url, signed)
  }

  /** The part of the text the scan accepts: before the first '=' and the first foreign character. */
  function Accepted(s: string, url: bool): string {
    if s == "" || s[0] == '=' || Table(url, s[0]) == INVALID then "" else [s[0]] + Accepted(s[1..], url)
  }

  /** The first foreign character before '=', if there is one, is one the table covers. */
  predicate Scannable(s: string, url: bool, signed: bool) {
    var k := |Accepted(s, url)|;
    k < |Body(s)| && k < |s| ==> s[k] as int < if signed then 128 else 256
  }

  ghost predicate InDecodingTable(indices: seq<int>) {
    forall i :: 0 <= i < |indices| ==> 0 <= indices[i] < 256
  }

  lemma ValidIsAscii(url: bool, c: char)
    requires Table(url, c) != INVALID
    ensures c as int < 128 && c != '='
  {
  }

  /** Exactly when the decoder stays inside its 256 entries. */
  lemma {:induction false} ScannableIff(s: string, url: bool, signed: bool)
    ensures InDecodingTable(ScanIndices(s, url, signed)) <==> Scannable(s, url, signed)
    decreases |s|
  {
    if s != "" && s[0] != '=' {
      if Table(url, s[0]) == INVALID {
        assert ScanIndices(s, url, signed)[0] == CharIndex(s[0], signed);
      } else {
        ValidIsAscii(url, s[0]);
        ScannableIff(s[1..], url, signed);
        var rest := ScanIndices(s[1..], url, signed);
        assert ScanIndices(s, url, signed) == [s[0] as int] + rest;
        InDecodingTableCons(s[0] as int, rest);
      }
    }
  }

  lemma InDecodingTableCons(x: int, rest: seq<int>)
    requires 0 <= x < 256
    ensures InDecodingTable([x] + rest) <==> InDecodingTable(rest)
  {
    if InDecodingTable([x] + rest) {
      forall i | 0 <= i < |rest| ensures 0 <= rest[i] < 256 { assert ([x] + rest)[i + 1] == rest[i]; }
    }
  }

  /** The character the scan looks at next is covered, when those before it were accepted. */
  lemma {:induction false} NextIsCovered(s: string, len: nat, url: bool, signed: bool)
    requires Scannable(s, url, signed) && len < |s| && s[len] != '='
    requires forall i :: 0 <= i < len ==> Table(url, s[i]) != INVALID
    ensures 0 <= CharIndex(s[len], signed) < 256
    decreases |s|
  {
    if len > 0 {
      ValidIsAscii(url, s[0]);
      forall i | 0 <= i < len - 1 ensures Table(url, s[1..][i]) != INVALID { assert s[1..][i] == s[i + 1]; }
      NextIsCovered(s[1..], len - 1, url, signed);
    } else if Table(url, s[0]) != INVALID {
      ValidIsAscii(url, s[0]);
    }
  }

  /** The scan up to the first '=', which refuses a character outside the alphabet. */
  method Scan(src: string, url: bool, signed: bool) returns (ok: bool, len: nat)
    requires Scannable(src, url, signed)
    ensures ok <==> InAlphabet(Body(src), url)
    ensures ok ==> len <= |src| && src[..len] == Body(src)
  {
    ghost var val := Digits(url);
    len := 0;
    while len < |src| && src[len] != '='
      invariant len <= |src|
      invariant Body(src) == src[..len] + Body(src[len..])
      invariant AllValid(src[..len], val)
      invariant forall i :: 0 <= i < len ==> Table(url, src[i]) != INVALID
    {
      ScanStep(src, len, val);
      NextIsCovered(src, len, url, signed);
      var index := CharIndex(src[len], signed);
      assert index as char == src[len] && val(src[len]) == Table(url, src[len]);
      if Table(url, index as char) == INVALID {
        return false, len;
      }
      len := len + 1;
    }
    assert Body(src[len..]) == "";
    return true, len;
  }

  lemma BodyStep(src: string, len: nat)
    requires len < |src| && src[len] != '=' && Body(src) == src[..len] + Body(src[len..])
    ensures Body(src) == src[..len + 1] + Body(src[len + 1..])
  {
    assert src[len..][1..] == src[len + 1..];
    assert src[..len + 1] == src[..len] + [src[len]];
    ConcatAssoc(src[..len], [src[len]], Body(src[len + 1..]));
  }

  lemma ScanStep(src: string, len: nat, val: char -> int)
    requires len < |src| && src[len] != '=' && Body(src) == src[..len] + Body(src[len..])
    ensures Body(src) == src[..len + 1] + Body(src[len + 1..])
    ensures val(src[len]) == INVALID ==> !AllValid(Body(src), val)
    ensures AllValid(src[..len], val) && val(src[len]) != INVALID ==> AllValid(src[..len + 1], val)
  {
    BodyStep(src, len);
    ValidStep(src, len, Body(src[len + 1..]), val);
  }

  lemma ValidStep(src: string, len: nat, rest: string, val: char -> int)
    requires len < |src|
    ensures val(src[len]) == INVALID ==> !AllValid(src[..len + 1] + rest, val)
    ensures AllValid(src[..len], val) && val(src[len]) != INVALID ==> AllValid(src[..len + 1], val)
  {
    assert src[..len + 1] == src[..len] + [src[len]];
    assert (src[..len + 1] + rest)[len] == src[len];
  }

  method GroupBytes(c: Chars4, url: bool) returns (g: Bytes3)
    ensures g == Decoder(url)(c)
  {
    var a, b, d, e := Table(url, c.p), Table(url, c.q), Table(url, c.r), Table(url, c.s);
    g := Bytes3(Decode4(a, b), Decode5(b, d), Decode6(d, e));
  }

  lemma DecodeByStep(body: string, s: nat, dec: Chars4 -> Bytes3, dst: seq<byte>)
    requires s + 3 < |body|
    ensures var g := dec(Chars4(body[s], body[s + 1], body[s + 2], body[s + 3]));
      dst + [g.x, g.y, g.z] + DecodeBy(body[s + 4..], dec) == dst + DecodeBy(body[s..], dec)
  {
    assert body[s..][4..] == body[s + 4..];
  }

  /** The short group after the decoding loop. */
  method LastBytes(body: string, s: nat, url: bool) returns (dst: seq<byte>)
    requires |body| - 3 <= s <= |body| && |body| - s != 1
    ensures dst == DecodeBy(body[s..], Decoder(url))
  {
    DecodeShort(body, s, Decoder(url));
    var len := |body| - s;
    dst := [];
    if len > 1 {
      var g := GroupBytes(Chars4(body[s], body[s + 1], if len > 2 then body[s + 2] else 'A', 'A'), url);
      dst := dst + [g.x];
      if len > 2 {
        dst := dst + [g.y];
      }
    }
  }

  /** One turn of the decoding loop: the bytes of four characters. */
  method FourChars(body: string, s: nat, url: bool, ghost dst: seq<byte>) returns (out: seq<byte>)
    requires s + 3 < |body|
    ensures (dst + out) + DecodeBy(body[s + 4..], Decoder(url)) == dst + DecodeBy(body[s..], Decoder(url))
  {
    var g := GroupBytes(Chars4(body[s], body[s + 1], body[s + 2], body[s + 3]), url);
    out := [g.x, g.y, g.z];
    DecodeByStep(body, s, Decoder(url), dst);
  }

  /** Groups of four with a possible last group. */
  predicate Whole(n: nat) { if n > 3 then Whole(n - 4) else n != 1 }

  lemma {:induction false} WholeIff(n: nat)
    ensures Whole(n) <==> n % 4 != 1
  {
    if n > 3 {
      WholeIff(n - 4);
      assert (n - 4) % 4 == n % 4;
    }
  }

  /** The decoding loop, four characters at a time. */
  method DecodeGroups(body: string, url: bool) returns (dst: seq<byte>)
    requires Whole(|body|)
    ensures dst == DecodeBy(body, Decoder(url))
  {
    dst := [];
    var s: nat, len: nat := 0, |body|;
    while len > 3
      invariant s + len == |body| && Whole(len)
      invariant dst + DecodeBy(body[s..], Decoder(url)) == DecodeBy(body, Decoder(url))
    {
      var out := FourChars(body, s, url, dst);
      dst := dst + out;
      s := s + 4;
      len := len - 4;
    }
    var tail := LastBytes(body, s, url);
    dst := dst + tail;
  }

  lemma DecodeShort(body: string, s: nat, dec: Chars4 -> Bytes3)
    requires |body| - 3 <= s <= |body| && |body| - s != 1
    ensures s == |body| ==> DecodeBy(body[s..], dec) == []
    ensures s + 2 == |body| ==> DecodeBy(body[s..], dec) == [dec(Chars4(body[s], body[s + 1], 'A', 'A')).x]
    ensures s + 3 == |body| ==>
      var g := dec(Chars4(body[s], body[s + 1], body[s + 2], 'A')); DecodeBy(body[s..], dec) == [g.x, g.y]
  {
  }

  /** decode_base64_internal; on failure nothing is written. */
  method DecodeInternal(src: string, url: bool, signed: bool) returns (ret: int, dst: seq<byte>)
    requires Scannable(src, url, signed)
    ensures Decoded(ret, dst) == Decode(src, url)
  {
    var ok, len := Scan(src, url, signed);
    if !ok {
      return -1, [];
    }
    if len % 4 == 1 {
      return -2, [];
    }
    WholeIff(len);
    dst := DecodeGroups(src[..len], url);
    ret := 0;
  }

  // ------------------------------------------------------------- the group is a bijection

  /** What makes a group codec: each direction undoes the other, and filling is with 'A'. */
  ghost predicate Codec(enc: Bytes3 -> Chars4, dec: Chars4 -> Bytes3, val: char -> int) {
    && (forall g :: dec(enc(g)) == g && Clean(enc(g), val))
    && (forall c :: Clean(c, val) ==> enc(dec(c)) == c)
    && val('A') != INVALID && val('=') == INVALID
  }

  ghost predicate Clean(c: Chars4, val: char -> int) {
    val(c.p) != INVALID && val(c.q) != INVALID && val(c.r) != INVALID && val(c.s) != INVALID
  }

  /** How a group filled with zero bytes ends, and what cutting off a decoded group keeps. */
  ghost predicate Cuts(enc: Bytes3 -> Chars4, dec: Chars4 -> Bytes3, val: char -> int) {
    && (forall g: Bytes3 :: g.z == 0 ==> enc(g).s == 'A' && (g.y == 0 ==> enc(g).r == 'A'))
    && (forall c :: Clean(c, val) ==> KeepsTwo(enc, dec, val, c) && KeepsOne(enc, dec, val, c))
  }

  ghost predicate KeepsTwo(enc: Bytes3 -> Chars4, dec: Chars4 -> Bytes3, val: char -> int, c: Chars4) {
    var e := enc(Bytes3(dec(c).x, dec(c).y, 0));
    e.p == c.p && e.q == c.q && (e.r == c.r <==> val(c.r) % 4 == 0)
  }

  ghost predicate KeepsOne(enc: Bytes3 -> Chars4, dec: Chars4 -> Bytes3, val: char -> int, c: Chars4) {
    var e := enc(Bytes3(dec(c).x, 0, 0));
    e.p == c.p && (e.q == c.q <==> val(c.q) % 16 == 0)
  }

  lemma HighPart(a: byte, b: byte)
    ensures Decode4(Digit0(a), Digit1(a, b)) == a
  {
  }

  lemma Below256(q: int, r: int)
    requires 0 <= r < 256
    ensures (256 * q + r) % 256 == r
  {
  }

  lemma QuarterOf(m: int, q: int)
    requires 0 <= q < 4
    ensures (m * 4 + q) / 4 == m
  {
  }

  lemma MiddlePart(a: byte, b: byte, c: byte)
    ensures Decode5(Digit1(a, b), Digit2(b, c)) == b
  {
    QuarterOf(b % 16, c / 64);
    Below256(a % 4, b);
    assert Digit1(a, b) * 16 + b % 16 == 256 * (a % 4) + b;
  }

  lemma LowPart(b: byte, c: byte)
    ensures Decode6(Digit2(b, c), Digit3(c)) == c
  {
    Below256(b % 16, c);
    assert Digit2(b, c) * 64 + Digit3(c) == 256 * (b % 16) + c;
  }

  lemma GroupRoundTrip(g: Bytes3, url: bool)
    ensures DecodeGroup(EncodeGroup(g, url), url) == g && Clean(EncodeGroup(g, url), Digits(url))
  {
    HighPart(g.x, g.y);
    MiddlePart(g.x, g.y, g.z);
    LowPart(g.y, g.z);
    TableInvertsBasis(url, Digit0(g.x));
    TableInvertsBasis(url, Digit1(g.x, g.y));
    TableInvertsBasis(url, Digit2(g.y, g.z));
    TableInvertsBasis(url, Digit3(g.z));
  }

  /** Decoding four digits keeps every bit. */
  lemma DecodedParts(a: sextet, b: sextet, c: sextet, d: sextet)
    ensures Decode4(a, b) == a * 4 + b / 16
    ensures Decode5(b, c) == (b % 16) * 16 + c / 4
    ensures Decode6(c, d) == (c % 4) * 64 + d
  {
    Below256(b / 16, (b % 16) * 16 + c / 4);
    assert b * 16 + c / 4 == 256 * (b / 16) + ((b % 16) * 16 + c / 4);
    Below256(c / 4, (c % 4) * 64 + d);
    assert c * 64 + d == 256 * (c / 4) + ((c % 4) * 64 + d);
  }

  lemma DigitsBack(a: sextet, b: sextet, c: sextet, d: sextet)
    ensures var x, y, z := Decode4(a, b), Decode5(b, c), Decode6(c, d);
      && Digit0(x) == a && Digit1(x, y) == b && Digit2(y, z) == c && Digit3(z) == d
      && Digit1(x, 0) == b - b % 16 && Digit2(y, 0) == c - c % 4
  {
    DecodedParts(a, b, c, d);
  }

  /** Encoding a decoded group gives it back. */
  lemma GroupBack(c: Chars4, url: bool)
    requires Clean(c, Digits(url))
    ensures EncodeGroup(DecodeGroup(c, url), url) == c
  {
    DigitsBack(Table(url, c.p), Table(url, c.q), Table(url, c.r), Table(url, c.s));
    BasisInvertsTable(url, c.p);
    BasisInvertsTable(url, c.q);
    BasisInvertsTable(url, c.r);
    BasisInvertsTable(url, c.s);
  }

  /** Two bytes keep the third character exactly when its last two bits are zero. */
  lemma GroupKeepsTwo(c: Chars4, url: bool)
    requires Clean(c, Digits(url))
    ensures KeepsTwo(Encoder(url), Decoder(url), Digits(url), c)
  {
    DigitsBack(Table(url, c.p), Table(url, c.q), Table(url, c.r), Table(url, c.s));
    BasisInvertsTable(url, c.p);
    BasisInvertsTable(url, c.q);
    Rounded(url, c.r, 4);
  }

  /** One byte keeps the second character exactly when its last four bits are zero. */
  lemma GroupKeepsOne(c: Chars4, url: bool)
    requires Clean(c, Digits(url))
    ensures KeepsOne(Encoder(url), Decoder(url), Digits(url), c)
  {
    DigitsBack(Table(url, c.p), Table(url, c.q), Table(url, c.r), Table(url, c.s));
    BasisInvertsTable(url, c.p);
    Rounded(url, c.q, 16);
  }

  /** Clearing the low bits of a digit gives the same character exactly when they are zero. */
  lemma Rounded(url: bool, c: char, unit: int)
    requires Table(url, c) != INVALID && unit in {4, 16}
    ensures var v := Table(url, c); 0 <= v - v % unit < 64 && (Basis(url, v - v % unit) == c <==> v % unit == 0)
  {
    var v := Table(url, c);
    TableInvertsBasis(url, v - v % unit);
    BasisInvertsTable(url, c);
  }

  lemma ZerosEncodeToA(g: Bytes3, url: bool)
    requires g.z == 0
    ensures EncodeGroup(g, url).s == 'A' && (g.y == 0 ==> EncodeGroup(g, url).r == 'A')
  {
  }

  lemma CodecHolds(url: bool)
    ensures Codec(Encoder(url), Decoder(url), Digits(url)) && Cuts(Encoder(url), Decoder(url), Digits(url))
  {
    var enc, dec, val := Encoder(url), Decoder(url), Digits(url);
    forall g ensures dec(enc(g)) == g && Clean(enc(g), val) { GroupRoundTrip(g, url); }
    forall g: Bytes3 | g.z == 0 ensures enc(g).s == 'A' && (g.y == 0 ==> enc(g).r == 'A') {
      ZerosEncodeToA(g, url);
    }
    forall c | Clean(c, val)
      ensures enc(dec(c)) == c && KeepsTwo(enc, dec, val, c) && KeepsOne(enc, dec, val, c)
    {
      GroupBack(c, url);
      GroupKeepsTwo(c, url);
      GroupKeepsOne(c, url);
    }
  }

  // ------------------------------------------------------------------------ round trips

  lemma {:induction false} BodyOf(s: string, t: string)
    requires '=' !in s && (t == "" || t[0] == '=')
    ensures Body(s + t) == s
    decreases |s|
  {
    if s == "" {
      assert s + t == t;
    } else {
      assert (s + t)[1..] == s[1..] + t;
      BodyOf(s[1..], t);
    }
  }

  lemma {:induction false} UnpaddedDecodes(src: seq<byte>, enc: Bytes3 -> Chars4, dec: Chars4 -> Bytes3, val: char -> int)
    requires Codec(enc, dec, val) && Cuts(enc, dec, val)
    ensures var e := EncodeBy(src, enc, false);
      && AllValid(e, val) && |e| % 4 != 1 && DecodeBy(e, dec) == src
    decreases |src|
  {
    hide Cuts;
    if |src| > 2 {
      var c := enc(Bytes3(src[0], src[1], src[2]));
      var e, rest := EncodeBy(src, enc, false), EncodeBy(src[3..], enc, false);
      assert dec(c) == Bytes3(src[0], src[1], src[2]) && Clean(c, val);
      UnpaddedDecodes(src[3..], enc, dec, val);
      assert e == [c.p, c.q, c.r, c.s] + rest && e[4..] == rest;
      assert |e| % 4 == |rest| % 4;
      assert src == [src[0], src[1], src[2]] + src[3..];
    } else {
      UnpaddedShort(src, enc, dec, val);
    }
  }

  lemma UnpaddedShort(src: seq<byte>, enc: Bytes3 -> Chars4, dec: Chars4 -> Bytes3, val: char -> int)
    requires Codec(enc, dec, val) && Cuts(enc, dec, val) && |src| < 3
    ensures var e := EncodeBy(src, enc, false);
      && AllValid(e, val) && |e| % 4 != 1 && DecodeBy(e, dec) == src
  {
    var e := EncodeBy(src, enc, false);
    if |src| == 2 {
      var c := enc(Bytes3(src[0], src[1], 0));
      assert c == Chars4(e[0], e[1], e[2], 'A') && dec(c) == Bytes3(src[0], src[1], 0);
    } else if |src| == 1 {
      var c := enc(Bytes3(src[0], 0, 0));
      assert c == Chars4(e[0], e[1], 'A', 'A') && dec(c) == Bytes3(src[0], 0, 0);
    }
  }

  /** The padding characters that go after a text of the given length. */
  function Padding(n: nat): string { if n % 4 == 2 then "==" else if n % 4 == 3 then "=" else "" }

  /** The two output lengths for n bytes. */
  predicate Lengths(n: nat, unpadded: nat, padded: nat) {
    unpadded == (4 * n + 2) / 3 && padded == 4 * ((n + 2) / 3)
  }

  /** Padding only appends, filling up to a multiple of four. */
  lemma {:induction false} PaddingAppends(src: seq<byte>, enc: Bytes3 -> Chars4)
    ensures var e := EncodeBy(src, enc, false);
      && EncodeBy(src, enc, true) == e + Padding(|e|)
      && Lengths(|src|, |e|, |EncodeBy(src, enc, true)|)
    decreases |src|
  {
    if |src| > 2 {
      PaddingAppends(src[3..], enc);
      var rest, g := EncodeBy(src[3..], enc, false), enc(Bytes3(src[0], src[1], src[2]));
      PaddingStep(src, [g.p, g.q, g.r, g.s], rest, EncodeBy(src[3..], enc, true));
    }
  }

  lemma PaddingStep(src: seq<byte>, four: string, rest: string, padded: string)
    requires |src| > 2 && |four| == 4 && padded == rest + Padding(|rest|) && Lengths(|src| - 3, |rest|, |padded|)
    ensures four + padded == (four + rest) + Padding(|four + rest|)
    ensures Lengths(|src|, |four + rest|, |four + padded|)
  {
    ConcatAssoc(four, rest, Padding(|rest|));
    FourMore(|rest|);
    LengthsStep(|src| - 3, |rest|, |padded|);
  }

  lemma FourMore(n: nat)
    ensures Padding(4 + n) == Padding(n)
  {
    assert (4 + n) % 4 == n % 4;
  }

  lemma LengthsStep(n: nat, unpadded: nat, padded: nat)
    requires Lengths(n, unpadded, padded)
    ensures Lengths(n + 3, 4 + unpadded, 4 + padded)
  {
    assert 4 * (n + 3) + 2 == (4 * n + 2) + 4 * 3;
  }

  /** The output lengths: four characters for every three bytes begun, less the padding left out. */
  lemma EncodedLength(src: seq<byte>, url: bool)
    ensures |Encode(src, url, true)| == 4 * ((|src| + 2) / 3)
    ensures |Encode(src, url, false)| == (4 * |src| + 2) / 3
  {
    PaddingAppends(src, Encoder(url));
  }

  /** decode(encode(x)) == x, for both alphabets, padded or not. */
  lemma DecodeEncode(src: seq<byte>, url: bool, padding: bool)
    ensures Decode(Encode(src, url, padding), url) == Decoded(0, src)
  {
    CodecHolds(url);
    UnpaddedDecodes(src, Encoder(url), Decoder(url), Digits(url));
    PaddingAppends(src, Encoder(url));
    var e := EncodeBy(src, Encoder(url), false);
    assert '=' !in e;
    BodyOf(e, if padding then Padding(|e|) else "");
    assert e + "" == e;
  }

  /** Decoding succeeds exactly when what precedes '=' is in the alphabet and has a possible length. */
  lemma DecodeSucceedsIff(s: string, url: bool)
    ensures Decode(s, url).ret == 0 <==>
      (forall c <- Body(s) :: Table(url, c) != INVALID) && |Body(s)| % 4 != 1
  {
    assert forall c :: Digits(url)(c) == Table(url, c);
  }

  /** The unused low bits of the last character are zero. */
  predicate ZeroTrailingBits(body: string, val: char -> int) {
    && (|body| % 4 == 2 ==> val(body[|body| - 1]) % 16 == 0)
    && (|body| % 4 == 3 ==> val(body[|body| - 1]) % 4 == 0)
  }

  /** Four more characters in front change neither side of the equivalence. */
  lemma EncodeDecodeStep(body: string, rest: string, enc: Bytes3 -> Chars4, dec: Chars4 -> Bytes3, val: char -> int)
    requires |body| >= 4 && rest == body[4..]
    requires enc(dec(Chars4(body[0], body[1], body[2], body[3]))) == Chars4(body[0], body[1], body[2], body[3])
    ensures EncodeBy(DecodeBy(body, dec), enc, false) == body[..4] + EncodeBy(DecodeBy(rest, dec), enc, false)
  {
    var g := dec(Chars4(body[0], body[1], body[2], body[3]));
    var bytes := DecodeBy(body, dec);
    assert bytes == [g.x, g.y, g.z] + DecodeBy(rest, dec);
    assert bytes[3..] == DecodeBy(rest, dec);
    assert body[..4] == [body[0], body[1], body[2], body[3]];
  }

  lemma TailDecides(body: string, rest: string, e: string, val: char -> int)
    requires |body| >= 4 && rest == body[4..]
    ensures body[..4] + e == body <==> e == rest
    ensures ZeroTrailingBits(body, val) == ZeroTrailingBits(rest, val)
  {
    assert (body[..4] + e)[4..] == e;
    assert body == body[..4] + rest;
    assert |body| % 4 == |rest| % 4;
    assert |rest| > 0 ==> body[|body| - 1] == rest[|rest| - 1];
  }

  lemma {:induction false} EncodeDecodeBody(body: string, enc: Bytes3 -> Chars4, dec: Chars4 -> Bytes3, val: char -> int)
    requires Codec(enc, dec, val) && Cuts(enc, dec, val) && AllValid(body, val) && |body| % 4 != 1
    ensures EncodeBy(DecodeBy(body, dec), enc, false) == body <==> ZeroTrailingBits(body, val)
    decreases |body|
  {
    if |body| >= 4 {
      assert Clean(Chars4(body[0], body[1], body[2], body[3]), val);
      EncodeDecodeBody(body[4..], enc, dec, val);
      EncodeDecodeStep(body, body[4..], enc, dec, val);
      TailDecides(body, body[4..], EncodeBy(DecodeBy(body[4..], dec), enc, false), val);
    } else {
      CutsAt(body, enc, dec, val);
      EncodeDecodeShort(body, enc, dec, val);
    }
  }

  /** A last group, filled with 'A', keeps what the cuts keep. */
  lemma CutsAt(body: string, enc: Bytes3 -> Chars4, dec: Chars4 -> Bytes3, val: char -> int)
    requires Codec(enc, dec, val) && Cuts(enc, dec, val) && AllValid(body, val)
    ensures |body| == 3 ==> KeepsTwo(enc, dec, val, Chars4(body[0], body[1], body[2], 'A'))
    ensures |body| == 2 ==> KeepsOne(enc, dec, val, Chars4(body[0], body[1], 'A', 'A'))
  {
    if |body| == 3 {
      assert Clean(Chars4(body[0], body[1], body[2], 'A'), val);
    } else if |body| == 2 {
      assert Clean(Chars4(body[0], body[1], 'A', 'A'), val);
    }
  }

  lemma EncodeDecodeShort(body: string, enc: Bytes3 -> Chars4, dec: Chars4 -> Bytes3, val: char -> int)
    requires |body| < 4 && |body| != 1
    requires |body| == 3 ==> KeepsTwo(enc, dec, val, Chars4(body[0], body[1], body[2], 'A'))
    requires |body| == 2 ==> KeepsOne(enc, dec, val, Chars4(body[0], body[1], 'A', 'A'))
    ensures EncodeBy(DecodeBy(body, dec), enc, false) == body <==> ZeroTrailingBits(body, val)
  {
    if |body| == 3 {
      var c := Chars4(body[0], body[1], body[2], 'A');
      EncodeDecodeThree(c, enc, dec, val);
      assert body == [c.p, c.q, c.r];
    } else if |body| == 2 {
      var c := Chars4(body[0], body[1], 'A', 'A');
      EncodeDecodeTwo(c, enc, dec, val);
      assert body == [c.p, c.q];
    }
  }

  lemma EncodeDecodeThree(c: Chars4, enc: Bytes3 -> Chars4, dec: Chars4 -> Bytes3, val: char -> int)
    requires c.s == 'A' && KeepsTwo(enc, dec, val, c)
    ensures EncodeBy(DecodeBy([c.p, c.q, c.r], dec), enc, false) == [c.p, c.q, c.r] <==> val(c.r) % 4 == 0
  {
    var e := enc(Bytes3(dec(c).x, dec(c).y, 0));
    assert DecodeBy([c.p, c.q, c.r], dec) == [dec(c).x, dec(c).y];
    assert EncodeBy([dec(c).x, dec(c).y], enc, false) == [e.p, e.q, e.r];
    assert [e.p, e.q, e.r][2] == e.r && [c.p, c.q, c.r][2] == c.r;
  }

  lemma EncodeDecodeTwo(c: Chars4, enc: Bytes3 -> Chars4, dec: Chars4 -> Bytes3, val: char -> int)
    requires c.r == 'A' && c.s == 'A' && KeepsOne(enc, dec, val, c)
    ensures EncodeBy(DecodeBy([c.p, c.q], dec), enc, false) == [c.p, c.q] <==> val(c.q) % 16 == 0
  {
    var e := enc(Bytes3(dec(c).x, 0, 0));
    assert DecodeBy([c.p, c.q], dec) == [dec(c).x];
    assert EncodeBy([dec(c).x], enc, false) == [e.p, e.q];
    assert [e.p, e.q][1] == e.q && [c.p, c.q][1] == c.q;
  }

  lemma CanonicalBy(s: string, enc: Bytes3 -> Chars4, dec: Chars4 -> Bytes3, val: char -> int, padding: bool)
    requires Codec(enc, dec, val) && Cuts(enc, dec, val)
    requires AllValid(Body(s), val) && |Body(s)| % 4 != 1
    ensures EncodeBy(DecodeBy(Body(s), dec), enc, padding) == s <==>
      && s == Body(s) + (if padding then Padding(|Body(s)|) else "")
      && ZeroTrailingBits(Body(s), val)
  {
    var body := Body(s);
    var bytes := DecodeBy(body, dec);
    var e := EncodeBy(bytes, enc, false);
    EncodeDecodeBody(body, enc, dec, val);
    UnpaddedDecodes(bytes, enc, dec, val);
    PaddingAppends(bytes, enc);
    var p := if padding then Padding(|e|) else "";
    assert e + "" == e && '=' !in e;
    BodyOf(e, p);
  }

  /**
   encode(decode(s)) == s exactly for the texts that carry the right padding and whose trailing
   bits are zero.
   */
  lemma EncodeDecodeIff(s: string, url: bool, padding: bool)
    requires Decode(s, url).ret == 0
    ensures Encode(Decode(s, url).dst, url, padding) == s <==>
      && s == Body(s) + (if padding then Padding(|Body(s)|) else "")
      && ZeroTrailingBits(Body(s), Digits(url))
  {
    CodecHolds(url);
    CanonicalBy(s, Encoder(url), Decoder(url), Digits(url), padding);
  }
}
