/** The sliding-window byte buffer of a stream, in place over an array. */
module Buffers {

  const DEFAULT_SIZE: nat := 1024 * 100

  /**
   Where a read from the socket lands. The code passes data(), the read end, to read();
   extendReadBytes then grows the write end, which is where the bytes were meant to go.
   */
  datatype Fill = AtReadEnd | AtWriteEnd

  datatype RawWindow = Window(bytes: string, read: nat, write: nat)
  type Window = w: RawWindow | w.read <= w.write <= |w.bytes| witness Window("", 0, 0)

  function Contents(b: Window): string { b.bytes[b.read..b.write] }
  function Readable(b: Window): nat { b.write - b.read }
  function Writable(b: Window): nat { |b.bytes| - b.write }
  function Room(b: Window): nat { |b.bytes| - Readable(b) }

  function Overwrite(bytes: string, at: nat, data: string): (r: string)
    requires at + |data| <= |bytes|
    ensures |r| == |bytes|
  {
    bytes[..at] + data + bytes[at + |data|..]
  }

  function Compacted(b: Window): Window {
    Window(Overwrite(b.bytes, 0, Contents(b)), 0, Readable(b))
  }

  function Ensured(b: Window, len: nat): Window {
    if Writable(b) >= len || Room(b) < len then b else Compacted(b)
  }

  function Appended(b: Window, data: string): Window
    requires |data| <= Room(b)
  {
    var e := Ensured(b, |data|);
    Window(Overwrite(e.bytes, e.write, data), e.read, e.write + |data|)
  }

  function Taken(b: Window, len: nat): Window
    requires len <= Readable(b)
  {
    b.(read := b.read + len)
  }

  function Filled(fill: Fill, b: Window, data: string): Window
    requires |data| <= Writable(b)
  {
    Window(Overwrite(b.bytes, if fill == AtReadEnd then b.read else b.write, data), b.read, b.write + |data|)
  }

  predicate MatchAt(c: string, d: string, i: nat) {
    i + |d| <= |c| && c[i..i + |d|] == d
  }

  lemma MatchByCharacters(c: string, d: string, i: nat)
    requires i + |d| <= |c|
    ensures MatchAt(c, d, i) <==> forall j :: 0 <= j < |d| ==> c[i + j] == d[j]
  {
    var piece := c[i..i + |d|];
    assert forall j :: 0 <= j < |d| ==> piece[j] == c[i + j];
  }

  function FindFrom(c: string, d: string, i: nat): (r: int)
    ensures r >= 0 ==> r + |d| <= |c|
    decreases |c| - i
  {
    if i + |d| > |c| then -1 else if MatchAt(c, d, i) then i
    else if i == |c| then -1 else FindFrom(c, d, i + 1)
  }

  /** find: an empty range reports "not found" even for the empty delimiter. */
  function Find(c: string, d: string): (r: int)
    ensures r >= 0 ==> r + |d| <= |c|
  {
    if c == "" then -1 else FindFrom(c, d, 0)
  }

  // -------------------------------------------------------------------- properties

  /** Compaction moves the unread bytes without changing them; appending is FIFO. */
  lemma AppendIsFifo(b: Window, data: string)
    ensures Contents(Compacted(b)) == Contents(b) && Room(Compacted(b)) == Writable(Compacted(b))
    ensures |data| <= Room(b) ==> Contents(Appended(b, data)) == Contents(b) + data
  {
    assert Contents(Compacted(b)) == Contents(b);
    if |data| <= Room(b) {
      var e := Ensured(b, |data|);
      assert Appended(b, data).bytes[e.read..e.write + |data|] == e.bytes[e.read..e.write] + data;
    }
  }

  lemma EnsuringKeepsContents(b: Window, len: nat)
    ensures Contents(Ensured(b, len)) == Contents(b)
  {
    AppendIsFifo(b, "");
  }

  lemma TakeIsFifo(b: Window, len: nat)
    requires len <= Readable(b)
    ensures Contents(b)[..len] + Contents(Taken(b, len)) == Contents(b)
  {
  }

  /** Filling at the write end is FIFO. */
  lemma MeantFillIsFifo(b: Window, data: string)
    requires |data| <= Writable(b)
    ensures Contents(Filled(AtWriteEnd, b, data)) == Contents(b) + data
  {
  }

  /** What the fill of the code does: the new bytes overlay the oldest unread ones. */
  lemma CodedFillOverlays(b: Window, data: string)
    requires |data| <= Writable(b)
    ensures var c := Contents(Filled(AtReadEnd, b, data));
      |c| == Readable(b) + |data| && c[..|data|] == data
  {
  }

  lemma SlidBytes(before: string, after: string, at: nat, n: nat)
    requires at + n <= |before| == |after|
    requires forall k :: 0 <= k < n ==> after[k] == before[at + k]
    requires forall k :: n <= k < |after| ==> after[k] == before[k]
    ensures after == Overwrite(before, 0, before[at..at + n])
  {
    var piece := before[at..at + n];
    assert after[..n] == piece && after[n..] == before[n..];
    assert after == after[..n] + after[n..];
  }

  /** The two fills agree on every payload when nothing is unread... */
  lemma FillsAgreeWhenEmpty(b: Window, data: string)
    requires |data| <= Writable(b) && Readable(b) == 0
    ensures Filled(AtReadEnd, b, data) == Filled(AtWriteEnd, b, data)
  {
  }

  /** ...and only then: otherwise some payload of that length is misplaced. */
  lemma CodedFillIsFifoIffEmpty(b: Window, len: nat)
    requires 0 < len <= Writable(b)
    ensures (forall data | |data| == len :: Contents(Filled(AtReadEnd, b, data)) == Contents(b) + data)
            <==> Readable(b) == 0
  {
    if Readable(b) == 0 {
      forall data | |data| == len ensures Contents(Filled(AtReadEnd, b, data)) == Contents(b) + data {
        FillsAgreeWhenEmpty(b, data);
        MeantFillIsFifo(b, data);
      }
    } else {
      var other := if Contents(b)[0] == 'a' then 'b' else 'a';
      var data := seq(len, _ => other);
      CodedFillOverlays(b, data);
      assert Contents(Filled(AtReadEnd, b, data))[0] == data[0] != (Contents(b) + data)[0];
    }
  }

  lemma {:induction false} FindFromIsFirst(c: string, d: string, i: nat)
    requires i <= |c|
    ensures var r := FindFrom(c, d, i);
      && (r >= 0 ==> i <= r && MatchAt(c, d, r))
      && (forall j: nat | i <= j && (r >= 0 ==> j < r) :: !MatchAt(c, d, j))
    decreases |c| - i
  {
    if i + |d| <= |c| && !MatchAt(c, d, i) && i < |c| { FindFromIsFirst(c, d, i + 1); }
  }

  /** A found delimiter is the first one, and stays first however many bytes follow. */
  lemma FindIsStable(c: string, d: string, more: string)
    requires d != "" && Find(c, d) >= 0
    ensures Find(c + more, d) == Find(c, d) && Find(c, d) + |d| <= |c|
  {
    var i, j := Find(c, d), Find(c + more, d);
    FindFromIsFirst(c, d, 0);
    FindFromIsFirst(c + more, d, 0);
    assert (c + more)[i..i + |d|] == c[i..i + |d|];
    assert MatchAt(c + more, d, i);
    if j < i { assert (c + more)[j..j + |d|] == c[j..j + |d|]; assert MatchAt(c, d, j); }
  }

  /** What is found lies within what is unread. */
  lemma FoundFits(b: Window, d: string)
    ensures |Contents(b)| == Readable(b)
    ensures Find(Contents(b), d) >= 0 ==> Find(Contents(b), d) + |d| <= Readable(b)
  {
  }

  // --------------------------------------------------------------------- the object

  class Buffer {
    const buff: array<char>
    var readIndex: nat
    var writeIndex: nat

    ghost predicate Valid()
      reads this
    {
      readIndex <= writeIndex <= buff.Length
    }

    ghost function Value(): Window
      requires Valid()
      reads this, buff
    {
      Window(buff[..], readIndex, writeIndex)
    }

    constructor (len: nat)
      requires 0 < len < 1024 * 1024 * 10
      ensures Valid() && fresh(buff) && buff.Length == len && Contents(Value()) == ""
      ensures Value().read == 0
    {
      buff := new char[len](_ => '\0');
      readIndex := 0;
      writeIndex := 0;
    }

    function ReadableBytes(): int
      reads this
    {
      writeIndex - readIndex
    }

    function WritableBytes(): int
      reads this
    {
      buff.Length - writeIndex
    }

    /** std::copy of `data` into the array at `at`. */
    method Store(at: nat, data: string)
      requires at + |data| <= buff.Length
      modifies buff
      ensures buff[..] == Overwrite(old(buff[..]), at, data)
    {
      var i := 0;
      while i < |data|
        invariant 0 <= i <= |data|
        invariant forall k :: 0 <= k < i ==> buff[at + k] == data[k]
        invariant forall k :: 0 <= k < buff.Length && !(at <= k < at + i) ==> buff[k] == old(buff[k])
      {
        buff[at + i] := data[i];
        i := i + 1;
      }
      assert buff[at..at + |data|] == data;
      assert buff[..] == buff[..at] + buff[at..at + |data|] + buff[at + |data|..];
    }

    /** std::copy of the unread bytes to the start of the array. */
    method SlideDown(readable: nat)
      requires Valid() && readable == writeIndex - readIndex
      modifies buff
      ensures forall k :: 0 <= k < readable ==> buff[k] == old(buff[readIndex + k])
      ensures forall k :: readable <= k < buff.Length ==> buff[k] == old(buff[k])
    {
      var i := 0;
      while i < readable
        invariant 0 <= i <= readable
        invariant forall k :: 0 <= k < i ==> buff[k] == old(buff[readIndex + k])
        invariant forall k :: i <= k < buff.Length ==> buff[k] == old(buff[k])
      {
        buff[i] := buff[readIndex + i];
        i := i + 1;
      }
    }

    /** makeSpace: slide the unread bytes down to the start, in place. */
    method MakeSpace()
      requires Valid()
      modifies this`readIndex, this`writeIndex, buff
      ensures Valid() && Value() == Compacted(old(Value()))
    {
      var readable := writeIndex - readIndex;
      ghost var before := buff[..];
      SlideDown(readable);
      SlidBytes(before, buff[..], readIndex, readable);
      readIndex := 0;
      writeIndex := readable;
    }

    method EnsureWritableBytes(len: nat) returns (ok: bool)
      requires Valid()
      modifies this`readIndex, this`writeIndex, buff
      ensures Valid() && Value() == Ensured(old(Value()), len)
      ensures ok <==> len <= Room(old(Value()))
      ensures ok ==> len <= Writable(Value())
    {
      if WritableBytes() >= len {
        return true;
      }
      if WritableBytes() + readIndex < len {
        return false;
      }
      MakeSpace();
      return true;
    }

    method Append(data: string) returns (ok: bool)
      requires Valid()
      modifies this`readIndex, this`writeIndex, buff
      ensures Valid() && (ok <==> |data| <= Room(old(Value())))
      ensures Value() == if ok then Appended(old(Value()), data) else old(Value())
    {
      ok := EnsureWritableBytes(|data|);
      if ok {
        Store(writeIndex, data);
        writeIndex := writeIndex + |data|;
      }
    }

    method ExtendReadBytes(add: nat) returns (ok: bool)
      requires Valid()
      modifies this`writeIndex
      ensures Valid() && (ok <==> add <= old(buff.Length - writeIndex))
      ensures writeIndex == old(writeIndex) + if ok then add else 0
    {
      if WritableBytes() < add {
        return false;
      }
      writeIndex := writeIndex + add;
      return true;
    }

    method ReadBytesToString(len: nat) returns (ok: bool, result: string)
      requires Valid()
      modifies this`readIndex
      ensures Valid() && (ok <==> len <= Readable(old(Value())))
      ensures ok ==> result == Contents(old(Value()))[..len] && Value() == Taken(old(Value()), len)
      ensures !ok ==> result == "" && Value() == old(Value())
    {
      if len > writeIndex - readIndex {
        return false, "";
      }
      result := buff[readIndex..readIndex + len];
      readIndex := readIndex + len;
      return true, result;
    }

    method ReadBytes(len: nat) returns (ok: bool)
      requires Valid()
      modifies this`readIndex
      ensures Valid() && (ok <==> len <= Readable(old(Value())))
      ensures Value() == if ok then Taken(old(Value()), len) else old(Value())
    {
      if len > writeIndex - readIndex {
        return false;
      }
      readIndex := readIndex + len;
      return true;
    }

    /** The inner comparison of std::search. */
    method Matches(pos: nat, delimiter: string) returns (found: bool)
      requires Valid() && readIndex <= pos && pos + |delimiter| <= writeIndex
      ensures found <==> MatchAt(Contents(Value()), delimiter, pos - readIndex)
    {
      ghost var c, at := Contents(Value()), pos - readIndex;
      MatchByCharacters(c, delimiter, at);
      var k := 0;
      while k < |delimiter|
        invariant 0 <= k <= |delimiter|
        invariant forall j :: 0 <= j < k ==> c[at + j] == delimiter[j]
      {
        assert c[at + k] == buff[pos + k];
        if buff[pos + k] != delimiter[k] {
          return false;
        }
        k := k + 1;
      }
      return true;
    }

    /** find: std::search over the unread bytes. */
    method Search(delimiter: string) returns (index: int)
      requires Valid()
      ensures index == Find(Contents(Value()), delimiter)
    {
      if readIndex == writeIndex {
        return -1;
      }
      var pos := readIndex;
      while pos + |delimiter| <= writeIndex
        invariant readIndex <= pos <= writeIndex + 1
        invariant pos <= writeIndex ==>
          Find(Contents(Value()), delimiter) == FindFrom(Contents(Value()), delimiter, pos - readIndex)
        invariant pos > writeIndex ==> Find(Contents(Value()), delimiter) == -1
      {
        var found := Matches(pos, delimiter);
        if found {
          return pos - readIndex;
        }
        pos := pos + 1;
      }
      return -1;
    }
  }
}
