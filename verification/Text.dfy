/** The string operations the HTTP parser takes from the standard library and boost. */
module Text {
  import opened Common

  const CRLF := "\r\n"

  predicate IsSpace(c: char) {
    c == ' ' || c == '\t' || c == '\n' || c == '\U{0b}' || c == '\U{0c}' || c == '\r'
  }

  function TrimLeft(s: string): string {
    if s != "" && IsSpace(s[0]) then TrimLeft(s[1..]) else s
  }

  function TrimRight(s: string): string {
    if s != "" && IsSpace(s[|s| - 1]) then TrimRight(s[..|s| - 1]) else s
  }

  function Trim(s: string): string { TrimLeft(TrimRight(s)) }

  /** No white space at either end. */
  predicate Trimmed(s: string) { s == "" || (!IsSpace(s[0]) && !IsSpace(s[|s| - 1])) }

  /** Index of the first `c`, or the length. */
  function IndexOf(s: string, c: char): (i: nat)
    ensures i <= |s|
  {
    if s == "" || s[0] == c then 0 else 1 + IndexOf(s[1..], c)
  }

  /** boost::split on one separator: always at least one piece. */
  function Split(s: string, c: char): (parts: seq<string>)
    ensures |parts| > 0
    decreases |s|
  {
    var i := IndexOf(s, c);
    if i == |s| then [s] else [s[..i]] + Split(s[i + 1..], c)
  }

  function Join(parts: seq<string>, c: char): string
    requires |parts| > 0
  {
    if |parts| == 1 then parts[0] else parts[0] + [c] + Join(parts[1..], c)
  }

  /** Index of the first CRLF, or -1. */
  function FindCrlf(s: string): (i: int)
    ensures -1 <= i && (i >= 0 ==> i + 2 <= |s|)
  {
    if |s| < 2 then -1
    else if s[0] == '\r' && s[1] == '\n' then 0
    else
      var i := FindCrlf(s[1..]);
      if i < 0 then -1 else i + 1
  }

  predicate StartsWith(s: string, prefix: string) { |prefix| <= |s| && s[..|prefix|] == prefix }

  // -------------------------------------------------------------------- properties

  lemma {:induction false} IndexOfFirst(a: string, c: char, b: string)
    requires c !in a
    ensures IndexOf(a + [c] + b, c) == |a| && IndexOf(a, c) == |a|
  {
    if a != "" {
      assert (a + [c] + b)[1..] == a[1..] + [c] + b;
      IndexOfFirst(a[1..], c, b);
    }
  }

  lemma SplitOnce(a: string, c: char, b: string)
    requires c !in a
    ensures Split(a + [c] + b, c) == [a] + Split(b, c) && Split(a, c) == [a]
  {
    IndexOfFirst(a, c, b);
    var s := a + [c] + b;
    assert s[..|a|] == a && s[|a| + 1..] == b;
  }

  /** Splitting undoes joining. */
  lemma {:induction false} SplitJoin(parts: seq<string>, c: char)
    requires |parts| > 0 && forall p <- parts :: c !in p
    ensures Split(Join(parts, c), c) == parts
    decreases |parts|
  {
    if |parts| == 1 {
      SplitOnce(parts[0], c, "");
    } else {
      SplitOnce(parts[0], c, Join(parts[1..], c));
      SplitJoin(parts[1..], c);
      assert parts == [parts[0]] + parts[1..];
    }
  }

  /** And joining undoes splitting: the pieces are separator-free and lose nothing. */
  lemma {:induction false} JoinSplit(s: string, c: char)
    ensures Join(Split(s, c), c) == s && forall p <- Split(s, c) :: c !in p
    decreases |s|
  {
    IndexOfIsFirst(s, c);
    var i := IndexOf(s, c);
    if i < |s| {
      JoinSplit(s[i + 1..], c);
      assert ([s[..i]] + Split(s[i + 1..], c))[1..] == Split(s[i + 1..], c);
      assert s == s[..i] + [c] + s[i + 1..];
    }
  }

  lemma {:induction false} IndexOfIsFirst(s: string, c: char)
    ensures c !in s[..IndexOf(s, c)] && (IndexOf(s, c) < |s| ==> s[IndexOf(s, c)] == c)
  {
    if s != "" && s[0] != c {
      IndexOfIsFirst(s[1..], c);
      assert s[..IndexOf(s, c)] == [s[0]] + s[1..][..IndexOf(s[1..], c)];
    }
  }

  lemma {:induction false} FindCrlfFirst(a: string, b: string)
    requires '\r' !in a
    ensures FindCrlf(a + CRLF + b) == |a|
  {
    if a != "" {
      assert (a + CRLF + b)[1..] == a[1..] + CRLF + b;
      FindCrlfFirst(a[1..], b);
    }
  }

  predicate CrlfAt(s: string, j: nat) { j + 2 <= |s| && s[j] == '\r' && s[j + 1] == '\n' }

  lemma {:induction false} FindCrlfFinds(s: string)
    ensures FindCrlf(s) >= 0 ==> CrlfAt(s, FindCrlf(s))
    ensures forall j: nat :: CrlfAt(s, j) ==> 0 <= FindCrlf(s) <= j
  {
    if |s| >= 2 {
      FindCrlfFinds(s[1..]);
      forall j: nat | CrlfAt(s, j) ensures 0 <= FindCrlf(s) <= j {
        if j > 0 { assert CrlfAt(s[1..], j - 1); }
      }
    }
  }

  lemma TrimTrimmed(s: string)
    requires Trimmed(s)
    ensures Trim(s) == s && Trim(" " + s) == s
    ensures TrimLeft(s) == s && TrimLeft(" " + s) == s
  {
    assert (" " + s)[1..] == s;
    if s == "" {
      assert (" " + s)[..0] == "";
      assert TrimRight(" " + s) == TrimRight("");
    } else {
      assert TrimRight(" " + s) == " " + s;
    }
  }

  /** How often a character occurs. */
  function Occurrences(s: string, c: char): nat { multiset(s)[c] }

  lemma OccurrencesAdd(a: string, b: string, c: char)
    ensures Occurrences(a + b, c) == Occurrences(a, c) + Occurrences(b, c)
  {
  }

  /** A text is split at every separator in it. */
  lemma {:induction false} SplitLength(s: string, c: char)
    ensures |Split(s, c)| == 1 + Occurrences(s, c)
    decreases |s|
  {
    var i := IndexOf(s, c);
    IndexOfIsFirst(s, c);
    if i < |s| {
      assert s == s[..i] + [c] + s[i + 1..];
      OccurrencesAdd(s[..i] + [c], s[i + 1..], c);
      OccurrencesAdd(s[..i], [c], c);
      SplitLength(s[i + 1..], c);
    } else {
      assert s[..i] == s;
    }
  }

  lemma {:induction false} TrimRightKeeps(s: string, c: char)
    requires !IsSpace(c)
    ensures Occurrences(TrimRight(s), c) == Occurrences(s, c)
    decreases |s|
  {
    if s != "" && IsSpace(s[|s| - 1]) {
      assert s == s[..|s| - 1] + [s[|s| - 1]];
      OccurrencesAdd(s[..|s| - 1], [s[|s| - 1]], c);
      TrimRightKeeps(s[..|s| - 1], c);
    }
  }

  lemma {:induction false} TrimLeftKeeps(s: string, c: char)
    requires !IsSpace(c)
    ensures Occurrences(TrimLeft(s), c) == Occurrences(s, c)
    decreases |s|
  {
    if s != "" && IsSpace(s[0]) {
      assert s == [s[0]] + s[1..];
      OccurrencesAdd([s[0]], s[1..], c);
      TrimLeftKeeps(s[1..], c);
    }
  }

  /** Trimming takes away white space alone. */
  lemma TrimKeeps(s: string, c: char)
    requires !IsSpace(c)
    ensures Occurrences(Trim(s), c) == Occurrences(s, c)
  {
    TrimRightKeeps(s, c);
    TrimLeftKeeps(TrimRight(s), c);
  }

  ghost predicate AllSpace(s: string) { forall c <- s :: IsSpace(c) }

  lemma {:induction false} TrimRightIs(s: string) returns (after: string)
    ensures s == TrimRight(s) + after && AllSpace(after)
    ensures TrimRight(s) != "" ==> !IsSpace(TrimRight(s)[|TrimRight(s)| - 1])
    decreases |s|
  {
    if s != "" && IsSpace(s[|s| - 1]) {
      var init := s[..|s| - 1];
      var rest := TrimRightIs(init);
      after := rest + [s[|s| - 1]];
      assert s == init + [s[|s| - 1]];
      ConcatAssoc(TrimRight(s), rest, [s[|s| - 1]]);
    } else {
      after := "";
    }
  }

  lemma {:induction false} TrimLeftIs(s: string) returns (before: string)
    ensures s == before + TrimLeft(s) && AllSpace(before)
    ensures TrimLeft(s) != "" ==> !IsSpace(TrimLeft(s)[0])
    decreases |s|
  {
    if s != "" && IsSpace(s[0]) {
      var rest := TrimLeftIs(s[1..]);
      before := [s[0]] + rest;
      ConcatAssoc([s[0]], rest, TrimLeft(s));
      assert s == [s[0]] + s[1..];
    } else {
      before := "";
    }
  }

  /** Trimming takes away all white space at both ends, and nothing else. */
  lemma TrimIs(s: string) returns (before: string, after: string)
    ensures s == before + Trim(s) + after && AllSpace(before) && AllSpace(after) && Trimmed(Trim(s))
  {
    after := TrimRightIs(s);
    var t := TrimRight(s);
    before := TrimLeftIs(t);
    var u := TrimLeft(t);
    if u != "" { assert t[|t| - 1] == u[|u| - 1]; }
  }
}
