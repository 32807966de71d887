/** Small shared vocabulary. */
module Common {
  datatype Option<+T> = None | Some(value: T)

  function Min(a: int, b: int): int { if a <= b then a else b }

  lemma ConcatAssoc<T>(a: seq<T>, b: seq<T>, c: seq<T>)
    ensures a + (b + c) == a + b + c
  {
  }

  /** The concatenation of a list of strings. */
  function Flatten(parts: seq<string>): string {
    if parts == [] then "" else parts[0] + Flatten(parts[1..])
  }

  lemma {:induction false} FlattenAppend(a: seq<string>, b: seq<string>)
    ensures Flatten(a + b) == Flatten(a) + Flatten(b)
  {
    if a == [] {
      assert a + b == b;
    } else {
      FlattenAppend(a[1..], b);
      assert (a + b)[1..] == a[1..] + b;
      ConcatAssoc(a[0], Flatten(a[1..]), Flatten(b));
    }
  }

  lemma FlattenPush(parts: seq<string>, piece: string)
    ensures Flatten(parts + [piece]) == Flatten(parts) + piece
  {
    FlattenAppend(parts, [piece]);
    assert Flatten([piece]) == piece + Flatten([]);
  }

  /** Two successive extensions of a log are one. */
  lemma ExtensionsCompose<T>(a: seq<T>, b: seq<T>, c: seq<T>, q: seq<T>, r: seq<T>)
    requires a <= b <= c
    ensures q + b[|a|..] + c[|b|..] == q + c[|a|..]
    ensures r + b[|a|..] + c[|b|..] == r + c[|a|..]
  {
  }
}
