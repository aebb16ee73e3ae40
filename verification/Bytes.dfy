/** Byte strings and the few facts about them that every layer of the model shares. */
module Bytes {
  /** One octet. Bit masks of the source are written as division and remainder. */
  type Byte = b: int | 0 <= b < 256

  datatype Option<+T> = None | Some(value: T)

  function Min(a: int, b: int): int {
    if a <= b then a else b
  }

  /** The first `n` bytes, or all of them when there are fewer. */
  function Take(input: seq<Byte>, n: nat): seq<Byte> { input[..Min(n, |input|)] }

  /** What `Take` leaves. */
  function Drop(input: seq<Byte>, n: nat): seq<Byte> { input[Min(n, |input|)..] }

  lemma {:induction false} Assoc<T>(a: seq<T>, b: seq<T>, c: seq<T>)
    ensures a + (b + c) == a + b + c
  {
  }

  lemma {:induction false} SplitAt<T>(a: seq<T>, b: seq<T>)
    ensures (a + b)[..|a|] == a && (a + b)[|a|..] == b
  {
  }

  lemma {:induction false} TakeNext<T>(s: seq<T>, i: nat)
    requires i < |s|
    ensures s[..i + 1] == s[..i] + [s[i]]
  {
  }

  /** Reading `data` from the front of `p`, within a limit of `n`. */
  lemma {:induction false} TakeRead(p: seq<Byte>, data: seq<Byte>, q: seq<Byte>, n: nat)
    requires p == data + q && |data| <= n
    ensures Take(p, n) == data + Take(q, n - |data|) && Drop(p, n) == Drop(q, n - |data|)
  {
  }

  /** All chunks of a byte stream, joined. */
  function Flatten<T>(chunks: seq<seq<T>>): seq<T> {
    if chunks == [] then [] else chunks[0] + Flatten(chunks[1..])
  }

  lemma {:induction false} FlattenAppend<T>(a: seq<seq<T>>, b: seq<seq<T>>)
    ensures Flatten(a + b) == Flatten(a) + Flatten(b)
  {
    if a == [] {
      assert a + b == b;
    } else {
      assert (a + b)[1..] == a[1..] + b;
      FlattenAppend(a[1..], b);
    }
  }

  lemma {:induction false} FlattenSnoc<T>(a: seq<seq<T>>, c: seq<T>)
    ensures Flatten(a + [c]) == Flatten(a) + c
  {
    FlattenAppend(a, [c]);
    assert Flatten([c]) == c + Flatten([]);
  }

  lemma {:induction false} FlattenPrefix<A>(a: seq<seq<A>>, b: seq<seq<A>>)
    requires a <= b
    ensures Flatten(a) <= Flatten(b)
  {
    FlattenAppend(a, b[|a|..]);
    assert b == a + b[|a|..];
  }

  /** A part of a stream that reaches behind its first piece. */
  lemma {:induction false} PrefixBehind(p: seq<Byte>, first: seq<Byte>, others: seq<Byte>) returns (rest: seq<Byte>)
    requires p <= first + others && |first| <= |p|
    ensures p == first + rest && rest <= others
  {
    rest := p[|first|..];
  }

  /** Copies `src` into `dst` from `at` on. */
  method CopyInto(dst: array<Byte>, at: nat, src: seq<Byte>)
    requires at + |src| <= dst.Length
    modifies dst
    ensures dst[at..at + |src|] == src
    ensures dst[..at] == old(dst[..at]) && dst[at + |src|..] == old(dst[at + |src|..])
  {
    var k := 0;
    while k < |src|
      invariant 0 <= k <= |src| && dst[at..at + k] == src[..k]
      invariant dst[..at] == old(dst[..at]) && dst[at + |src|..] == old(dst[at + |src|..])
    {
      dst[at + k] := src[k];
      k := k + 1;
    }
  }
}
