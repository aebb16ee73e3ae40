/** The counter nonces of both ends: increaseNonce in socket.go and in ui/crypto.js. */
module Nonce {
  import opened Bytes

  /** The number a nonce spells, most significant byte first. */
  function Value(n: seq<Byte>): nat {
    if n == [] then 0 else Value(n[..|n| - 1]) * 256 + n[|n| - 1]
  }

  function Pow256(k: nat): nat {
    if k == 0 then 1 else 256 * Pow256(k - 1)
  }

  /** The nonce after one increase. */
  function Increased(n: seq<Byte>): (r: seq<Byte>)
    ensures |r| == |n|
  {
    if n == [] then []
    else if n[|n| - 1] == 255 then Increased(n[..|n| - 1]) + [0]
    else n[..|n| - 1] + [n[|n| - 1] + 1]
  }

  /** The nonce after `k` increases. */
  function Advanced(n: seq<Byte>, k: nat): (r: seq<Byte>)
    ensures |r| == |n|
  {
    if k == 0 then n else Increased(Advanced(n, k - 1))
  }

  lemma {:induction false} ValueBound(n: seq<Byte>)
    ensures Value(n) < Pow256(|n|)
  {
    if n == [] {
    } else {
      ValueBound(n[..|n| - 1]);
    }
  }

  lemma {:induction false} ValueSnoc(n: seq<Byte>, b: Byte)
    ensures Value(n + [b]) == Value(n) * 256 + b
  {
    assert (n + [b])[..|n|] == n;
  }

  /** An increase adds one, and wraps around at the end of the range. */
  lemma {:induction false} IncreasedCounts(n: seq<Byte>)
    ensures Value(Increased(n)) == if Value(n) + 1 == Pow256(|n|) then 0 else Value(n) + 1
  {
    if n == [] {
    } else {
      var high, low := n[..|n| - 1], n[|n| - 1];
      ValueBound(high);
      if low == 255 {
        IncreasedCounts(high);
        ValueSnoc(Increased(high), 0);
      } else {
        ValueSnoc(high, low + 1);
      }
    }
  }

  /** How often the counter starts again from zero in `k` increases. */
  function Wraps(n: seq<Byte>, k: nat): nat {
    if k == 0 then 0
    else Wraps(n, k - 1) + if Value(Advanced(n, k - 1)) + 1 == Pow256(|n|) then 1 else 0
  }

  lemma {:induction false} OneMore(x: nat, k: nat, range: nat, v: nat, wraps: nat, v': nat, wraps': nat)
    requires k > 0 && x + k - 1 == v + wraps * range
    requires if v + 1 == range then v' == 0 && wraps' == wraps + 1 else v' == v + 1 && wraps' == wraps
    ensures x + k == v' + wraps' * range
  {
    Distribute(wraps, range);
  }

  /** `k` increases add `k`, modulo the range of the counter. */
  lemma {:induction false} AdvancedCounts(n: seq<Byte>, k: nat)
    ensures Value(Advanced(n, k)) < Pow256(|n|)
    ensures Value(n) + k == Value(Advanced(n, k)) + Wraps(n, k) * Pow256(|n|)
  {
    ValueBound(Advanced(n, k));
    if k == 0 {
    } else {
      AdvancedCounts(n, k - 1);
      IncreasedCounts(Advanced(n, k - 1));
      OneMore(Value(n), k, Pow256(|n|), Value(Advanced(n, k - 1)), Wraps(n, k - 1),
              Value(Advanced(n, k)), Wraps(n, k));
    }
  }

  lemma {:induction false} Distribute(a: nat, m: nat)
    ensures (a + 1) * m == a * m + m
  {
  }

  lemma {:induction false} AtLeastOne(a: int, m: nat)
    requires a >= 1
    ensures a * m >= m
  {
  }

  /**
   * The nonces of one direction never repeat within the range of the counter: as many as
   * 256^12 records, section 8 of NIST SP 800-38D.
   */
  lemma {:induction false} NoncesAreDistinct(n: seq<Byte>, j: nat, k: nat)
    requires j < k < j + Pow256(|n|)
    ensures Advanced(n, j) != Advanced(n, k)
  {
    AdvancedCounts(n, j);
    AdvancedCounts(n, k);
    NotAMultiple(Wraps(n, j), Wraps(n, k), Pow256(|n|), k - j);
  }

  lemma {:induction false} NotAMultiple(a: nat, b: nat, m: nat, d: nat)
    requires 0 < d < m
    ensures b * m != a * m + d
  {
    if b > a {
      AtLeastOne(b - a, m);
      assert b * m == a * m + (b - a) * m;
    } else {
      assert a * m == b * m + (a - b) * m;
    }
  }

  /** increaseNonce: carries from the last byte towards the first. */
  method IncreaseNonce(nonce: array<Byte>)
    modifies nonce
    ensures nonce[..] == Increased(old(nonce[..]))
  {
    ghost var was := nonce[..];
    var i := nonce.Length;
    assert was[..i] == was && Increased(was) + nonce[i..] == Increased(was);
    while i > 0
      invariant 0 <= i <= nonce.Length
      invariant nonce[..i] == was[..i]
      invariant Increased(was) == Increased(was[..i]) + nonce[i..]
    {
      assert was[..i][..i - 1] == was[..i - 1];
      nonce[i - 1] := if nonce[i - 1] == 255 then 0 else nonce[i - 1] + 1;
      if nonce[i - 1] <= 0 {
        assert was[i - 1] == 255;
        assert Increased(was[..i]) == Increased(was[..i - 1]) + [0];
        assert nonce[i - 1..] == [0] + nonce[i..];
        i := i - 1;
        continue;
      }
      assert Increased(was[..i]) == was[..i - 1] + [nonce[i - 1]];
      assert nonce[..] == was[..i - 1] + [nonce[i - 1]] + nonce[i..];
      return;
    }
    assert nonce[..] == nonce[0..];
  }
}
