/** The chunked readers of the client: ui/stream/reader.js. */
module Reader {
  import opened Bytes
  import opened Rw

  /** What can be read of the buffers fed: an empty one is depleted at once, and stays in the way. */
  function Readable(source: seq<seq<Byte>>): seq<Byte> {
    if source == [] || source[0] == [] then [] else source[0] + Readable(source[1..])
  }

  /** No buffer with bytes in it comes behind an empty one. */
  predicate EmptyOnesLast(source: seq<seq<Byte>>) {
    forall i, j :: 0 <= i < j < |source| && source[i] == [] ==> source[j] == []
  }

  lemma {:induction false} NothingFlat(source: seq<seq<Byte>>)
    ensures Flatten(source) == [] <==> forall k :: 0 <= k < |source| ==> source[k] == []
  {
    if source == [] {
    } else {
      NothingFlat(source[1..]);
      assert forall k :: 0 < k < |source| ==> source[k] == source[1..][k - 1];
      assert forall k :: 0 <= k < |source[1..]| ==> source[1..][k] == source[k + 1];
    }
  }

  /** All bytes fed can be read if and only if that is so; what can be read is always the first of them. */
  lemma {:induction false} AllCanBeRead(source: seq<seq<Byte>>)
    ensures Readable(source) <= Flatten(source)
    ensures Readable(source) == Flatten(source) <==> EmptyOnesLast(source)
  {
    if source == [] {
    } else if source[0] == [] {
      NothingFlat(source);
    } else {
      AllCanBeRead(source[1..]);
      assert forall k :: 0 < k < |source| ==> source[k] == source[1..][k - 1];
      assert EmptyOnesLast(source[1..]) <==> EmptyOnesLast(source) by {
        assert forall k :: 0 <= k < |source[1..]| ==> source[1..][k] == source[k + 1];
      }
    }
  }

  /** One empty buffer, and what is fed after it is never read. */
  lemma {:induction false} EmptyBufferBlocks(b: Byte)
    ensures Readable([[], [b]]) == [] && Flatten([[], [b]]) == [b]
  {
    assert [[], [b]][1..] == [[b]] && [[b]][1..] == [];
    assert Flatten([[b]]) == [b];
  }

  /**
   * Reader over its Multiple: `source` lists the buffers fed and not taken up yet; once the list is
   * used up the reader is closed, and every read is refused.
   */
  class Reader {
    var source: seq<seq<Byte>>
    var buffer: seq<Byte>
    var used: nat

    ghost predicate Valid()
      reads this
    {
      used <= |buffer|
    }

    /** Every byte that can still be handed out. */
    ghost function Pending(): seq<Byte>
      requires Valid()
      reads this
    {
      buffer[used..] + Readable(source)
    }

    constructor (source: seq<seq<Byte>>)
      ensures Valid() && Pending() == Readable(source)
    {
      this.source, buffer, used := source, [], 0;
    }

    /**
     * Up to `n` bytes of the current buffer; takes up the next buffer when it is depleted. An empty
     * one is never got rid of: this export throws on it, and so does every later one.
     */
    method Export(n: nat) returns (r: Fetched)
      requires Valid()
      modifies this
      ensures Valid()
      ensures r.Failed? <==> old(Pending()) == []
      ensures r.Failed? ==> Pending() == []
      ensures r.Got? ==> |r.data| <= n && old(Pending()) == r.data + Pending() && (n > 0 ==> r.data != [])
    {
      if |buffer| - used <= 0 {
        if source == [] || source[0] == [] {
          return Failed;
        }
        buffer, used, source := source[0], 0, source[1..];
      }
      var remain := Min(n, |buffer| - used);
      r := Got(buffer[used..used + remain]);
      used := used + remain;
    }

    /** readOne */
    method ReadOne() returns (r: Fetched)
      requires Valid()
      modifies this
      ensures Valid()
      ensures r.Failed? <==> old(Pending()) == []
      ensures r.Got? ==> |r.data| == 1 && old(Pending()) == r.data + Pending()
    {
      r := Export(1);
    }

    /** readN: exactly `n` bytes, or the error that closed the reader. */
    method ReadN(n: nat) returns (r: Fetched)
      requires Valid()
      modifies this
      ensures Valid()
      ensures r.Got? <==> n <= |old(Pending())|
      ensures r.Got? ==> |r.data| == n && old(Pending()) == r.data + Pending()
    {
      ghost var all := Pending();
      var result := [];
      while |result| < n
        invariant Valid() && |result| <= n
        invariant all == result + Pending()
      {
        ghost var before := Pending();
        var exported := Export(n - |result|);
        if exported.Failed? {
          assert all == result;
          return Failed;
        }
        Regrouped(all, result, exported.data, Pending());
        result := result + exported.data;
      }
      r := Got(result);
    }
  }

  /** Limited: at most `remain` more bytes of the reader under it. */
  class Limited {
    const reader: Reader
    var remain: nat

    ghost predicate Valid()
      reads this, reader
    {
      reader.Valid()
    }

    constructor (reader: Reader, maxN: nat)
      requires reader.Valid()
      ensures this.reader == reader && remain == maxN && Valid()
    {
      this.reader, remain := reader, maxN;
    }

    /** Refused once the limit is reached. */
    method Export(n: nat) returns (r: Fetched)
      requires Valid()
      modifies this`remain, reader
      ensures Valid()
      ensures r.Failed? <==> old(remain) == 0 || old(reader.Pending()) == []
      ensures r.Failed? ==> remain == old(remain) && reader.Pending() == old(reader.Pending())
      ensures r.Got? ==> |r.data| <= n && (n > 0 ==> r.data != []) && remain == old(remain) - |r.data|
      ensures r.Got? ==> old(reader.Pending()) == r.data + reader.Pending()
    {
      if remain <= 0 {
        return Failed;
      }
      r := reader.Export(Min(n, remain));
      if r.Got? {
        remain := remain - |r.data|;
      }
    }

    /** readCompletely: all that the limit leaves, or the error that closed the reader. */
    method ReadCompletely() returns (r: Fetched)
      requires Valid()
      modifies this`remain, reader
      ensures Valid()
      ensures r.Got? <==> old(remain) <= |old(reader.Pending())|
      ensures r.Got? ==> |r.data| == old(remain) && old(reader.Pending()) == r.data + reader.Pending()
    {
      ghost var all := reader.Pending();
      var n, result := remain, [];
      while |result| < n
        invariant Valid() && |result| <= n && remain == n - |result|
        invariant all == result + reader.Pending()
      {
        var exported := Export(n - |result|);
        if exported.Failed? {
          assert all == result;
          return Failed;
        }
        Regrouped(all, result, exported.data, reader.Pending());
        result := result + exported.data;
      }
      r := Got(result);
    }
  }
}
