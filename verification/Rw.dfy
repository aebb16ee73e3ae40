/** The chunked readers of the server: application/rw. */
module Rw {
  import opened Bytes

  /** Outcome of one read: data, or the error that ended the stream. */
  datatype Fetched = Got(data: seq<Byte>) | Failed

  /** A read takes up the next chunk exactly when `buffered` is zero, and fails when there is none. */
  predicate TakesChunk(r: Fetched, buffered: int, before: seq<seq<Byte>>, after: seq<seq<Byte>>) {
    if buffered > 0 then r.Got? && after == before
    else if before == [] then r.Failed? && after == before
    else r.Got? && after == before[1..]
  }

  /**
   * FetchReader. `source` lists what the fetch callback still returns; once the list is
   * used up the callback fails, and keeps failing.
   */
  class FetchReader {
    var source: seq<seq<Byte>>
    var data: seq<Byte>
    var dataUsed: nat

    ghost predicate Valid()
      reads this
    {
      dataUsed <= |data|
    }

    /** Every byte not handed out yet, buffered or still to be fetched. */
    ghost function Pending(): seq<Byte>
      requires Valid()
      reads this
    {
      data[dataUsed..] + Flatten(source)
    }

    constructor (source: seq<seq<Byte>>)
      ensures Valid()
      ensures Pending() == Flatten(source)
    {
      this.source, data, dataUsed := source, [], 0;
    }

    /** How many bytes are buffered. */
    method Remain() returns (n: nat)
      requires Valid()
      ensures n == |data| - dataUsed
    {
      n := |data| - dataUsed;
    }

    /** Takes exactly `n` buffered bytes, or fails and changes nothing. */
    method Export(n: nat) returns (r: Fetched)
      requires Valid()
      modifies this
      ensures Valid() && source == old(source) && data == old(data)
      ensures r.Got? <==> n <= |data| - old(dataUsed)
      ensures r.Got? ==> |r.data| == n && old(Pending()) == r.data + Pending()
      ensures r.Failed? ==> dataUsed == old(dataUsed)
    {
      if n > |data| - dataUsed {
        return Failed;
      }
      r := Got(data[dataUsed..dataUsed + n]);
      dataUsed := dataUsed + n;
    }

    /** Takes at most `n` bytes; asks the callback for a chunk when the buffer is used up. */
    method Fetch(n: nat) returns (r: Fetched)
      requires Valid()
      modifies this
      ensures Valid()
      ensures r.Failed? ==> old(Pending()) == [] && Pending() == []
      ensures r.Got? ==> |r.data| <= n && old(Pending()) == r.data + Pending()
      ensures r.Got? && n > 0 && r.data == [] ==> |source| < |old(source)|
      ensures |source| <= |old(source)|
      ensures TakesChunk(r, old(|data| - dataUsed), old(source), source)
    {
      if |data| - dataUsed <= 0 {
        if source == [] {
          return Failed;
        }
        data, dataUsed, source := source[0], 0, source[1..];
      }
      var take := Min(n, |data| - dataUsed);
      r := Got(data[dataUsed..dataUsed + take]);
      dataUsed := dataUsed + take;
    }

    /** Read: what Fetch gives; the copying is left to the caller. */
    method Read(n: nat) returns (r: Fetched)
      requires Valid()
      modifies this
      ensures Valid()
      ensures r.Failed? ==> old(Pending()) == [] && Pending() == []
      ensures r.Got? ==> |r.data| <= n && old(Pending()) == r.data + Pending()
      ensures r.Got? && n > 0 && r.data == [] ==> |source| < |old(source)|
      ensures |source| <= |old(source)|
    {
      r := Fetch(n);
    }

    /** FetchOneByte on this reader: retries while the callback returns empty chunks. */
    method FetchOneByte() returns (r: Fetched)
      requires Valid()
      modifies this
      ensures Valid()
      ensures r.Failed? <==> old(Pending()) == []
      ensures r.Failed? ==> Pending() == []
      ensures r.Got? ==> |r.data| == 1 && old(Pending()) == r.data + Pending()
    {
      while true
        invariant Valid() && Pending() == old(Pending())
        decreases |source|
      {
        r := Fetch(1);
        if r.Failed? || |r.data| > 0 {
          return;
        }
      }
    }
  }

  lemma {:induction false} Regrouped(all: seq<Byte>, a: seq<Byte>, b: seq<Byte>, c: seq<Byte>)
    requires all == a + (b + c)
    ensures all == a + b + c
  {
  }

  /** Puts `src` into buf[at..], behind what was put into buf[lo..at] before. */
  method Fill(buf: array<Byte>, lo: nat, at: nat, hi: nat, src: seq<Byte>)
    requires lo <= at && at + |src| <= hi <= buf.Length
    modifies buf
    ensures buf[lo..at + |src|] == old(buf[lo..at]) + src
    ensures buf[..lo] == old(buf[..lo]) && buf[hi..] == old(buf[hi..])
  {
    ghost var head, tail := buf[..at], buf[at + |src|..];
    CopyInto(buf, at, src);
    assert buf[lo..at + |src|] == buf[..at][lo..] + buf[at..at + |src|];
    assert buf[lo..at] == buf[..at][lo..];
    assert buf[..lo] == buf[..at][..lo] && buf[hi..] == buf[at + |src|..][hi - at - |src|..];
  }

  /** One round of io.ReadFull; `all` is what the reader had at first. */
  method ReadMore(r: FetchReader, buf: array<Byte>, lo: nat, at: nat, hi: nat, ghost all: seq<Byte>)
    returns (ok: bool, upTo: nat)
    requires r.Valid() && lo <= at < hi <= buf.Length && all == buf[lo..at] + r.Pending()
    modifies r, buf
    ensures r.Valid() && buf[..lo] == old(buf[..lo]) && buf[hi..] == old(buf[hi..])
    ensures !ok ==> upTo == at && |all| == at - lo
    ensures ok ==> at <= upTo <= hi && all == buf[lo..upTo] + r.Pending()
    ensures |r.source| <= |old(r.source)| && (ok && upTo == at ==> |r.source| < |old(r.source)|)
  {
    var got := r.Read(hi - at);
    if got.Failed? {
      return false, at;
    }
    Regrouped(all, buf[lo..at], got.data, r.Pending());
    Fill(buf, lo, at, hi, got.data);
    return true, at + |got.data|;
  }

  /** io.ReadFull on a FetchReader: fills buf[lo..hi], or fails at the end of the stream. */
  method ReadFull(r: FetchReader, buf: array<Byte>, lo: nat, hi: nat) returns (ok: bool)
    requires r.Valid() && lo <= hi <= buf.Length
    modifies r, buf
    ensures r.Valid()
    ensures ok <==> hi - lo <= |old(r.Pending())|
    ensures ok ==> old(r.Pending()) == buf[lo..hi] + r.Pending()
    ensures buf[..lo] == old(buf[..lo]) && buf[hi..] == old(buf[hi..])
  {
    ghost var all := r.Pending();
    var at := lo;
    while at < hi
      invariant r.Valid() && lo <= at <= hi
      invariant all == buf[lo..at] + r.Pending()
      invariant buf[..lo] == old(buf[..lo]) && buf[hi..] == old(buf[hi..])
      decreases hi - at, |r.source|
    {
      ok, at := ReadMore(r, buf, lo, at, hi, all);
      if !ok {
        return;
      }
    }
    ok := true;
  }

  /** LimitedReader: at most `n` more bytes of the reader under it. */
  class LimitedReader {
    const r: FetchReader
    var n: int

    ghost predicate Valid()
      reads this, r
    {
      0 <= n && r.Valid()
    }

    /** What can still be read here: `n` bytes, or fewer when the stream ends first. */
    ghost function View(): seq<Byte>
      requires Valid()
      reads this, r
    {
      Take(r.Pending(), n)
    }

    /** What is left of the stream once this reader is used up. */
    ghost function After(): seq<Byte>
      requires Valid()
      reads this, r
    {
      Drop(r.Pending(), n)
    }

    constructor (r: FetchReader, n: nat)
      requires r.Valid()
      ensures this.r == r && this.n == n && Valid()
    {
      this.r, this.n := r, n;
    }

    method Completed() returns (c: bool)
      requires Valid()
      ensures c <==> n == 0
    {
      c := n <= 0;
    }

    /** Takes up to `want` bytes; end of file when already used up. */
    method Fetch(want: nat) returns (got: Fetched)
      requires Valid()
      modifies this, r
      ensures Valid() && After() == old(After())
      ensures got.Failed? ==> old(View()) == [] && View() == [] && n == old(n)
      ensures got.Got? ==> |got.data| <= want && old(View()) == got.data + View()
      ensures got.Got? ==> n == old(n) - |got.data|
      ensures got.Got? && want > 0 && got.data == [] ==> |r.source| < |old(r.source)|
      ensures |r.source| <= |old(r.source)|
      ensures if old(n) == 0 then got.Failed? && r.source == old(r.source)
              else TakesChunk(got, old(|r.data| - r.dataUsed), old(r.source), r.source)
    {
      if n <= 0 {
        return Failed;
      }
      ghost var before := r.Pending();
      got := r.Fetch(Min(want, n));
      if got.Got? {
        TakeRead(before, got.data, r.Pending(), n);
        n := n - |got.data|;
      }
    }

    /** Read: what Fetch gives; the copying is left to the caller. */
    method Read(want: nat) returns (got: Fetched)
      requires Valid()
      modifies this, r
      ensures Valid() && After() == old(After())
      ensures got.Failed? ==> old(View()) == [] && View() == [] && n == old(n)
      ensures old(n) == 0 ==> got.Failed?
      ensures got.Got? ==> |got.data| <= want && old(View()) == got.data + View()
      ensures got.Got? ==> n == old(n) - |got.data|
      ensures got.Got? && want > 0 && got.data == [] ==> |r.source| < |old(r.source)|
      ensures |r.source| <= |old(r.source)|
    {
      got := Fetch(want);
    }

    /** Throws away whatever is left, `bufLen` bytes at a time. */
    method Ditch(bufLen: nat) returns (ok: bool)
      requires Valid() && bufLen > 0
      modifies this, r
      ensures Valid() && View() == [] && After() == old(After()) && r.Pending() == After()
      ensures ok <==> old(n) <= |old(r.Pending())|
    {
      while n > 0
        invariant Valid() && After() == old(After())
        invariant n <= |r.Pending()| <==> old(n) <= |old(r.Pending())|
        decreases n, |r.source|
      {
        var got := Read(bufLen);
        if got.Failed? {
          return false;
        }
      }
      ok := true;
    }
  }
}
