/**
 * The code that prints and parses the opening request of an SSH command, in the form of the
 * source, proved against SshWire.
 */
module SshRequest {
  import opened Bytes
  import opened Protocol
  import opened Rw
  import opened SshWire

  // ---------- The client ----------

  /** TypedArray.set, behind what is there already. */
  method Set(d: array<Byte>, src: seq<Byte>, offset: nat, ghost before: seq<Byte>)
    requires |before| == offset && offset + |src| <= d.Length && d[..offset] == before
    modifies d
    ensures d[..offset + |src|] == before + src
  {
    CopyInto(d, offset, src);
    assert d[..offset + |src|] == d[..offset] + d[offset..offset + |src|];
  }

  /** String.buffer */
  method StringBuffer(s: seq<Byte>) returns (buf: seq<Byte>)
    requires |s| <= MAX_INTEGER
    ensures buf == StringBytes(s)
  {
    var lBytes := IntegerBytes(|s|);
    var b := new Byte[|lBytes| + |s|](_ => 0);
    Set(b, lBytes, 0, []);
    Set(b, s, |lBytes|, lBytes);
    buf := b[..];
  }

  /** Address.buffer, for an address it does not refuse. */
  method AddressBuffer(a: Address) returns (buf: seq<Byte>)
    requires Printable(a)
    ensures buf == AddressBytes(a)
  {
    if a.kind == HOSTNAME {
      var dataBuf := new Byte[|a.data| + 4](_ => 0);
      dataBuf[0] := a.port / 256;
      dataBuf[1] := a.port % 256;
      dataBuf[2] := HOSTNAME;
      dataBuf[3] := |a.data|;
      Set(dataBuf, a.data, 4, [a.port / 256, a.port % 256, a.kind, |a.data|]);
      assert dataBuf[..] == dataBuf[..4 + |a.data|];
      buf := dataBuf[..];
    } else {
      buf := [a.port / 256, a.port % 256, a.kind] + a.data;
    }
  }

  /** SSH.run: the request it passes to the initial sender. */
  method Run(r: Request) returns (data: seq<Byte>)
    requires PrintableRequest(r)
    ensures data == RequestBytes(r)
  {
    var userBuf := StringBuffer(r.user);
    var addrBuf := AddressBuffer(r.address);
    var presetIDBuf := StringBuffer(r.presetID);
    var d := new Byte[|userBuf| + |addrBuf| + 1 + |presetIDBuf|](_ => 0);
    Set(d, userBuf, 0, []);
    Set(d, addrBuf, |userBuf|, userBuf);
    Set(d, [r.auth], |userBuf| + |addrBuf|, userBuf + addrBuf);
    Set(d, presetIDBuf, |userBuf| + |addrBuf| + 1, userBuf + addrBuf + [r.auth]);
    data := d[..];
  }

  // ---------- The server ----------

  /** Why the reader will have no more bytes: its limit, or the end of the stream before it. */
  ghost function Ending(l: LimitedReader): End
    requires l.Valid()
    reads l, l.r
  {
    if l.n <= |l.r.Pending()| then Limit
    else Cut(l.r.source != [] && l.r.source[|l.r.source| - 1] == [])
  }

  lemma {:induction false} EmptyThroughout(chunks: seq<seq<Byte>>)
    requires Flatten(chunks) == []
    ensures forall k :: 0 <= k < |chunks| ==> chunks[k] == []
  {
    if chunks == [] {
    } else {
      assert chunks[0] == [];
      EmptyThroughout(chunks[1..]);
      assert forall k :: 0 < k < |chunks| ==> chunks[k] == chunks[1..][k - 1];
    }
  }

  /** With no bytes left, a reader below its limit grants an empty chunk while there are chunks at all. */
  lemma {:induction false} NothingLeft(l: LimitedReader)
    requires l.Valid() && l.View() == [] && l.n > 0
    ensures |l.r.data| == l.r.dataUsed && Ending(l) == Cut(l.r.source != [])
  {
    assert l.r.Pending() == l.r.data[l.r.dataUsed..] + Flatten(l.r.source) == [];
    EmptyThroughout(l.r.source);
  }

  /** One read; as long as bytes are left, it does not change why there will be no more. */
  method ReadSome(l: LimitedReader, want: nat) returns (got: Fetched)
    requires l.Valid()
    modifies l, l.r
    ensures l.Valid()
    ensures got.Failed? ==> old(l.View()) == [] && l.View() == [] && old(Ending(l)) != Cut(true)
    ensures got.Got? ==> |got.data| <= want && old(l.View()) == got.data + l.View()
    ensures got.Got? ==> if old(l.View()) == [] then old(Ending(l)) == Cut(true) else Ending(l) == old(Ending(l))
    ensures got.Got? && want > 0 && got.data == [] ==> |l.r.source| < |old(l.r.source)|
    ensures |l.r.source| <= |old(l.r.source)|
  {
    if l.n > 0 {
      if l.View() == [] {
        NothingLeft(l);
      }
    }
    got := l.Fetch(want);
  }

  /** One round of rw.ReadFull; `v` is what the reader showed at first. */
  method ReadRound(l: LimitedReader, buf: array<Byte>, readed: nat, n: nat, ghost v: seq<Byte>)
    returns (ok: bool, upTo: nat)
    requires l.Valid() && readed <= n <= buf.Length && v == buf[..readed] + l.View()
    modifies l, l.r, buf
    ensures l.Valid() && |l.r.source| <= |old(l.r.source)|
    ensures !ok ==> old(l.View()) == [] && old(Ending(l)) != Cut(true)
    ensures ok ==> readed <= upTo <= n && v == buf[..upTo] + l.View()
    ensures ok ==> if old(l.View()) == [] then old(Ending(l)) == Cut(true) else Ending(l) == old(Ending(l))
    ensures ok && upTo == readed < n ==> |l.r.source| < |old(l.r.source)|
  {
    var got := ReadSome(l, n - readed);
    if got.Failed? {
      return false, readed;
    }
    ghost var head, rest := buf[..readed], l.View();
    Regrouped(v, head, got.data, rest);
    assert buf[0..readed] == head;
    Fill(buf, 0, readed, n, got.data);
    ok, upTo := true, readed + |got.data|;
    assert buf[..upTo] == buf[0..upTo] == head + got.data && l.View() == rest;
  }

  lemma {:induction false} ReadEnough(v: seq<Byte>, end: End, data: seq<Byte>, rest: seq<Byte>)
    requires v == data + rest && (v == [] ==> end == Cut(true))
    ensures ParseBytes(v, end, |data|) == Parsed(data, rest)
  {
    SplitAt(data, rest);
  }

  /** rw.ReadFull into buf[..n] */
  method ReadFullFrom(l: LimitedReader, buf: array<Byte>, n: nat) returns (ok: bool)
    requires l.Valid() && n <= buf.Length
    modifies l, l.r, buf
    ensures l.Valid()
    ensures var o := ParseBytes(old(l.View()), old(Ending(l)), n);
            ok == o.Parsed? && (ok ==> buf[..n] == o.value && l.View() == o.rest)
    ensures ok && old(l.View()) != [] ==> Ending(l) == old(Ending(l))
  {
    ghost var v, end := l.View(), Ending(l);
    var readed := 0;
    assert v == [] + l.View();
    while true
      invariant l.Valid() && 0 <= readed <= n && (n > 0 ==> readed < n)
      invariant v == buf[..readed] + l.View()
      invariant l.View() != [] || n == 0 ==> Ending(l) == end
      decreases n - readed, |l.r.source|
    {
      ok, readed := ReadRound(l, buf, readed, n, v);
      if !ok {
        return;
      }
      if readed >= n {
        ReadEnough(v, end, buf[..n], l.View());
        return;
      }
    }
  }

  /** What a parser made of its reader: `o`, and the reader goes on at the rest. */
  ghost predicate Read<T>(o: Parsed<T>, r: Option<T>, l: LimitedReader)
    requires l.Valid()
    reads l, l.r
  {
    if o.Parsed? then r == Some(o.value) && l.View() == o.rest else r.None?
  }

  lemma {:induction false} Sevens(b0: Byte, b1: Byte)
    ensures FourteenBits(b0, 0) == b0 % 128 * 128 % 0x1_0000
    ensures FourteenBits(b0, b1) == FourteenBits(b0, 0) + b1 % 128
  {
  }

  /** rw.ReadFull into a buffer of one byte */
  method ReadByte(l: LimitedReader, buf: array<Byte>) returns (ok: bool)
    requires l.Valid() && buf.Length == 1
    modifies l, l.r, buf
    ensures l.Valid() && ok == (old(l.View()) != [])
    ensures ok ==> buf[0] == old(l.View())[0] && l.View() == old(l.View())[1..] && Ending(l) == old(Ending(l))
  {
    ok := ReadFullFrom(l, buf, 1);
    assert ok ==> buf[0] == buf[..1][0];
  }

  /** Integer.Unmarshal, in sixteen bits */
  method Unmarshal(l: LimitedReader) returns (r: Option<nat>)
    requires l.Valid()
    modifies l, l.r
    ensures l.Valid() && Read(ParseInteger(old(l.View())), r, l)
    ensures r.Some? ==> Ending(l) == old(Ending(l))
  {
    ghost var v := l.View();
    var i: nat := 0;
    var buf := new Byte[1];
    var j := 0;
    while j < 2
      invariant l.Valid() && 0 <= j <= 2 && Ending(l) == old(Ending(l))
      invariant j <= |v| && l.View() == v[j..]
      invariant i == if j == 0 then 0 else if j == 1 then FourteenBits(v[0], 0)
                     else FourteenBits(v[0], v[1]) * 128 % 0x1_0000
      invariant forall k :: 0 <= k < j ==> v[k] >= 128
    {
      var read := ReadByte(l, buf);
      if !read {
        return None;
      }
      Sevens(v[0], buf[0]);
      i := i + buf[0] % 128;
      if buf[0] < 128 {
        return Some(i);
      }
      i := i * 128 % 0x1_0000;
      j := j + 1;
    }
    r := Some(i);
  }

  /** ParseString into buf[..size]; what is returned is the length, the string stands in the buffer. */
  method ParseStringInto(l: LimitedReader, buf: array<Byte>, size: nat) returns (r: Option<nat>)
    requires l.Valid() && size <= buf.Length
    modifies l, l.r, buf
    ensures l.Valid() && (r.Some? ==> r.value <= size)
    ensures Read(ParseString(old(l.View()), old(Ending(l)), size),
                 if r.Some? then Some(buf[..r.value]) else None, l)
    ensures r.Some? && l.View() != [] ==> Ending(l) == old(Ending(l))
  {
    var lenData := Unmarshal(l);
    if lenData.None? || size < lenData.value {
      return None;
    }
    var read := ReadFullFrom(l, buf, lenData.value);
    r := if read then lenData else None;
  }

  /** hostNameVerifier on the first `n` bytes */
  method VerifyHostName(buf: array<Byte>, n: nat) returns (ok: bool)
    requires n <= buf.Length
    ensures ok <==> HostName(buf[..n])
  {
    if n == 0 {
      return false;
    }
    for i := 0 to n
      invariant forall k :: 0 <= k < i ==> HostChar(buf[k])
    {
      if !HostChar(buf[i]) {
        assert buf[i] in buf[..n];
        return false;
      }
    }
    ok := true;
  }

  /** The part of ParseAddress behind the type byte; the address data stands in the buffer. */
  method ParseAddressDataInto(l: LimitedReader, kind: Byte, buf: array<Byte>, size: nat) returns (r: Option<nat>)
    requires l.Valid() && size <= buf.Length
    modifies l, l.r, buf
    ensures l.Valid() && (r.Some? ==> r.value <= size)
    ensures Read(ParseAddressData(old(l.View()), old(Ending(l)), kind, size),
                 if r.Some? then Some(buf[..r.value]) else None, l)
    ensures r.Some? && l.View() != [] ==> Ending(l) == old(Ending(l))
  {
    if kind == LOOPBACK {
      assert buf[..0] == [];
      return Some(0);
    }
    if kind == IPV4 || kind == IPV6 {
      var n := if kind == IPV4 then 4 else 16;
      if size < n {
        return None;
      }
      var read := ReadFullFrom(l, buf, n);
      return if read then Some(n) else None;
    }
    if kind != HOSTNAME {
      return None;
    }
    var addrLen := new Byte[1];
    var read := ReadFullFrom(l, addrLen, 1);
    if !read || size < addrLen[0] {
      assert read ==> addrLen[..1][0] == addrLen[0];
      return None;
    }
    assert addrLen[..1][0] == addrLen[0];
    var length: nat := addrLen[0];
    read := ReadFullFrom(l, buf, length);
    if !read {
      return None;
    }
    var verified := VerifyHostName(buf, length);
    r := if verified then Some(length) else None;
  }

  /** ParseAddress: port, kind, and how much of the buffer is the address data. */
  method ParseAddressInto(l: LimitedReader, buf: array<Byte>, size: nat) returns (r: Option<(Port, Byte, nat)>)
    requires l.Valid() && size <= buf.Length
    modifies l, l.r, buf
    ensures l.Valid() && (r.Some? ==> r.value.2 <= size)
    ensures Read(ParseAddress(old(l.View()), old(Ending(l)), size),
                 if r.Some? then Some(Address(r.value.0, r.value.1, buf[..r.value.2])) else None, l)
    ensures r.Some? && l.View() != [] ==> Ending(l) == old(Ending(l))
  {
    if size < 3 {
      return None;
    }
    var read := ReadFullFrom(l, buf, 3);
    if !read {
      return None;
    }
    ghost var head := buf[..3];
    var portNum, addrType := PortOf(buf[0], buf[1]), buf[2];
    assert head[0] == buf[0] && head[1] == buf[1] && head[2] == buf[2];
    var length := ParseAddressDataInto(l, addrType, buf, size);
    r := if length.Some? then Some((portNum, addrType, length.value)) else None;
  }

  /** parseOptionalPresetID */
  method ParseOptionalPresetID(l: LimitedReader, buf: array<Byte>) returns (r: Option<seq<Byte>>)
    requires l.Valid() && MAX_PRESET_ID <= buf.Length
    modifies l, l.r, buf
    ensures l.Valid() && Read(ParsePresetID(old(l.View()), old(Ending(l))), r, l)
  {
    var completed := l.Completed();
    if completed {
      return Some([]);
    }
    var length := ParseStringInto(l, buf, MAX_PRESET_ID);
    r := if length.Some? then Some(buf[..length.value]) else None;
  }

  /** rw.FetchOneByte on a limited reader */
  method FetchOneByte(l: LimitedReader) returns (r: Option<Byte>)
    requires l.Valid()
    modifies l, l.r
    ensures l.Valid()
    ensures r.Some? <==> old(l.View()) != []
    ensures r.Some? ==> old(l.View()) == [r.value] + l.View() && Ending(l) == old(Ending(l))
  {
    while true
      invariant l.Valid() && l.View() == old(l.View())
      invariant l.View() != [] ==> Ending(l) == old(Ending(l))
      decreases |l.r.source|
    {
      var d := ReadSome(l, 1);
      if d.Failed? {
        return None;
      }
      if |d.data| > 0 {
        return Some(d.data[0]);
      }
    }
  }

  /**
   * Bootup. Every field passes through the same scratch buffer, so each is copied out before the
   * next one is read.
   */
  method Bootup(l: LimitedReader, sBuf: array<Byte>) returns (request: Option<Request>, code: InitialData)
    requires l.Valid() && MAX_HOST <= sBuf.Length
    modifies l, l.r, sBuf
    ensures l.Valid()
    ensures var o := SshWire.Bootup(old(l.View()), old(Ending(l)));
            if o.Booted? then request == Some(o.request) && l.View() == o.rest
            else request.None? && code == o.code
  {
    request, code := None, BAD_USER_NAME;
    var userName := ParseStringInto(l, sBuf, MAX_USER);
    if userName.None? {
      return;
    }
    var userNameStr := sBuf[..userName.value];
    code := BAD_REMOTE_ADDRESS;
    var addr := ParseAddressInto(l, sBuf, MAX_HOST);
    if addr.None? {
      return;
    }
    var address := Address(addr.value.0, addr.value.1, sBuf[..addr.value.2]);
    code := BAD_AUTH_METHOD;
    ghost var v := l.View();
    var auth := FetchOneByte(l);
    if auth.None? {
      return;
    }
    assert v[1..] == l.View();
    var presetID := ParseOptionalPresetID(l, sBuf);
    if presetID.None? || auth.value >= AUTH_METHODS {
      return;
    }
    request := Some(Request(userNameStr, address, auth.value, presetID.value));
  }
}
