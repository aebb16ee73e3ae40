/**
 * The encrypted record layer, both directions: the packager and the fetcher of
 * application/controller/socket.go, sdDataConvert and cgmReader of ui/socket.js.
 */
module Transport {
  import opened Bytes
  import opened Nonce
  import R = Reader
  import opened Rw

  const TAG_SIZE := 16
  const BUFFER_SIZE := 4096
  /** What the server puts into one record at most: the buffer less the tag and the size field. */
  const MAX_WRITE := BUFFER_SIZE - (TAG_SIZE + 2)

  /** AES-GCM with its key: sealing under a nonce, and opening, which may refuse. */
  datatype Cipher = Cipher(
    seal: (seq<Byte>, seq<Byte>) -> seq<Byte>,
    open: (seq<Byte>, seq<Byte>) -> Option<seq<Byte>>)
  {
    /** All that is used of AES-GCM: what was sealed opens under the same nonce, plus a tag. */
    ghost predicate Lawful() {
      forall n, p :: |seal(n, p)| == |p| + TAG_SIZE && open(n, seal(n, p)) == Some(p)
    }
  }

  /** The low sixteen bits, most significant byte first. */
  function SizeField(n: nat): seq<Byte> {
    [n / 256 % 256, n % 256]
  }

  function SizeOf(b0: Byte, b1: Byte): nat {
    b0 * 256 + b1
  }

  /** One record on the wire: the size of the sealed data, then the sealed data. */
  function Record(c: Cipher, nonce: seq<Byte>, p: seq<Byte>): seq<Byte> {
    SizeField(|c.seal(nonce, p)|) + c.seal(nonce, p)
  }

  /** Small enough for the size field, once sealed. */
  predicate Fits(p: seq<Byte>) {
    |p| + TAG_SIZE < 0x1_0000
  }

  /** The records of `packets`, under the nonces that follow each other from `nonce` on. */
  function Records(c: Cipher, nonce: seq<Byte>, packets: seq<seq<Byte>>): seq<seq<Byte>>
    decreases |packets|
  {
    if packets == [] then []
    else [Record(c, nonce, packets[0])] + Records(c, Increased(nonce), packets[1..])
  }

  /** What is left of the stream after one record, or the refusal that ends the connection. */
  datatype Opened = Opened(packet: seq<Byte>, rest: seq<Byte>) | Refused

  /** Opening the first record of `wire`; `limit` bounds the sizes a receiver accepts. */
  function OpenFirst(c: Cipher, nonce: seq<Byte>, wire: seq<Byte>, limit: Option<nat>): Opened {
    if |wire| < 2 then Refused else
    var size := SizeOf(wire[0], wire[1]);
    if limit.Some? && (size == 0 || size > limit.value) then Refused
    else if |wire| - 2 < size then Refused
    else
      match c.open(nonce, wire[2..2 + size])
      case Some(p) => Opened(p, wire[2 + size..])
      case None => Refused
  }

  /** All packets up to the first refusal, or the end of the stream. */
  function OpenAll(c: Cipher, nonce: seq<Byte>, wire: seq<Byte>, limit: Option<nat>): seq<seq<Byte>>
    decreases |wire|
  {
    match OpenFirst(c, nonce, wire, limit)
    case Opened(p, rest) => [p] + OpenAll(c, Increased(nonce), rest, limit)
    case Refused => []
  }

  lemma {:induction false} OpenRecord(c: Cipher, nonce: seq<Byte>, p: seq<Byte>, rest: seq<Byte>, limit: Option<nat>)
    requires c.Lawful() && Fits(p) && (limit.Some? ==> |p| + TAG_SIZE <= limit.value)
    ensures OpenFirst(c, nonce, Record(c, nonce, p) + rest, limit) == Opened(p, rest)
  {
    var sealed := c.seal(nonce, p);
    var wire := Record(c, nonce, p) + rest;
    assert wire[0] == |sealed| / 256 && wire[1] == |sealed| % 256;
    assert wire[2..2 + |sealed|] == sealed && wire[2 + |sealed|..] == rest;
  }

  lemma {:induction false} FirstRecord(c: Cipher, nonce: seq<Byte>, packets: seq<seq<Byte>>)
    requires packets != []
    ensures Flatten(Records(c, nonce, packets))
            == Record(c, nonce, packets[0]) + Flatten(Records(c, Increased(nonce), packets[1..]))
  {
  }

  lemma {:induction false} OpenOne(c: Cipher, nonce: seq<Byte>, p: seq<Byte>, rest: seq<Byte>, others: seq<seq<Byte>>,
                                   limit: Option<nat>)
    requires c.Lawful() && Fits(p) && (limit.Some? ==> |p| + TAG_SIZE <= limit.value)
    requires OpenAll(c, Increased(nonce), rest, limit) == others
    ensures OpenAll(c, nonce, Record(c, nonce, p) + rest, limit) == [p] + others
  {
    OpenRecord(c, nonce, p, rest, limit);
  }

  /** The first packet opens to itself, and the stream goes on behind its record. */
  lemma {:induction false} OpenOneOf(c: Cipher, nonce: seq<Byte>, packets: seq<seq<Byte>>, rest: seq<Byte>,
                                     later: seq<seq<Byte>>, limit: Option<nat>)
    requires c.Lawful() && packets != [] && Fits(packets[0])
    requires limit.Some? ==> |packets[0]| + TAG_SIZE <= limit.value
    requires OpenAll(c, Increased(nonce), rest, limit) == later
    ensures OpenAll(c, nonce, Record(c, nonce, packets[0]) + rest, limit) == [packets[0]] + later
    ensures later <= packets[1..] ==> [packets[0]] + later <= packets
  {
    OpenOne(c, nonce, packets[0], rest, later, limit);
    assert packets == [packets[0]] + packets[1..];
  }

  lemma {:induction false} AdvancedShift(nonce: seq<Byte>, k: nat)
    ensures Advanced(Increased(nonce), k) == Advanced(nonce, k + 1)
  {
    if k == 0 {
    } else {
      AdvancedShift(nonce, k - 1);
    }
  }

  lemma {:induction false} RecordsThen(c: Cipher, nonce: seq<Byte>, packets: seq<seq<Byte>>, more: seq<Byte>)
    requires packets != []
    ensures Flatten(Records(c, nonce, packets)) + more
            == Record(c, nonce, packets[0]) + (Flatten(Records(c, Increased(nonce), packets[1..])) + more)
  {
    FirstRecord(c, nonce, packets);
    Assoc(Record(c, nonce, packets[0]), Flatten(Records(c, Increased(nonce), packets[1..])), more);
  }

  /** What follows genuine records opens under the nonces that follow theirs. */
  lemma {:induction false} OpenBehind(c: Cipher, nonce: seq<Byte>, packets: seq<seq<Byte>>, more: seq<Byte>,
                                      limit: Option<nat>)
    requires c.Lawful() && forall p <- packets :: Fits(p) && (limit.Some? ==> |p| + TAG_SIZE <= limit.value)
    ensures OpenAll(c, nonce, Flatten(Records(c, nonce, packets)) + more, limit)
            == packets + OpenAll(c, Advanced(nonce, |packets|), more, limit)
    decreases |packets|
  {
    var later := OpenAll(c, Advanced(nonce, |packets|), more, limit);
    if packets == [] {
      assert [] + more == more && [] + later == later;
    } else {
      var rest := Flatten(Records(c, Increased(nonce), packets[1..])) + more;
      AdvancedShift(nonce, |packets| - 1);
      OpenBehind(c, Increased(nonce), packets[1..], more, limit);
      OpenOneOf(c, nonce, packets, rest, packets[1..] + later, limit);
      RecordsThen(c, nonce, packets, more);
      FirstOfAll(packets, later);
    }
  }

  lemma {:induction false} FirstOfAll<T>(a: seq<T>, b: seq<T>)
    requires a != []
    ensures [a[0]] + (a[1..] + b) == a + b
  {
  }

  /** Opening what was sealed gives the packets back, one for one, with the nonces in step. */
  lemma {:induction false} OpenUndoesSeal(c: Cipher, nonce: seq<Byte>, packets: seq<seq<Byte>>, limit: Option<nat>)
    requires c.Lawful() && forall p <- packets :: Fits(p) && (limit.Some? ==> |p| + TAG_SIZE <= limit.value)
    ensures OpenAll(c, nonce, Flatten(Records(c, nonce, packets)), limit) == packets
  {
    OpenBehind(c, nonce, packets, [], limit);
    assert Flatten(Records(c, nonce, packets)) + [] == Flatten(Records(c, nonce, packets)) && packets + [] == packets;
  }

  lemma {:induction false} CutRecord(c: Cipher, nonce: seq<Byte>, p: seq<Byte>, wire: seq<Byte>, limit: Option<nat>)
    requires c.Lawful() && Fits(p) && wire <= Record(c, nonce, p) && |wire| < |Record(c, nonce, p)|
    ensures OpenFirst(c, nonce, wire, limit) == Refused
  {
    var sealed := c.seal(nonce, p);
    if |wire| >= 2 {
      assert wire[0] == Record(c, nonce, p)[0] == |sealed| / 256 && wire[1] == Record(c, nonce, p)[1] == |sealed| % 256;
    }
  }

  /** A stream of records cut off anywhere opens to the first packets, each of them whole. */
  lemma {:induction false} OpenCut(c: Cipher, nonce: seq<Byte>, packets: seq<seq<Byte>>, wire: seq<Byte>,
                                   limit: Option<nat>)
    requires c.Lawful() && forall p <- packets :: Fits(p) && (limit.Some? ==> |p| + TAG_SIZE <= limit.value)
    requires wire <= Flatten(Records(c, nonce, packets))
    ensures OpenAll(c, nonce, wire, limit) <= packets
    decreases |packets|
  {
    if packets == [] {
    } else {
      var first, others := Record(c, nonce, packets[0]), Flatten(Records(c, Increased(nonce), packets[1..]));
      FirstRecord(c, nonce, packets);
      if |wire| < |first| {
        CutRecord(c, nonce, packets[0], wire, limit);
      } else {
        var rest := PrefixBehind(wire, first, others);
        OpenCut(c, Increased(nonce), packets[1..], rest, limit);
        OpenOneOf(c, nonce, packets, rest, OpenAll(c, Increased(nonce), rest, limit), limit);
      }
    }
  }

  // ---------- Any stream at all ----------

  /** Sealed bytes behind their size in two bytes, most significant first. */
  function Sized(sealed: seq<Byte>): seq<Byte> {
    [|sealed| / 256 % 256, |sealed| % 256] + sealed
  }

  function AllSized(sealed: seq<seq<Byte>>): seq<Byte> {
    if sealed == [] then [] else Sized(sealed[0]) + AllSized(sealed[1..])
  }

  /** Packet `k` is what the cipher made of the k-th sealed string under the k-th nonce. */
  ghost predicate AllOpen(c: Cipher, nonce: seq<Byte>, limit: Option<nat>, sealed: seq<seq<Byte>>,
                          packets: seq<seq<Byte>>) {
    |sealed| == |packets|
    && forall k :: 0 <= k < |sealed| ==>
         c.open(Advanced(nonce, k), sealed[k]) == Some(packets[k])
         && |sealed[k]| < 0x1_0000 && (limit.Some? ==> 1 <= |sealed[k]| <= limit.value)
  }

  /** What the stream begins with: a size that is allowed, that many bytes, and they open. */
  predicate Opens(c: Cipher, nonce: seq<Byte>, wire: seq<Byte>, limit: Option<nat>) {
    |wire| >= 2 &&
    var size := SizeOf(wire[0], wire[1]);
    (limit.Some? ==> 1 <= size <= limit.value) && |wire| >= 2 + size && c.open(nonce, wire[2..2 + size]).Some?
  }

  /**
   * The packets are those of the sealed strings that the stream begins with, and `rest` behind them
   * does not open: too short a stream, a size that is not allowed, or bytes that the cipher refuses.
   */
  ghost predicate IsOpened(c: Cipher, nonce: seq<Byte>, wire: seq<Byte>, limit: Option<nat>, sealed: seq<seq<Byte>>,
                           rest: seq<Byte>, packets: seq<seq<Byte>>) {
    AllOpen(c, nonce, limit, sealed, packets) && wire == AllSized(sealed) + rest
    && !Opens(c, Advanced(nonce, |sealed|), rest, limit)
  }

  lemma {:induction false} OpensIff(c: Cipher, nonce: seq<Byte>, wire: seq<Byte>, limit: Option<nat>)
    ensures Opens(c, nonce, wire, limit) <==> OpenFirst(c, nonce, wire, limit).Opened?
    ensures Opens(c, nonce, wire, limit) ==>
              var size := SizeOf(wire[0], wire[1]);
              c.open(nonce, wire[2..2 + size]) == Some(OpenFirst(c, nonce, wire, limit).packet)
              && OpenFirst(c, nonce, wire, limit).rest == wire[2 + size..]
  {
  }

  lemma {:induction false} OneSized(wire: seq<Byte>, size: nat)
    requires |wire| >= 2 && size == SizeOf(wire[0], wire[1]) && |wire| >= 2 + size
    ensures wire == Sized(wire[2..2 + size]) + wire[2 + size..]
  {
    assert wire == [wire[0], wire[1]] + wire[2..2 + size] + wire[2 + size..];
  }

  lemma {:induction false} SizedFirst(first: seq<Byte>, others: seq<seq<Byte>>, rest: seq<Byte>)
    ensures Sized(first) + (AllSized(others) + rest) == AllSized([first] + others) + rest
  {
    assert ([first] + others)[1..] == others;
    Assoc(Sized(first), AllSized(others), rest);
  }

  lemma {:induction false} OneOpens(c: Cipher, nonce: seq<Byte>, limit: Option<nat>, first: seq<Byte>, p: seq<Byte>,
                                    sealed: seq<seq<Byte>>, packets: seq<seq<Byte>>)
    requires AllOpen(c, Increased(nonce), limit, sealed, packets) && c.open(nonce, first) == Some(p)
    requires |first| < 0x1_0000 && (limit.Some? ==> 1 <= |first| <= limit.value)
    ensures AllOpen(c, nonce, limit, [first] + sealed, [p] + packets)
  {
    var all := [first] + sealed;
    forall k | 0 <= k < |all| ensures c.open(Advanced(nonce, k), all[k]) == Some(([p] + packets)[k]) {
      if k > 0 {
        AdvancedShift(nonce, k - 1);
        assert all[k] == sealed[k - 1];
      }
    }
  }

  lemma {:induction false} OneMoreOpens(c: Cipher, nonce: seq<Byte>, wire: seq<Byte>, limit: Option<nat>, p: seq<Byte>,
                                        sealed: seq<seq<Byte>>, rest: seq<Byte>, packets: seq<seq<Byte>>)
    requires Opens(c, nonce, wire, limit) && c.open(nonce, wire[2..2 + SizeOf(wire[0], wire[1])]) == Some(p)
    requires IsOpened(c, Increased(nonce), wire[2 + SizeOf(wire[0], wire[1])..], limit, sealed, rest, packets)
    ensures IsOpened(c, nonce, wire, limit, [wire[2..2 + SizeOf(wire[0], wire[1])]] + sealed, rest, [p] + packets)
  {
    var size := SizeOf(wire[0], wire[1]);
    OneSized(wire, size);
    SizedFirst(wire[2..2 + size], sealed, rest);
    OneOpens(c, nonce, limit, wire[2..2 + size], p, sealed, packets);
    AdvancedShift(nonce, |sealed|);
  }

  lemma {:induction false} NoneOpens(c: Cipher, nonce: seq<Byte>, wire: seq<Byte>, limit: Option<nat>)
    requires !Opens(c, nonce, wire, limit)
    ensures OpenAll(c, nonce, wire, limit) == [] && IsOpened(c, nonce, wire, limit, [], wire, [])
  {
    OpensIff(c, nonce, wire, limit);
    assert AllSized([]) + wire == wire;
  }

  lemma {:induction false} SomeOpens(c: Cipher, nonce: seq<Byte>, wire: seq<Byte>, limit: Option<nat>)
    returns (p: seq<Byte>, rest: seq<Byte>)
    requires Opens(c, nonce, wire, limit)
    ensures c.open(nonce, wire[2..2 + SizeOf(wire[0], wire[1])]) == Some(p)
    ensures rest == wire[2 + SizeOf(wire[0], wire[1])..] && |rest| < |wire|
    ensures OpenAll(c, nonce, wire, limit) == [p] + OpenAll(c, Increased(nonce), rest, limit)
  {
    OpensIff(c, nonce, wire, limit);
    p, rest := OpenFirst(c, nonce, wire, limit).packet, OpenFirst(c, nonce, wire, limit).rest;
  }

  /**
   * For any stream and any cipher: the packets opened are exactly those of the sealed strings that the
   * stream begins with, each behind its own size and under its own nonce, up to the first that does not
   * open. Nothing behind that is yielded.
   */
  lemma {:induction false} OnlyWhatOpens(c: Cipher, nonce: seq<Byte>, wire: seq<Byte>, limit: Option<nat>)
    returns (sealed: seq<seq<Byte>>, rest: seq<Byte>)
    ensures IsOpened(c, nonce, wire, limit, sealed, rest, OpenAll(c, nonce, wire, limit))
    decreases |wire|
  {
    if !Opens(c, nonce, wire, limit) {
      NoneOpens(c, nonce, wire, limit);
      sealed, rest := [], wire;
    } else {
      var p, behind := SomeOpens(c, nonce, wire, limit);
      var packets := OpenAll(c, Increased(nonce), behind, limit);
      sealed, rest := OnlyWhatOpens(c, Increased(nonce), behind, limit);
      OneMoreOpens(c, nonce, wire, limit, p, sealed, rest, packets);
      sealed := [wire[2..2 + SizeOf(wire[0], wire[1])]] + sealed;
    }
  }

  lemma {:induction false} ForgedIsRefused(c: Cipher, nonce: seq<Byte>, forged: seq<Byte>, more: seq<Byte>,
                                           limit: Option<nat>)
    requires |forged| < 0x1_0000 && c.open(nonce, forged) == None
    ensures OpenAll(c, nonce, Sized(forged) + more, limit) == []
  {
    var wire := Sized(forged) + more;
    assert wire[2..2 + |forged|] == forged;
  }

  /** A record that does not open ends the stream: behind genuine ones it adds nothing, nor does what follows it. */
  lemma {:induction false} ForgedEndsTheStream(c: Cipher, nonce: seq<Byte>, packets: seq<seq<Byte>>,
                                               forged: seq<Byte>, more: seq<Byte>, limit: Option<nat>)
    requires c.Lawful() && forall p <- packets :: Fits(p) && (limit.Some? ==> |p| + TAG_SIZE <= limit.value)
    requires |forged| < 0x1_0000 && c.open(Advanced(nonce, |packets|), forged) == None
    ensures OpenAll(c, nonce, Flatten(Records(c, nonce, packets)) + (Sized(forged) + more), limit) == packets
  {
    OpenBehind(c, nonce, packets, Sized(forged) + more, limit);
    ForgedIsRefused(c, Advanced(nonce, |packets|), forged, more, limit);
    assert packets + [] == packets;
  }

  lemma {:induction false} RecordsAppend(c: Cipher, nonce: seq<Byte>, a: seq<seq<Byte>>, p: seq<Byte>)
    ensures Records(c, nonce, a + [p]) == Records(c, nonce, a) + [Record(c, Advanced(nonce, |a|), p)]
    decreases |a|
  {
    if a == [] {
      assert a + [p] == [p];
    } else {
      assert (a + [p])[1..] == a[1..] + [p];
      RecordsAppend(c, Increased(nonce), a[1..], p);
      AdvancedShift(nonce, |a| - 1);
    }
  }

  /** Seals `p` in the write buffer, behind its size, and moves the nonce on. */
  method SealInto(c: Cipher, nonce: array<Byte>, writeBuf: array<Byte>, p: seq<Byte>) returns (message: seq<Byte>)
    requires c.Lawful() && writeBuf.Length == BUFFER_SIZE && nonce != writeBuf && |p| <= MAX_WRITE
    modifies nonce, writeBuf
    ensures message == Record(c, old(nonce[..]), p)
    ensures nonce[..] == Increased(old(nonce[..]))
  {
    var encrypted := c.seal(nonce[..], p);
    CopyInto(writeBuf, 2, encrypted);
    IncreaseNonce(nonce);
    writeBuf[0] := |encrypted| / 256;
    writeBuf[1] := |encrypted| % 256;
    assert writeBuf[..|encrypted| + 2] == [writeBuf[0], writeBuf[1]] + writeBuf[2..2 + |encrypted|];
    message := writeBuf[..|encrypted| + 2];
  }

  /** No packet but the last is short; nor is that one while there is more to come. */
  predicate AllFull(packets: seq<seq<Byte>>, more: bool) {
    forall k :: 0 <= k < |packets| && (more || k < |packets| - 1) ==> |packets[k]| == 4078
  }

  lemma {:induction false} FullSnoc(packets: seq<seq<Byte>>, p: seq<Byte>, more: bool)
    requires AllFull(packets, true) && (more ==> |p| == 4078)
    requires (forall q <- packets :: 1 <= |q| <= MAX_WRITE) && 1 <= |p| <= MAX_WRITE
    ensures AllFull(packets + [p], more) && forall q <- packets + [p] :: 1 <= |q| <= MAX_WRITE
  {
  }

  /** The packets cut so far, the messages sent for them, and the nonce that comes next. */
  ghost predicate Packaged(c: Cipher, first: seq<Byte>, nonce: seq<Byte>, b: seq<Byte>, start: nat,
                           packets: seq<seq<Byte>>, messages: seq<seq<Byte>>) {
    start <= |b| && Flatten(packets) == b[..start] && (forall p <- packets :: 1 <= |p| <= MAX_WRITE)
    && AllFull(packets, start < |b|)
    && messages == Records(c, first, packets) && nonce == Advanced(first, |packets|)
  }

  lemma {:induction false} PackagedStep(c: Cipher, first: seq<Byte>, nonce: seq<Byte>, b: seq<Byte>, start: nat,
                                        end: nat, packets: seq<seq<Byte>>, messages: seq<seq<Byte>>)
    requires Packaged(c, first, nonce, b, start, packets, messages)
    requires start < end <= |b| && end - start <= MAX_WRITE && (end < |b| ==> end - start == MAX_WRITE)
    ensures var p := b[start..end];
            Packaged(c, first, Increased(nonce), b, end, packets + [p], messages + [Record(c, nonce, p)])
  {
    var p := b[start..end];
    FlattenSnoc(packets, p);
    FullSnoc(packets, p, end < |b|);
    RecordsAppend(c, first, packets, p);
    assert b[..start] + p == b[..end];
  }

  /** One round of the packager's loop: the bytes from `start` to `end` go out as one record. */
  method PackageOne(c: Cipher, nonce: array<Byte>, writeBuf: array<Byte>, b: seq<Byte>, start: nat, end: nat,
                    ghost first: seq<Byte>, ghost packets: seq<seq<Byte>>, ghost messages: seq<seq<Byte>>)
    returns (message: seq<Byte>)
    requires c.Lawful() && writeBuf.Length == BUFFER_SIZE && nonce != writeBuf
    requires Packaged(c, first, nonce[..], b, start, packets, messages)
    requires start < end <= |b| && end - start <= MAX_WRITE && (end < |b| ==> end - start == MAX_WRITE)
    modifies nonce, writeBuf
    ensures Packaged(c, first, nonce[..], b, end, packets + [b[start..end]], messages + [message])
  {
    PackagedStep(c, first, nonce[..], b, start, end, packets, messages);
    message := SealInto(c, nonce, writeBuf, b[start..end]);
  }

  /** The server's packager: cuts `b` into packets and writes each as one sealed message. */
  method Package(c: Cipher, nonce: array<Byte>, writeBuf: array<Byte>, b: seq<Byte>)
    returns (messages: seq<seq<Byte>>, ghost packets: seq<seq<Byte>>)
    requires c.Lawful() && writeBuf.Length == BUFFER_SIZE && nonce != writeBuf
    modifies nonce, writeBuf
    ensures Flatten(packets) == b && forall p <- packets :: 1 <= |p| <= MAX_WRITE
    ensures forall k :: 0 <= k < |packets| - 1 ==> |packets[k]| == 4078
    ensures messages == Records(c, old(nonce[..]), packets)
    ensures nonce[..] == Advanced(old(nonce[..]), |packets|)
  {
    messages, packets := PackageLoop(c, nonce, writeBuf, b);
    assert b[..|b|] == b;
  }

  /** Its loop. */
  method PackageLoop(c: Cipher, nonce: array<Byte>, writeBuf: array<Byte>, b: seq<Byte>)
    returns (messages: seq<seq<Byte>>, ghost packets: seq<seq<Byte>>)
    requires c.Lawful() && writeBuf.Length == BUFFER_SIZE && nonce != writeBuf
    modifies nonce, writeBuf
    ensures Packaged(c, old(nonce[..]), nonce[..], b, |b|, packets, messages)
  {
    var start, readLen := 0, |b|;
    messages, packets := [], [];
    ghost var first := nonce[..];
    assert b[..0] == [];
    while start < |b|
      invariant readLen == |b| - start
      invariant Packaged(c, first, nonce[..], b, start, packets, messages)
    {
      if readLen > MAX_WRITE {
        readLen := MAX_WRITE;
      }
      var message := PackageOne(c, nonce, writeBuf, b, start, start + readLen, first, packets, messages);
      messages, packets := messages + [message], packets + [b[start..start + readLen]];
      start := start + readLen;
      readLen := |b| - start;
    }
  }

  /** The client's sdDataConvert: one record for a whole segment. */
  method ConvertSegment(c: Cipher, nonce: array<Byte>, rawData: seq<Byte>) returns (dataToSend: seq<Byte>)
    requires c.Lawful()
    modifies nonce
    ensures dataToSend == Record(c, old(nonce[..]), rawData)
    ensures nonce[..] == Increased(old(nonce[..]))
  {
    var encoded := c.seal(nonce[..], rawData);
    IncreaseNonce(nonce);
    dataToSend := [|encoded| / 256 % 256, |encoded| % 256] + encoded;
  }

  /** What a receiver did with its stream agrees with `OpenFirst`. */
  ghost predicate Took(o: Opened, r: Fetched, pending: seq<Byte>) {
    if o.Opened? then r == Got(o.packet) && pending == o.rest else r.Failed?
  }

  /** A receiver got a packet exactly when its stream opens, and then what was sealed in front of the rest. */
  ghost predicate Yields(c: Cipher, nonce: seq<Byte>, wire: seq<Byte>, limit: Option<nat>, r: Fetched,
                         rest: seq<Byte>) {
    (r.Got? <==> Opens(c, nonce, wire, limit))
    && (r.Got? ==>
          var size := SizeOf(wire[0], wire[1]);
          c.open(nonce, wire[2..2 + size]) == Some(r.data) && rest == wire[2 + size..])
  }

  lemma {:induction false} TookYields(c: Cipher, nonce: seq<Byte>, wire: seq<Byte>, limit: Option<nat>)
    ensures forall r, rest ::
              Took(OpenFirst(c, nonce, wire, limit), r, rest) ==> Yields(c, nonce, wire, limit, r, rest)
  {
    OpensIff(c, nonce, wire, limit);
  }

  /** The sealed bytes: as they lie in the reader when they are all there, and else through the read buffer. */
  method FetchSealed(readBuf: array<Byte>, ws: FetchReader, size: nat) returns (r: Fetched)
    requires ws.Valid() && size <= readBuf.Length
    modifies readBuf, ws
    ensures ws.Valid() && (r.Got? <==> size <= |old(ws.Pending())|)
    ensures r.Got? ==> |r.data| == size && old(ws.Pending()) == r.data + ws.Pending()
  {
    var remain := ws.Remain();
    if size <= remain {
      r := ws.Export(size);
    } else {
      var read := ReadFull(ws, readBuf, 0, size);
      r := if read then Got(readBuf[..size]) else Failed;
    }
  }

  /** Two bytes of size and as many sealed bytes were taken from the front of the stream. */
  lemma {:induction false} OpenTaken(c: Cipher, nonce: seq<Byte>, wire: seq<Byte>, limit: Option<nat>, size: seq<Byte>,
                                     sealed: seq<Byte>, rest: seq<Byte>)
    requires |size| == 2 && wire == size + (sealed + rest) && |sealed| == SizeOf(size[0], size[1])
    requires limit.Some? ==> 1 <= |sealed| <= limit.value
    ensures OpenFirst(c, nonce, wire, limit)
            == match c.open(nonce, sealed) case Some(p) => Opened(p, rest) case None => Refused
  {
    assert wire[2..2 + |sealed|] == sealed && wire[2 + |sealed|..] == rest;
  }

  /**
   * The server's fetcher. The size is checked against the buffer; the sealed bytes are taken from
   * the reader's own buffer when they are all there, and collected otherwise.
   */
  method FetchPacket(c: Cipher, nonce: array<Byte>, readBuf: array<Byte>, ws: FetchReader) returns (r: Fetched)
    requires readBuf.Length == BUFFER_SIZE && nonce != readBuf && ws.Valid()
    modifies nonce, readBuf, ws
    ensures ws.Valid() && nonce[..] == Increased(old(nonce[..]))
    ensures Took(OpenFirst(c, old(nonce[..]), old(ws.Pending()), Some(BUFFER_SIZE)), r, ws.Pending())
    ensures Yields(c, old(nonce[..]), old(ws.Pending()), Some(4096), r, ws.Pending())
  {
    ghost var wire := ws.Pending();
    TookYields(c, nonce[..], wire, Some(BUFFER_SIZE));
    var read := ReadFull(ws, readBuf, 0, 2);
    if !read {
      IncreaseNonce(nonce);
      return Failed;
    }
    ghost var size := [readBuf[0], readBuf[1]];
    assert readBuf[0..2] == size && wire == size + ws.Pending();
    var packageSize := SizeOf(readBuf[0], readBuf[1]);
    if packageSize <= 0 || packageSize > BUFFER_SIZE {
      IncreaseNonce(nonce);
      return Failed;
    }
    var sealed := FetchSealed(readBuf, ws, packageSize);
    if sealed.Failed? {
      IncreaseNonce(nonce);
      return Failed;
    }
    OpenTaken(c, nonce[..], wire, Some(BUFFER_SIZE), size, sealed.data, ws.Pending());
    var plain := c.open(nonce[..], sealed.data);
    IncreaseNonce(nonce);
    match plain
    case Some(p) => r := Got(p);
    case None => r := Failed;
  }

  /** The client's cgmReader: one packet; the nonce moves on only when the packet opens. */
  method UnpackOne(c: Cipher, nonce: array<Byte>, rd: R.Reader) returns (r: Fetched)
    requires rd.Valid()
    modifies nonce, rd
    ensures rd.Valid()
    ensures Took(OpenFirst(c, old(nonce[..]), old(rd.Pending()), None), r, rd.Pending())
    ensures Yields(c, old(nonce[..]), old(rd.Pending()), None, r, rd.Pending())
    ensures nonce[..] == if r.Got? then Increased(old(nonce[..])) else old(nonce[..])
  {
    ghost var wire := rd.Pending();
    TookYields(c, nonce[..], wire, None);
    var sizeBytes := rd.ReadN(2);
    if sizeBytes.Failed? {
      return Failed;
    }
    assert wire == sizeBytes.data + rd.Pending();
    var dSize := SizeOf(sizeBytes.data[0], sizeBytes.data[1]);
    var sealed := rd.ReadN(dSize);
    if sealed.Failed? {
      return Failed;
    }
    OpenTaken(c, nonce[..], wire, None, sizeBytes.data, sealed.data, rd.Pending());
    match c.open(nonce[..], sealed.data)
    case Some(p) =>
      IncreaseNonce(nonce);
      r := Got(p);
    case None =>
      r := Failed;
  }

  lemma {:induction false} OneOpened(c: Cipher, nonce: seq<Byte>, wire: seq<Byte>, limit: Option<nat>, p: seq<Byte>,
                                   next: seq<Byte>, rest: seq<Byte>)
    requires OpenFirst(c, nonce, wire, limit) == Opened(p, rest) && next == Increased(nonce)
    ensures OpenAll(c, nonce, wire, limit) == [p] + OpenAll(c, next, rest, limit)
  {
  }

  lemma {:induction false} MoreOpened(packets: seq<seq<Byte>>, p: seq<Byte>, later: seq<seq<Byte>>)
    ensures packets + ([p] + later) == packets + [p] + later
  {
  }

  /** Every packet the server's fetcher yields before the connection ends. */
  method FetchAll(c: Cipher, nonce: array<Byte>, readBuf: array<Byte>, ws: FetchReader)
    returns (packets: seq<seq<Byte>>)
    requires readBuf.Length == BUFFER_SIZE && nonce != readBuf && ws.Valid()
    modifies nonce, readBuf, ws
    ensures ws.Valid()
    ensures packets == OpenAll(c, old(nonce[..]), old(ws.Pending()), Some(BUFFER_SIZE))
    ensures exists sealed, rest :: IsOpened(c, old(nonce[..]), old(ws.Pending()), Some(4096), sealed, rest, packets)
  {
    packets := [];
    ghost var sealed, behind := OnlyWhatOpens(c, nonce[..], ws.Pending(), Some(BUFFER_SIZE));
    while true
      invariant ws.Valid()
      invariant packets + OpenAll(c, nonce[..], ws.Pending(), Some(BUFFER_SIZE))
                == OpenAll(c, old(nonce[..]), old(ws.Pending()), Some(BUFFER_SIZE))
      decreases |ws.Pending()|
    {
      ghost var n, wire := nonce[..], ws.Pending();
      var r := FetchPacket(c, nonce, readBuf, ws);
      if r.Failed? {
        return;
      }
      OneOpened(c, n, wire, Some(BUFFER_SIZE), r.data, nonce[..], ws.Pending());
      MoreOpened(packets, r.data, OpenAll(c, nonce[..], ws.Pending(), Some(BUFFER_SIZE)));
      packets := packets + [r.data];
    }
  }

  /** Every packet the client's reader unpacks before the connection ends. */
  method UnpackAll(c: Cipher, nonce: array<Byte>, rd: R.Reader) returns (packets: seq<seq<Byte>>)
    requires rd.Valid()
    modifies nonce, rd
    ensures rd.Valid()
    ensures packets == OpenAll(c, old(nonce[..]), old(rd.Pending()), None)
    ensures exists sealed, rest :: IsOpened(c, old(nonce[..]), old(rd.Pending()), None, sealed, rest, packets)
  {
    packets := [];
    ghost var sealed, behind := OnlyWhatOpens(c, nonce[..], rd.Pending(), None);
    while true
      invariant rd.Valid()
      invariant packets + OpenAll(c, nonce[..], rd.Pending(), None)
                == OpenAll(c, old(nonce[..]), old(rd.Pending()), None)
      decreases |rd.Pending()|
    {
      ghost var n, wire := nonce[..], rd.Pending();
      var r := UnpackOne(c, nonce, rd);
      if r.Failed? {
        return;
      }
      OneOpened(c, n, wire, None, r.data, nonce[..], rd.Pending());
      MoreOpened(packets, r.data, OpenAll(c, nonce[..], rd.Pending(), None));
      packets := packets + [r.data];
    }
  }
}
