/**
 * From the writes of the server's machines to the commands of the client: frames, the packager's
 * records, WebSocket messages cut anyhow, and the client's loop.
 */
module ServerToClient {
  import opened Bytes
  import opened Frames
  import opened Nonce
  import opened Protocol
  import C = ClientSpec
  import CH = CloseHandshake
  import F = ClientFrames
  import HF = HandshakeFrames
  import Segmenting
  import T = Transport

  lemma {:induction false} AdvancedTwice(nonce: seq<Byte>, j: nat, k: nat)
    ensures Advanced(Advanced(nonce, j), k) == Advanced(nonce, j + k)
  {
    if k == 0 {
    } else {
      AdvancedTwice(nonce, j, k - 1);
    }
  }

  lemma {:induction false} RecordsConcat(c: T.Cipher, nonce: seq<Byte>, a: seq<seq<Byte>>, b: seq<seq<Byte>>)
    ensures T.Records(c, nonce, a + b) == T.Records(c, nonce, a) + T.Records(c, Advanced(nonce, |a|), b)
    decreases |a|
  {
    if a == [] {
      assert a + b == b;
    } else {
      assert (a + b)[1..] == a[1..] + b;
      RecordsConcat(c, Increased(nonce), a[1..], b);
      T.AdvancedShift(nonce, |a| - 1);
    }
  }

  /** All of `written` went out as records, one nonce after another from `first` on. */
  ghost predicate SentAsRecords(c: T.Cipher, first: seq<Byte>, nonce: seq<Byte>, written: seq<Byte>,
                                packets: seq<seq<Byte>>, messages: seq<seq<Byte>>) {
    Flatten(packets) == written && (forall p <- packets :: 1 <= |p| <= T.MAX_WRITE)
    && messages == T.Records(c, first, packets) && nonce == Advanced(first, |packets|)
  }

  lemma {:induction false} RecordsTogether(c: T.Cipher, first: seq<Byte>, mid: seq<Byte>, p: seq<seq<Byte>>,
                                           q: seq<seq<Byte>>, m: seq<seq<Byte>>, n: seq<seq<Byte>>)
    requires m == T.Records(c, first, p) && mid == Advanced(first, |p|) && n == T.Records(c, mid, q)
    ensures m + n == T.Records(c, first, p + q)
  {
    RecordsConcat(c, first, p, q);
  }

  lemma {:induction false} NonceTogether(first: seq<Byte>, mid: seq<Byte>, last: seq<Byte>, p: seq<seq<Byte>>,
                                         q: seq<seq<Byte>>)
    requires mid == Advanced(first, |p|) && last == Advanced(mid, |q|)
    ensures last == Advanced(first, |p + q|)
  {
    AdvancedTwice(first, |p|, |q|);
  }

  lemma {:induction false} SmallTogether(p: seq<seq<Byte>>, q: seq<seq<Byte>>)
    requires (forall x <- p :: 1 <= |x| <= T.MAX_WRITE) && forall x <- q :: 1 <= |x| <= T.MAX_WRITE
    ensures forall x <- p + q :: 1 <= |x| <= T.MAX_WRITE
  {
  }

  lemma {:induction false} SentTogether(c: T.Cipher, first: seq<Byte>, mid: seq<Byte>, last: seq<Byte>, a: seq<Byte>,
                                        b: seq<Byte>, p: seq<seq<Byte>>, q: seq<seq<Byte>>, m: seq<seq<Byte>>,
                                        n: seq<seq<Byte>>)
    requires SentAsRecords(c, first, mid, a, p, m) && SentAsRecords(c, mid, last, b, q, n)
    ensures SentAsRecords(c, first, last, a + b, p + q, m + n)
  {
    RecordsTogether(c, first, mid, p, q, m, n);
    NonceTogether(first, mid, last, p, q);
    FlattenAppend(p, q);
    SmallTogether(p, q);
  }

  lemma {:induction false} OneMoreWrite(writes: seq<seq<Byte>>, i: nat)
    requires i < |writes|
    ensures Flatten(writes[..i + 1]) == Flatten(writes[..i]) + writes[i]
  {
    FlattenSnoc(writes[..i], writes[i]);
    assert writes[..i + 1] == writes[..i] + [writes[i]];
  }

  /** The server's writes one after another, each packaged on its own under the running nonce. */
  method PackageAll(c: T.Cipher, nonce: array<Byte>, writeBuf: array<Byte>, writes: seq<seq<Byte>>)
    returns (messages: seq<seq<Byte>>, ghost packets: seq<seq<Byte>>)
    requires c.Lawful() && writeBuf.Length == T.BUFFER_SIZE && nonce != writeBuf
    modifies nonce, writeBuf
    ensures SentAsRecords(c, old(nonce[..]), nonce[..], Flatten(writes), packets, messages)
  {
    ghost var first := nonce[..];
    messages, packets := [], [];
    for i := 0 to |writes|
      invariant SentAsRecords(c, first, nonce[..], Flatten(writes[..i]), packets, messages)
    {
      ghost var mid := nonce[..];
      var more, cut := T.Package(c, nonce, writeBuf, writes[i]);
      OneMoreWrite(writes, i);
      SentTogether(c, first, mid, nonce[..], Flatten(writes[..i]), writes[i], packets, cut, messages, more);
      messages, packets := messages + more, packets + cut;
    }
    assert writes[..|writes|] == writes;
  }

  /** The payloads of the data frames of slot `i`. */
  function Payloads(fs: seq<Frame>, i: SlotId): seq<seq<Byte>> {
    if fs == [] then [] else
    (if fs[0].DataFrame? && fs[0].slot == i then [fs[0].payload] else []) + Payloads(fs[1..], i)
  }

  lemma {:induction false} SentIsPayloads(fs: seq<Frame>, i: SlotId)
    ensures SentOn(fs, i) == Flatten(Payloads(fs, i))
  {
    if fs == [] {
    } else {
      SentIsPayloads(fs[1..], i);
      if fs[0].DataFrame? && fs[0].slot == i {
        assert Payloads(fs, i)[1..] == Payloads(fs[1..], i);
      } else {
        assert Payloads(fs, i) == Payloads(fs[1..], i);
      }
    }
  }

  /** The frames' payloads of one Send call after another. */
  function AllResponses(sends: seq<seq<Byte>>, max: nat): seq<seq<Byte>>
    requires max > 0
  {
    if sends == [] then [] else Segmenting.Responses(sends[0], max) + AllResponses(sends[1..], max)
  }

  lemma {:induction false} ResponsesCarryAll(sends: seq<seq<Byte>>, max: nat)
    requires max > 0
    ensures Flatten(AllResponses(sends, max)) == Flatten(sends)
  {
    if sends == [] {
    } else {
      Segmenting.ResponsesJoin(sends[0], max);
      FlattenAppend(Segmenting.Responses(sends[0], max), AllResponses(sends[1..], max));
      ResponsesCarryAll(sends[1..], max);
    }
  }

  /**
   * The frames are those an orderly session of all 64 slots brings the client, in their order, with
   * echo answers anywhere in between; commands do their part in serving them.
   */
  ghost predicate Orderly(env: C.Env, fs: seq<Frame>, session: seq<CH.Action>) {
    && CH.Runs(CH.Start(SLOTS), session) && CH.OrderlyRun(CH.Start(SLOTS), session)
    && HF.KeepsStep(env, CH.Start(SLOTS), session, C.Echo(env, C.Initial(), 0), env.requests(0), 0, fs)
  }

  /** What reaches the commands of slot `i` when the client is given `packets`. */
  function Delivered(env: C.Env, packets: seq<seq<Byte>>, i: SlotId): seq<Byte> {
    F.DeliveredTo(C.Loop(env, C.Initial(), 0, Flatten(packets)).log, i)
  }

  /** Packets of the packager, and frames that were written through it. */
  ghost predicate Packed(c: T.Cipher, packets: seq<seq<Byte>>, fs: seq<Frame>) {
    c.Lawful() && (forall p <- packets :: 1 <= |p| <= T.MAX_WRITE)
    && (forall f <- fs :: f.Legal()) && Flatten(packets) == EncodeAll(fs)
  }

  /** The packets that arrived are the first ones, and so are their bytes. */
  lemma {:induction false} FirstArrive(c: T.Cipher, nonce: seq<Byte>, packets: seq<seq<Byte>>,
                                       messages: seq<seq<Byte>>, fs: seq<Frame>)
    requires Packed(c, packets, fs) && Flatten(messages) <= Flatten(T.Records(c, nonce, packets))
    ensures var arrived := T.OpenAll(c, nonce, Flatten(messages), None);
            arrived <= packets && Flatten(arrived) <= EncodeAll(fs)
  {
    var arrived := T.OpenAll(c, nonce, Flatten(messages), None);
    T.OpenCut(c, nonce, packets, Flatten(messages), None);
    FlattenPrefix(arrived, packets);
  }

  /**
   * End to end, at every moment: whatever the machines of all slots send and in whatever order,
   * however records are cut and the WebSocket cuts them again, and whatever the user does meanwhile,
   * the commands of slot `i` have been handed a prefix of the data sent to slot `i`.
   */
  lemma {:induction false} DeliveredSoFar(c: T.Cipher, nonce: seq<Byte>, packets: seq<seq<Byte>>,
                                          messages: seq<seq<Byte>>, fs: seq<Frame>, session: seq<CH.Action>,
                                          env: C.Env, i: SlotId, sends: seq<seq<Byte>>, max: nat)
    requires Packed(c, packets, fs) && max > 0 && Flatten(messages) <= Flatten(T.Records(c, nonce, packets))
    requires Orderly(env, fs, session) && Payloads(fs, i) == AllResponses(sends, max)
    ensures var arrived := T.OpenAll(c, nonce, Flatten(messages), None);
            arrived <= packets && Delivered(env, arrived, i) <= Flatten(sends)
  {
    var arrived := T.OpenAll(c, nonce, Flatten(messages), None);
    FirstArrive(c, nonce, packets, messages, fs);
    HF.ClientAcceptsOrderlyRun(env, fs, session);
    F.PrefixDelivers(env, C.Initial(), 0, fs, Flatten(arrived), i);
    F.NothingCollected(i);
    SentIsPayloads(fs, i);
    ResponsesCarryAll(sends, max);
    assert [] + SentOn(fs, i) == SentOn(fs, i);
  }

  /** ... and all of it, in order, when all records are through. */
  lemma {:induction false} DeliveredAsSent(c: T.Cipher, nonce: seq<Byte>, packets: seq<seq<Byte>>,
                                           messages: seq<seq<Byte>>, fs: seq<Frame>, session: seq<CH.Action>,
                                           env: C.Env, i: SlotId, sends: seq<seq<Byte>>, max: nat)
    requires Packed(c, packets, fs) && max > 0 && Flatten(messages) == Flatten(T.Records(c, nonce, packets))
    requires Orderly(env, fs, session) && Payloads(fs, i) == AllResponses(sends, max)
    ensures var arrived := T.OpenAll(c, nonce, Flatten(messages), None);
            arrived == packets && Delivered(env, arrived, i) == Flatten(sends)
  {
    T.OpenUndoesSeal(c, nonce, packets, None);
    HF.ClientAcceptsOrderlyRun(env, fs, session);
    F.BytesReachCommands(env, fs, i);
    SentIsPayloads(fs, i);
    ResponsesCarryAll(sends, max);
  }
}
