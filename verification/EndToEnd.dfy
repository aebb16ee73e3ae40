/**
 * From sendData on the client to the machines of the server, through every layer between: frames,
 * the coalescing sender, sealed records, WebSocket messages cut anyhow, and the dispatch loop.
 */
module EndToEnd {
  import opened Bytes
  import opened Frames
  import opened Protocol
  import CH = CloseHandshake
  import F = HandlerFrames
  import H = HandlerSpec
  import HF = HandshakeFrames
  import S = SenderSpec
  import SC = SenderConservation
  import SP = SenderPromises
  import Segmenting
  import T = Transport

  /** The client's segment size, small enough for the server's buffer once sealed. */
  const MAX_SEGMENT := 4096 - 64

  /** One call of sendData. */
  datatype Call = Call(marker: Marker, data: seq<Byte>)

  function DataFrames(i: SlotId, marker: Marker, payloads: seq<seq<Byte>>): seq<Frame> {
    if payloads == [] then [] else [DataFrame(i, marker, payloads[0])] + DataFrames(i, marker, payloads[1..])
  }

  /** The data frames of one call after another on slot `i`. */
  function CallFrames(i: SlotId, calls: seq<Call>): seq<Frame> {
    if calls == [] then []
    else DataFrames(i, calls[0].marker, Segmenting.Cut(calls[0].data, STREAM_MAX_LENGTH)) + CallFrames(i, calls[1..])
  }

  function AllData(calls: seq<Call>): seq<Byte> {
    if calls == [] then [] else calls[0].data + AllData(calls[1..])
  }

  /** The data frames of slot `i` among `fs`. */
  function OnSlot(fs: seq<Frame>, i: SlotId): seq<Frame> {
    if fs == [] then [] else
    (if fs[0].DataFrame? && fs[0].slot == i then [fs[0]] else []) + OnSlot(fs[1..], i)
  }

  lemma {:induction false} SentOnSlot(fs: seq<Frame>, i: SlotId)
    ensures SentOn(fs, i) == SentOn(OnSlot(fs, i), i)
  {
    if fs == [] {
    } else {
      SentOnSlot(fs[1..], i);
      if fs[0].DataFrame? && fs[0].slot == i {
        assert OnSlot(fs, i)[1..] == OnSlot(fs[1..], i);
      } else {
        assert OnSlot(fs, i) == OnSlot(fs[1..], i);
      }
    }
  }

  lemma {:induction false} SentOnAppend(a: seq<Frame>, b: seq<Frame>, i: SlotId)
    ensures SentOn(a + b, i) == SentOn(a, i) + SentOn(b, i)
  {
    if a == [] {
      assert a + b == b;
    } else {
      assert (a + b)[1..] == a[1..] + b;
      SentOnAppend(a[1..], b, i);
    }
  }

  lemma {:induction false} SentInFrames(i: SlotId, marker: Marker, payloads: seq<seq<Byte>>)
    ensures SentOn(DataFrames(i, marker, payloads), i) == Flatten(payloads)
  {
    if payloads == [] {
    } else {
      assert DataFrames(i, marker, payloads)[1..] == DataFrames(i, marker, payloads[1..]);
      SentInFrames(i, marker, payloads[1..]);
    }
  }

  lemma {:induction false} SentInCalls(i: SlotId, calls: seq<Call>)
    ensures SentOn(CallFrames(i, calls), i) == AllData(calls)
  {
    if calls == [] {
    } else {
      var pieces := Segmenting.Cut(calls[0].data, STREAM_MAX_LENGTH);
      SentOnAppend(DataFrames(i, calls[0].marker, pieces), CallFrames(i, calls[1..]), i);
      SentInFrames(i, calls[0].marker, pieces);
      Segmenting.CutIsExact(calls[0].data, STREAM_MAX_LENGTH);
      SentInCalls(i, calls[1..]);
    }
  }

  /** Each send carries one frame. */
  ghost predicate OneEach(sends: seq<seq<Byte>>, fs: seq<Frame>) {
    |sends| == |fs| && forall k :: 0 <= k < |fs| ==> fs[k].Legal() && sends[k] == fs[k].Encode()
  }

  /** What Sender.sendData passes on is one send for each of its frames. */
  lemma {:induction false} DataFramesAt(i: SlotId, marker: Marker, payloads: seq<seq<Byte>>)
    ensures |DataFrames(i, marker, payloads)| == |payloads|
    ensures forall k :: 0 <= k < |payloads| ==> DataFrames(i, marker, payloads)[k] == DataFrame(i, marker, payloads[k])
  {
    if payloads == [] {
    } else {
      DataFramesAt(i, marker, payloads[1..]);
      assert forall k :: 0 < k < |payloads| ==> payloads[k] == payloads[1..][k - 1];
    }
  }

  lemma {:induction false} DataFrameEncodes(i: SlotId, marker: Marker, payload: seq<Byte>)
    requires |payload| <= STREAM_MAX_LENGTH
    ensures var f := DataFrame(i, marker, payload);
            f.Legal() && f.Encode() == Segmenting.DataFrameBytes(i, marker, payload)
  {
    Assoc([HeaderByte(STREAM, i)], StreamHeader(marker, |payload|), payload);
  }

  lemma {:induction false} SendDataSendsFrames(sends: seq<seq<Byte>>, i: SlotId, marker: Marker,
                                               payloads: seq<seq<Byte>>)
    requires Segmenting.AreFrames(sends, i, marker, payloads)
    ensures OneEach(sends, DataFrames(i, marker, payloads))
  {
    var fs := DataFrames(i, marker, payloads);
    DataFramesAt(i, marker, payloads);
    forall k | 0 <= k < |fs| ensures fs[k].Legal() && sends[k] == fs[k].Encode() {
      DataFrameEncodes(i, marker, payloads[k]);
    }
  }

  lemma {:induction false} SendsEncode(sends: seq<seq<Byte>>, fs: seq<Frame>)
    requires OneEach(sends, fs)
    ensures Flatten(sends) == EncodeAll(fs)
    decreases |fs|
  {
    if fs == [] {
    } else {
      SendsEncode(sends[1..], fs[1..]);
    }
  }

  /** The segments handed to the transport, without its answers. */
  function Packets(segments: seq<S.Segment>): seq<seq<Byte>> {
    seq(|segments|, k requires 0 <= k < |segments| => segments[k].bytes)
  }

  lemma {:induction false} PacketsJoin(segments: seq<S.Segment>)
    ensures Flatten(Packets(segments)) == SC.SegmentBytes(segments)
  {
    if segments == [] {
    } else {
      var most := segments[..|segments| - 1];
      PacketsJoin(most);
      FlattenSnoc(Packets(most), segments[|segments| - 1].bytes);
      assert Packets(segments) == Packets(most) + [segments[|segments| - 1].bytes];
    }
  }

  /** A sender left alone until nothing more can happen by itself. */
  ghost predicate AtRest(st: S.State) {
    forall a :: SP.Internal(a) ==> !S.Enabled(st, a)
  }

  /** A run of the client's sender, which is given one frame with each send. */
  ghost predicate Sending(cfg: S.Config, run: seq<S.Action>, fs: seq<Frame>) {
    cfg.maxSegSize == MAX_SEGMENT && SP.Runs(cfg, S.START, run) && OneEach(SP.After(cfg, S.START, run).accepted, fs)
  }

  /** The records of all segments the sender has handed over. */
  ghost function Wire(cfg: S.Config, run: seq<S.Action>, c: T.Cipher, nonce: seq<Byte>): seq<Byte>
    requires SP.Runs(cfg, S.START, run)
  {
    Flatten(T.Records(c, nonce, Packets(SP.After(cfg, S.START, run).segments)))
  }

  lemma {:induction false} SegmentsFit(cfg: S.Config, segments: seq<S.Segment>)
    requires cfg.maxSegSize == MAX_SEGMENT && forall s <- segments :: 1 <= |s.bytes| <= cfg.maxSegSize
    ensures forall p <- Packets(segments) :: T.Fits(p) && |p| + T.TAG_SIZE <= T.BUFFER_SIZE
  {
    forall p <- Packets(segments) ensures T.Fits(p) && |p| + T.TAG_SIZE <= T.BUFFER_SIZE {
      var k :| 0 <= k < |segments| && Packets(segments)[k] == p;
      assert segments[k] in segments;
    }
  }

  lemma {:induction false} ConservedPrefix(sender: S.State)
    requires SC.Conserved(sender)
    ensures SC.SegmentBytes(sender.segments) <= Flatten(sender.accepted)
  {
    assert Flatten(sender.accepted)
           == SC.SegmentBytes(sender.segments) + (SC.Held(sender) + SC.Queued(sender.queue));
  }

  /** Segments fit the server's buffer, and what was handed over is the first of what was accepted. */
  lemma {:induction false} SegmentsAreFirst(cfg: S.Config, run: seq<S.Action>, fs: seq<Frame>)
    requires Sending(cfg, run, fs)
    ensures var packets := Packets(SP.After(cfg, S.START, run).segments);
            && Flatten(packets) <= EncodeAll(fs)
            && forall p <- packets :: T.Fits(p) && |p| + T.TAG_SIZE <= T.BUFFER_SIZE
  {
    var sender := SP.After(cfg, S.START, run);
    SP.EveryRunKeepsItsPromises(cfg, run);
    SendsEncode(sender.accepted, fs);
    PacketsJoin(sender.segments);
    ConservedPrefix(sender);
    SegmentsFit(cfg, sender.segments);
  }

  /**
   * At any moment of any run, with any part of the records through so far: the packets the server
   * opens are the first of the sender's segments, each of them whole, and together the first bytes of
   * the frames. When the sender came to rest and all is through, they are all of them.
   */
  lemma {:induction false} PacketsArrive(cfg: S.Config, run: seq<S.Action>, c: T.Cipher, nonce: seq<Byte>,
                                         messages: seq<seq<Byte>>, fs: seq<Frame>)
    requires Sending(cfg, run, fs) && c.Lawful() && Flatten(messages) <= Wire(cfg, run, c, nonce)
    ensures var segments := Packets(SP.After(cfg, S.START, run).segments);
            var packets := T.OpenAll(c, nonce, Flatten(messages), Some(T.BUFFER_SIZE));
            && packets <= segments && Flatten(packets) <= EncodeAll(fs)
            && (AtRest(SP.After(cfg, S.START, run)) && Flatten(messages) == Wire(cfg, run, c, nonce) ==>
                  packets == segments && Flatten(packets) == EncodeAll(fs))
  {
    var sender := SP.After(cfg, S.START, run);
    var segments := Packets(sender.segments);
    SegmentsAreFirst(cfg, run, fs);
    T.OpenCut(c, nonce, segments, Flatten(messages), Some(T.BUFFER_SIZE));
    FlattenPrefix(T.OpenAll(c, nonce, Flatten(messages), Some(T.BUFFER_SIZE)), segments);
    if AtRest(sender) && Flatten(messages) == Wire(cfg, run, c, nonce) {
      SP.StartGood(cfg);
      SP.RunGood(cfg, S.START, run);
      SP.AtRestAllIsSent(cfg, sender);
      SendsEncode(sender.accepted, fs);
      PacketsJoin(sender.segments);
      T.OpenUndoesSeal(c, nonce, segments, Some(T.BUFFER_SIZE));
    }
  }

  /**
   * The frames are those an orderly session of all 64 slots brings the server, in their order, with
   * control frames anywhere in between; machines and transport do their part in serving them.
   */
  ghost predicate Orderly(env: H.Env, fs: seq<Frame>, session: seq<CH.Action>) {
    && CH.Runs(CH.Start(SLOTS), session) && CH.OrderlyRun(CH.Start(SLOTS), session)
    && HF.Follows(env, H.Initial(), fs, HF.TakenUp(CH.Start(SLOTS), session))
  }

  /** What reaches the machines of slot `i` when the server is given `packets`. */
  function Delivered(env: H.Env, packets: seq<seq<Byte>>, i: SlotId): seq<Byte> {
    F.DeliveredTo(H.Loop(env, H.Initial(), Flatten(packets)).log, i)
  }

  /** With the first bytes of the frames through, each slot has the first bytes sent on it. */
  lemma {:induction false} FirstDelivered(fs: seq<Frame>, session: seq<CH.Action>, env: H.Env, i: SlotId,
                                          calls: seq<Call>, arrived: seq<seq<Byte>>)
    requires Orderly(env, fs, session) && OnSlot(fs, i) == CallFrames(i, calls)
    requires (forall f <- fs :: f.Legal()) && Flatten(arrived) <= EncodeAll(fs)
    ensures Delivered(env, arrived, i) <= AllData(calls)
  {
    HF.ServerAcceptsOrderlyRun(env, fs, session);
    F.AcceptedFits(env, H.Initial(), fs);
    F.PrefixDelivers(env, H.Initial(), fs, Flatten(arrived), i);
    F.NothingDelivered(i);
    SentOnSlot(fs, i);
    SentInCalls(i, calls);
    assert [] + SentOn(fs, i) == SentOn(fs, i);
  }

  /**
   * End to end, at every moment: whatever the interleaving of calls on all slots, of timers and of
   * the transport, and however the WebSocket cuts the records into messages, the machines of slot `i`
   * have been handed a prefix of the bytes sent on slot `i`.
   */
  lemma {:induction false} DeliveredSoFar(cfg: S.Config, run: seq<S.Action>, c: T.Cipher, nonce: seq<Byte>,
                                          messages: seq<seq<Byte>>, fs: seq<Frame>, session: seq<CH.Action>,
                                          env: H.Env, i: SlotId, calls: seq<Call>)
    requires Sending(cfg, run, fs) && c.Lawful() && Flatten(messages) <= Wire(cfg, run, c, nonce)
    requires Orderly(env, fs, session) && OnSlot(fs, i) == CallFrames(i, calls)
    ensures Delivered(env, T.OpenAll(c, nonce, Flatten(messages), Some(T.BUFFER_SIZE)), i) <= AllData(calls)
  {
    PacketsArrive(cfg, run, c, nonce, messages, fs);
    FirstDelivered(fs, session, env, i, calls, T.OpenAll(c, nonce, Flatten(messages), Some(T.BUFFER_SIZE)));
  }

  /** ... and all of them, in order, when the sender came to rest and all records are through. */
  lemma {:induction false} DeliveredAsSent(cfg: S.Config, run: seq<S.Action>, c: T.Cipher, nonce: seq<Byte>,
                                           messages: seq<seq<Byte>>, fs: seq<Frame>, session: seq<CH.Action>,
                                           env: H.Env, i: SlotId, calls: seq<Call>)
    requires Sending(cfg, run, fs) && c.Lawful() && Flatten(messages) == Wire(cfg, run, c, nonce)
    requires AtRest(SP.After(cfg, S.START, run))
    requires Orderly(env, fs, session) && OnSlot(fs, i) == CallFrames(i, calls)
    ensures Delivered(env, T.OpenAll(c, nonce, Flatten(messages), Some(T.BUFFER_SIZE)), i) == AllData(calls)
  {
    PacketsArrive(cfg, run, c, nonce, messages, fs);
    HF.ServerAcceptsOrderlyRun(env, fs, session);
    F.BytesReachMachines(env, fs, i);
    SentOnSlot(fs, i);
    SentInCalls(i, calls);
  }
}
