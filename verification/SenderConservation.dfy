/** The coalescing sender loses, duplicates and reorders nothing, and strands nothing. */
module SenderConservation {
  import opened Bytes
  import opened SenderSpec

  function SegmentBytes(segments: seq<Segment>): seq<Byte> {
    if segments == [] then []
    else SegmentBytes(segments[..|segments| - 1]) + segments[|segments| - 1].bytes
  }

  /** The data of the sends still in the channel. */
  function Queued(queue: seq<Item>): seq<Byte> {
    if queue == [] then []
    else (if queue[0].Send? then queue[0].data else []) + Queued(queue[1..])
  }

  function InFlight(loop: Loop): seq<Byte> {
    if loop.Transmitting? then loop.segment else []
  }

  /** The part of the current send that did not fit the segment in flight. */
  function Remainder(loop: Loop): seq<Byte> {
    if loop.Transmitting? && loop.resume.AfterFull? then loop.resume.rest else []
  }

  /** What the loop holds: the segment in flight, the buffer, the rest of the current send. */
  function Held(st: State): seq<Byte> {
    InFlight(st.loop) + st.buffer + Remainder(st.loop)
  }

  /** Handed over, then held, then still to be read: together exactly what was accepted. */
  ghost predicate Conserved(st: State) {
    SegmentBytes(st.segments) + Held(st) + Queued(st.queue) == Flatten(st.accepted)
  }

  ghost predicate Shape(cfg: Config, st: State) {
    && |st.buffer| < cfg.maxSegSize
    && (st.loop.Transmitting? ==> st.buffer == [] && 1 <= |st.loop.segment| <= cfg.maxSegSize)
    && (forall s <- st.segments :: 1 <= |s.bytes| <= cfg.maxSegSize)
  }

  lemma {:induction false} QueuedAppend(a: seq<Item>, b: seq<Item>)
    ensures Queued(a + b) == Queued(a) + Queued(b)
  {
    if a == [] {
      assert a + b == b;
    } else {
      assert (a + b)[1..] == a[1..] + b;
      QueuedAppend(a[1..], b);
    }
  }

  lemma {:induction false} SegmentsSnoc(segments: seq<Segment>, s: Segment)
    ensures SegmentBytes(segments + [s]) == SegmentBytes(segments) + s.bytes
  {
    assert (segments + [s])[..|segments|] == segments;
  }

  // ---------- Nothing is stranded ----------

  ghost predicate EndsInToken(queue: seq<Item>) {
    queue != [] && !queue[|queue| - 1].Send?
  }

  ghost predicate OnlyLastAnswers(queue: seq<Item>) {
    forall k :: 0 <= k < |queue| && queue[k] in {Flush(true), Stop} ==> k == |queue| - 1
  }

  /** Unsent bytes have a flush timer armed, or a flush waiting behind them in the channel. */
  ghost predicate NotStranded(st: State) {
    st.timer || EndsInToken(st.queue) || (st.queue == [] && st.buffer == [] && Remainder(st.loop) == [])
  }

  /** How far a close got. */
  ghost predicate ClosePhase(st: State) {
    && OnlyLastAnswers(st.queue)
    && (!st.closed ==>
          !st.flushAnswered && Flush(true) !in st.queue && Stop !in st.queue && !st.loop.Ended?
          && !(st.loop.Transmitting? && st.loop.resume == AfterFlush(true)))
    && (st.closed ==> !st.timer)
    && (st.closed && !st.flushAnswered ==>
          !st.loop.Ended? &&
          if st.loop.Transmitting? && st.loop.resume == AfterFlush(true) then st.queue == []
          else st.queue != [] && st.queue[|st.queue| - 1] == Flush(true))
    && (st.flushAnswered ==>
          st.closed && st.buffer == [] && (st.queue == [] || st.queue == [Stop])
          && (st.loop.Subscribed? || (st.loop.Ended? && st.queue == [])))
    && (st.loop.Ended? ==> st.flushAnswered)
  }

  ghost predicate Flows(cfg: Config, st: State) {
    Shape(cfg, st) && Conserved(st) && NotStranded(st) && ClosePhase(st)
  }

  lemma {:induction false} FillBytes(cfg: Config, st: State, id: nat, data: seq<Byte>)
    requires |st.buffer| < cfg.maxSegSize
    ensures Held(Fill(cfg, st, id, data)) == st.buffer + data
  {
    var n := Min(|data|, cfg.maxSegSize - |st.buffer|);
    assert data[..n] + data[n..] == data;
    var after := Fill(cfg, st, id, data);
    if after.loop.Transmitting? {
      assert Held(after) == st.buffer + data[..n] + [] + data[n..];
      assert st.buffer + (data[..n] + data[n..]) == st.buffer + data[..n] + data[n..];
    } else {
      assert n == |data|;
      assert Held(after) == after.buffer;
    }
  }

  lemma {:induction false} FillShape(cfg: Config, st: State, id: nat, data: seq<Byte>)
    requires |st.buffer| < cfg.maxSegSize
    ensures var after := Fill(cfg, st, id, data);
            && |after.buffer| < cfg.maxSegSize
            && (after.loop.Transmitting? ==>
                  after.buffer == [] && 1 <= |after.loop.segment| <= cfg.maxSegSize && after.loop.resume.AfterFull?)
            && !after.loop.Ended?
            && after == st.(buffer := after.buffer, bufferedRequests := after.bufferedRequests, loop := after.loop)
  {
  }

  lemma {:induction false} QueuedSend(queue: seq<Item>, id: nat, data: seq<Byte>)
    ensures Queued(queue + [Send(id, data)]) == Queued(queue) + data
  {
    QueuedAppend(queue, [Send(id, data)]);
    assert Queued([Send(id, data)]) == data + Queued([]) == data;
  }

  lemma {:induction false} QueuedToken(queue: seq<Item>, token: Item)
    requires !token.Send?
    ensures Queued(queue + [token]) == Queued(queue)
  {
    QueuedAppend(queue, [token]);
    assert Queued([token]) == [] + Queued([]) == [];
  }

  /** A send that is read and copied. */
  lemma {:induction false} TakeSendBytes(cfg: Config, st: State)
    requires Shape(cfg, st) && Conserved(st) && st.loop.Subscribed? && st.queue != [] && st.queue[0].Send?
    ensures Shape(cfg, TakeItem(cfg, st)) && Conserved(TakeItem(cfg, st))
  {
    var id, data := st.queue[0].id, st.queue[0].data;
    var taken := st.(queue := st.queue[1..], callbacks := st.callbacks + [id]);
    var s, rest := SegmentBytes(st.segments), Queued(st.queue[1..]);
    FillBytes(cfg, taken, id, data);
    FillShape(cfg, taken, id, data);
    assert Held(st) == [] + st.buffer + [] == st.buffer;
    assert Queued(st.queue) == data + rest;
    Assoc(s + st.buffer, data, rest);
    Assoc(s, st.buffer, data);
  }

  lemma {:induction false} TakeTokenBytes(cfg: Config, st: State)
    requires Shape(cfg, st) && Conserved(st) && st.loop.Subscribed? && st.queue != [] && !st.queue[0].Send?
    ensures Shape(cfg, TakeItem(cfg, st)) && Conserved(TakeItem(cfg, st))
    ensures Held(TakeItem(cfg, st)) == Held(st)
  {
    assert Held(st) == [] + st.buffer + [] == st.buffer;
    assert Held(TakeItem(cfg, st)) == st.buffer;
    assert Queued(st.queue) == [] + Queued(st.queue[1..]) == Queued(st.queue[1..]);
  }

  lemma {:induction false} TakeBytes(cfg: Config, st: State)
    requires Shape(cfg, st) && Conserved(st) && st.loop.Subscribed? && st.queue != []
    ensures Shape(cfg, TakeItem(cfg, st)) && Conserved(TakeItem(cfg, st))
  {
    if st.queue[0].Send? {
      TakeSendBytes(cfg, st);
    } else {
      TakeTokenBytes(cfg, st);
    }
  }

  /** The segment in flight joins the segments; the remainder is all that is held then. */
  lemma {:induction false} HandOver(st: State, ok: bool)
    requires Conserved(st) && st.loop.Transmitting? && st.buffer == []
    ensures SegmentBytes(st.segments + [Segment(st.loop.segment, ok)]) + Remainder(st.loop) + Queued(st.queue)
            == Flatten(st.accepted)
  {
    SegmentsSnoc(st.segments, Segment(st.loop.segment, ok));
    assert Held(st) == st.loop.segment + Remainder(st.loop);
    Assoc(SegmentBytes(st.segments), st.loop.segment, Remainder(st.loop));
  }

  lemma {:induction false} SegmentsStayShaped(cfg: Config, st: State, ok: bool)
    requires Shape(cfg, st) && st.loop.Transmitting?
    ensures forall s <- st.segments + [Segment(st.loop.segment, ok)] :: 1 <= |s.bytes| <= cfg.maxSegSize
  {
  }

  lemma {:induction false} AllSettledBytes(cfg: Config, st: State, ok: bool)
    requires Shape(cfg, st) && Conserved(st) && st.loop.Transmitting? && Remainder(st.loop) == []
    ensures Shape(cfg, AllSettled(st, ok)) && Conserved(AllSettled(st, ok))
  {
    HandOver(st, ok);
    SegmentsStayShaped(cfg, st, ok);
    assert Held(AllSettled(st, ok)) == [];
  }

  lemma {:induction false} MostSettledBytes(cfg: Config, st: State, ok: bool, id: nat)
    requires Shape(cfg, st) && Conserved(st) && st.loop.Transmitting?
    ensures var after := Fill(cfg, MostSettled(st, ok, id), id, Remainder(st.loop));
            Shape(cfg, after) && Conserved(after)
  {
    HandOver(st, ok);
    SegmentsStayShaped(cfg, st, ok);
    FillBytes(cfg, MostSettled(st, ok, id), id, Remainder(st.loop));
    FillShape(cfg, MostSettled(st, ok, id), id, Remainder(st.loop));
    assert [] + Remainder(st.loop) == Remainder(st.loop);
  }

  lemma {:induction false} TransmittedBytes(cfg: Config, st: State, ok: bool)
    requires Shape(cfg, st) && Conserved(st) && st.loop.Transmitting?
    ensures Shape(cfg, Transmitted(cfg, st, ok)) && Conserved(Transmitted(cfg, st, ok))
  {
    if Remainder(st.loop) == [] {
      AllSettledBytes(cfg, st, ok);
    } else {
      MostSettledBytes(cfg, st, ok, st.loop.resume.id);
    }
  }

  lemma {:induction false} TokenBytes(st: State, after: State, token: Item)
    requires Conserved(st) && !token.Send? && after.queue == st.queue + [token]
    requires after.segments == st.segments && Held(after) == Held(st) && after.accepted == st.accepted
    ensures Conserved(after)
  {
    QueuedToken(st.queue, token);
  }

  lemma {:induction false} AcceptBytes(st: State, after: State, id: nat, data: seq<Byte>)
    requires Conserved(st)
    requires after.queue == st.queue + [Send(id, data)] && after.accepted == st.accepted + [data]
    requires after.segments == st.segments && Held(after) == Held(st)
    ensures Conserved(after)
  {
    FlattenSnoc(st.accepted, data);
    QueuedSend(st.queue, id, data);
    Assoc(SegmentBytes(st.segments) + Held(st), Queued(st.queue), data);
  }

  lemma {:induction false} SendBytes(cfg: Config, st: State, data: seq<Byte>)
    requires Conserved(st)
    ensures Conserved(SendData(cfg, st, data))
  {
    var sent := st.(queue := st.queue + [Send(|st.accepted|, data)], accepted := st.accepted + [data]);
    AcceptBytes(st, sent, |st.accepted|, data);
    if st.bufferedRequests + 1 >= cfg.maxBufferedRequests {
      TokenBytes(sent, SendData(cfg, st, data), Flush(false));
    }
  }

  lemma {:induction false} ActBytes(cfg: Config, st: State, a: Action)
    requires Flows(cfg, st) && Enabled(st, a)
    ensures Shape(cfg, Act(cfg, st, a)) && Conserved(Act(cfg, st, a))
  {
    match a
    case DoTake => TakeBytes(cfg, st);
    case DoTransmitted(ok) => TransmittedBytes(cfg, st, ok);
    case DoSend(data) => SendBytes(cfg, st, data);
    case DoFire => TokenBytes(st, Fire(st), Flush(false));
    case DoClose => if !st.closed { TokenBytes(st, Close(st), Flush(true)); }
    case DoClosed => TokenBytes(st, Closed(st), Stop);
  }

  lemma {:induction false} TakeKeepsTokens(cfg: Config, st: State)
    requires Shape(cfg, st) && NotStranded(st) && ClosePhase(st) && st.loop.Subscribed? && st.queue != []
    ensures NotStranded(TakeItem(cfg, st)) && ClosePhase(TakeItem(cfg, st))
  {
    var after := TakeItem(cfg, st);
    assert forall k :: 0 <= k < |st.queue| - 1 ==> st.queue[1..][k] == st.queue[k + 1];
    if st.queue[0].Send? {
      var taken := st.(queue := st.queue[1..], callbacks := st.callbacks + [st.queue[0].id]);
      FillShape(cfg, taken, st.queue[0].id, st.queue[0].data);
    }
    assert after.queue == st.queue[1..];
    assert st.queue[0] in {Flush(true), Stop} ==> |st.queue| == 1;
  }

  lemma {:induction false} TransmittedKeepsTokens(cfg: Config, st: State, ok: bool)
    requires Shape(cfg, st) && NotStranded(st) && ClosePhase(st) && st.loop.Transmitting?
    ensures NotStranded(Transmitted(cfg, st, ok)) && ClosePhase(Transmitted(cfg, st, ok))
  {
    if Remainder(st.loop) != [] {
      var id := st.loop.resume.id;
      FillShape(cfg, MostSettled(st, ok, id), id, st.loop.resume.rest);
    }
  }

  /** A token joins the channel at its end. */
  lemma {:induction false} TokenLast(queue: seq<Item>, token: Item)
    requires !token.Send?
    ensures EndsInToken(queue + [token])
    ensures OnlyLastAnswers(queue + [token]) <== Flush(true) !in queue && Stop !in queue
  {
    assert forall k :: 0 <= k < |queue| ==> (queue + [token])[k] == queue[k] && queue[k] in queue;
  }

  lemma {:induction false} SendKeepsTokens(cfg: Config, st: State, data: seq<Byte>)
    requires NotStranded(st) && ClosePhase(st) && !st.closed
    ensures NotStranded(SendData(cfg, st, data)) && ClosePhase(SendData(cfg, st, data))
  {
    var sent := st.queue + [Send(|st.accepted|, data)];
    assert Flush(true) !in sent && Stop !in sent;
    TokenLast(sent, Flush(false));
  }

  lemma {:induction false} FireKeepsTokens(st: State)
    requires NotStranded(st) && ClosePhase(st) && st.timer
    ensures NotStranded(Fire(st)) && ClosePhase(Fire(st))
  {
    TokenLast(st.queue, Flush(false));
  }

  lemma {:induction false} CloseKeepsTokens(st: State)
    requires NotStranded(st) && ClosePhase(st)
    ensures NotStranded(Close(st)) && ClosePhase(Close(st))
  {
    TokenLast(st.queue, Flush(true));
  }

  lemma {:induction false} ClosedKeepsTokens(st: State)
    requires NotStranded(st) && ClosePhase(st) && Enabled(st, DoClosed)
    ensures NotStranded(Closed(st)) && ClosePhase(Closed(st))
  {
    assert Stop in [Stop] && [] + [Stop] == [Stop];
    TokenLast(st.queue, Stop);
  }

  lemma {:induction false} ActKeepsTokens(cfg: Config, st: State, a: Action)
    requires Flows(cfg, st) && Enabled(st, a)
    ensures NotStranded(Act(cfg, st, a)) && ClosePhase(Act(cfg, st, a))
  {
    match a
    case DoTake => TakeKeepsTokens(cfg, st);
    case DoTransmitted(ok) => TransmittedKeepsTokens(cfg, st, ok);
    case DoSend(data) => SendKeepsTokens(cfg, st, data);
    case DoFire => FireKeepsTokens(st);
    case DoClose => CloseKeepsTokens(st);
    case DoClosed => ClosedKeepsTokens(st);
  }

  /** Every step keeps bytes, order and flush tokens. */
  lemma {:induction false} ActFlows(cfg: Config, st: State, a: Action)
    requires Flows(cfg, st) && Enabled(st, a)
    ensures Flows(cfg, Act(cfg, st, a))
  {
    ActBytes(cfg, st, a);
    ActKeepsTokens(cfg, st, a);
  }
}
