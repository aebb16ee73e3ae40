/** The coalescing sender in the form of the source: ui/stream/sender.js on its channel. */
module Sender {
  import opened Bytes
  import S = Subscribe
  import Spec = SenderSpec

  class Sender {
    const cfg: Spec.Config
    const subscribe: S.Subscribe<Spec.Item>
    const buffer: array<Byte>
    var bufferUsed: nat
    var bufferedRequests: nat
    /** `sendDelay` is set: the flush timer is armed. */
    var sendDelay: bool
    var closed: bool
    /** Where the `sending` loop is, and its local list of callbacks. */
    var loop: Spec.Loop
    var callbacks: seq<nat>
    /** How many promises `send` gave out, and whether the flush of `close` was answered. */
    var promises: nat
    var flushAnswered: bool

    ghost var accepted: seq<seq<Byte>>
    ghost var segments: seq<Spec.Segment>
    ghost var settled: map<nat, bool>

    /** The loop awaits the channel exactly when it is subscribed to it. */
    ghost predicate Valid()
      reads this, subscribe
    {
      && buffer.Length == cfg.maxSegSize && bufferUsed < buffer.Length
      && promises == |accepted| && subscribe.Valid()
      && (loop.Subscribed? <==> subscribe.waiter || subscribe.handed != [])
    }

    ghost function Abs(): Spec.State
      requires bufferUsed <= buffer.Length
      reads this, subscribe, buffer
    {
      Spec.State(subscribe.Contents(), buffer[..bufferUsed], bufferedRequests, sendDelay, closed, loop,
                 callbacks, flushAnswered, accepted, segments, settled)
    }

    constructor (cfg: Spec.Config)
      requires cfg.maxSegSize > 0
      ensures Valid() && this.cfg == cfg && Abs() == Spec.START
      ensures fresh(subscribe) && fresh(buffer)
    {
      this.cfg := cfg;
      subscribe := new S.Subscribe();
      buffer := new Byte[cfg.maxSegSize](i => 0);
      bufferUsed, bufferedRequests, sendDelay, closed := 0, 0, false, false;
      loop, callbacks, promises, flushAnswered := Spec.Subscribed, [], 0, false;
      accepted, segments, settled := [], [], map[];
      new;
      subscribe.Subscribe();
    }

    /** Copies as much of `data` as fits behind the used part of the buffer. */
    method AppendBuffer(data: seq<Byte>) returns (appendLength: nat)
      requires bufferUsed <= buffer.Length
      modifies this`bufferUsed, buffer
      ensures appendLength == Min(|data|, buffer.Length - old(bufferUsed))
      ensures bufferUsed == old(bufferUsed) + appendLength
      ensures buffer[..bufferUsed] == old(buffer[..bufferUsed]) + data[..appendLength]
    {
      var remainSize := buffer.Length - bufferUsed;
      appendLength := if |data| > remainSize then remainSize else |data|;
      var k := 0;
      while k < appendLength
        invariant 0 <= k <= appendLength
        invariant buffer[..bufferUsed + k] == old(buffer[..bufferUsed]) + data[..k]
        modifies buffer
      {
        buffer[bufferUsed + k] := data[k];
        k := k + 1;
      }
      bufferUsed := bufferUsed + appendLength;
    }

    /** The buffered bytes; the buffer is empty afterwards. */
    method ExportBuffer() returns (exported: seq<Byte>)
      requires bufferUsed <= buffer.Length
      modifies this`bufferUsed, this`bufferedRequests
      ensures exported == buffer[..old(bufferUsed)] && bufferUsed == 0 && bufferedRequests == 0
    {
      exported := buffer[..bufferUsed];
      bufferUsed, bufferedRequests := 0, 0;
    }

    /** The executor of the promise of `send`: the data goes into the channel. */
    method Queue(data: seq<Byte>)
      requires Valid()
      modifies this`promises, this`accepted, subscribe
      ensures Valid()
      ensures Abs() == old(Abs().(queue := Abs().queue + [Spec.Send(|accepted|, data)], accepted := accepted + [data]))
    {
      subscribe.Produce(Spec.Send(promises, data));
      promises := promises + 1;
      accepted := accepted + [data];
    }

    /** `send`; on a closed sender the promise is rejected at once and nothing changes. */
    method Send(data: seq<Byte>) returns (taken: bool)
      requires Valid()
      modifies this, subscribe
      ensures Valid() && taken == !old(closed)
      ensures Abs() == if taken then Spec.SendData(cfg, old(Abs()), data) else old(Abs())
    {
      if closed {
        return false;
      }
      sendDelay := false;
      Queue(data);
      bufferedRequests := bufferedRequests + 1;
      if bufferedRequests >= cfg.maxBufferedRequests {
        bufferedRequests := 0;
        subscribe.Produce(Spec.Flush(false));
      } else {
        sendDelay := true;
      }
      taken := true;
    }

    /** The timer's callback. */
    method Fire()
      requires Valid() && sendDelay
      modifies this, subscribe
      ensures Valid() && Abs() == Spec.Fire(old(Abs()))
    {
      sendDelay := false;
      bufferedRequests := 0;
      subscribe.Produce(Spec.Flush(false));
    }

    /** `close`, up to the await of its flush. */
    method Close()
      requires Valid()
      modifies this, subscribe
      ensures Valid() && Abs() == Spec.Close(old(Abs()))
    {
      if closed {
        return;
      }
      closed := true;
      sendDelay := false;
      subscribe.Produce(Spec.Flush(true));
    }

    /** `close`, after its flush was answered. */
    method CloseDone()
      requires Valid()
      modifies this, subscribe
      ensures Valid() && Abs() == Spec.Closed(old(Abs()))
    {
      bufferUsed, bufferedRequests := 0, 0;
      subscribe.Produce(Spec.Stop);
    }

    /** Back to the channel. */
    method Resubscribe()
      requires bufferUsed < buffer.Length == cfg.maxSegSize && promises == |accepted|
      requires subscribe.Valid() && !subscribe.waiter && subscribe.handed == []
      modifies this`loop, subscribe
      ensures Valid() && loop == Spec.Subscribed && subscribe.Contents() == old(subscribe.Contents())
    {
      loop := Spec.Subscribed;
      subscribe.Subscribe();
    }

    /** One round of the copying loop, up to its next await. */
    method Fill(id: nat, data: seq<Byte>)
      requires bufferUsed < buffer.Length == cfg.maxSegSize && promises == |accepted|
      requires subscribe.Valid() && !subscribe.waiter && subscribe.handed == []
      modifies this`loop, this`bufferUsed, this`bufferedRequests, subscribe, buffer
      ensures Valid() && Abs() == Spec.Fill(cfg, old(Abs()), id, data)
    {
      if |data| <= 0 {
        Resubscribe();
        return;
      }
      var sentLen := AppendBuffer(data);
      if buffer.Length > bufferUsed {
        Resubscribe();
        return;
      }
      var segment := ExportBuffer();
      loop := Spec.Transmitting(segment, Spec.AfterFull(id, data[sentLen..]));
    }

    /** The `sending` loop resumes with the next item of its channel. */
    method Take()
      requires Valid() && loop.Subscribed? && subscribe.Contents() != []
      modifies this, subscribe, buffer
      ensures Valid() && Abs() == Spec.TakeItem(cfg, old(Abs()))
    {
      var fetched := subscribe.Resume();
      match fetched
      case Flush(answer) =>
        if bufferUsed <= 0 {
          flushAnswered := flushAnswered || answer;
          Resubscribe();
        } else {
          var segment := ExportBuffer();
          loop := Spec.Transmitting(segment, Spec.AfterFlush(answer));
        }
      case Send(id, data) =>
        callbacks := callbacks + [id];
        Fill(id, data);
      case Stop =>
        loop := Spec.Ended;
    }

    /** `sendData` returns: its promises are settled, and the loop goes on. */
    method Transmitted(ok: bool)
      requires Valid() && loop.Transmitting?
      modifies this, subscribe, buffer
      ensures Valid() && Abs() == Spec.Transmitted(cfg, old(Abs()), ok)
    {
      match loop.resume
      case AfterFlush(answer) =>
        SettleAll(ok);
        flushAnswered := flushAnswered || answer;
        Resubscribe();
      case AfterFull(id, rest) =>
        if |rest| <= 0 {
          SettleAll(ok);
          Resubscribe();
        } else {
          SettleMost(ok, id);
          Fill(id, rest);
        }
    }

    /** The callbacks are resolved or rejected, and none is kept. */
    method SettleAll(ok: bool)
      requires loop.Transmitting? && bufferUsed <= buffer.Length
      modifies this`segments, this`settled, this`callbacks
      ensures Abs().(loop := Spec.Subscribed) == Spec.AllSettled(old(Abs()), ok)
    {
      segments := segments + [Spec.Segment(loop.segment, ok)];
      settled := Spec.Settle(settled, callbacks, ok);
      callbacks := [];
    }

    /** The same, but for send `id`, which is not resolved yet and is kept. */
    method SettleMost(ok: bool, id: nat)
      requires loop.Transmitting? && bufferUsed <= buffer.Length
      modifies this`segments, this`settled, this`callbacks
      ensures Abs() == Spec.MostSettled(old(Abs()), ok, id)
    {
      segments := segments + [Spec.Segment(loop.segment, ok)];
      ghost var due := if ok && callbacks != [] then callbacks[..|callbacks| - 1] else callbacks;
      settled := Spec.Settle(settled, due, ok);
      callbacks := [id];
    }
  }
}
