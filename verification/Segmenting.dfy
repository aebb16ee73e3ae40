/**
 * Cutting long data into frames, on both ends: separateBuffer and Sender.sendData of
 * ui/stream, StreamResponder.Send of application/command/streams.go.
 */
module Segmenting {
  import opened Bytes
  import opened Protocol

  /** `buf` in pieces of `max` bytes, the last one shorter; none when there is nothing to cut. */
  function Cut(buf: seq<Byte>, max: nat): seq<seq<Byte>>
    requires max > 0
  {
    if buf == [] then [] else [Take(buf, max)] + Cut(Drop(buf, max), max)
  }

  /** Nothing is lost, no piece is empty or too long, and no piece but the last is short. */
  lemma {:induction false} CutIsExact(buf: seq<Byte>, max: nat)
    requires max > 0
    ensures Flatten(Cut(buf, max)) == buf
    ensures forall p <- Cut(buf, max) :: 1 <= |p| <= max
    ensures forall k :: 0 <= k < |Cut(buf, max)| - 1 ==> |Cut(buf, max)[k]| == max
  {
    if buf == [] {
    } else {
      var rest := Drop(buf, max);
      CutIsExact(rest, max);
      assert buf == Take(buf, max) + rest;
      if rest == [] { assert Cut(rest, max) == []; }
    }
  }

  lemma {:induction false} PiecesFit(buf: seq<Byte>, max: nat)
    requires max > 0
    ensures forall k :: 0 <= k < |Cut(buf, max)| ==> |Cut(buf, max)[k]| <= max
  {
    CutIsExact(buf, max);
    forall k | 0 <= k < |Cut(buf, max)| ensures |Cut(buf, max)[k]| <= max {
      assert Cut(buf, max)[k] in Cut(buf, max);
    }
  }

  /** The next piece, and what is left to cut. */
  lemma {:induction false} CutOne(buf: seq<Byte>, start: nat, size: nat, max: nat, done: seq<seq<Byte>>)
    requires max > 0 && start < |buf| && size == Min(|buf| - start, max)
    ensures done + Cut(buf[start..], max) == done + [buf[start..start + size]] + Cut(buf[start + size..], max)
    ensures start + size == |buf| ==> done + Cut(buf[start..], max) == done + [buf[start..start + size]]
  {
    var rest := buf[start..];
    assert Take(rest, max) == buf[start..start + size] && Drop(rest, max) == buf[start + size..];
    Assoc(done, [buf[start..start + size]], Cut(buf[start + size..], max));
  }

  /** separateBuffer; it gives nothing at all back for an empty buffer. */
  method SeparateBuffer(buf: seq<Byte>, max: nat) returns (result: seq<seq<Byte>>)
    requires max > 0
    ensures result == Cut(buf, max)
  {
    var start := 0;
    result := [];
    assert buf[0..] == buf;
    while start < |buf|
      invariant 0 <= start <= |buf|
      invariant Cut(buf, max) == result + Cut(buf[start..], max)
    {
      var remain := |buf| - start;
      CutOne(buf, start, Min(remain, max), max, result);
      if remain <= max {
        result := result + [buf[start..start + remain]];
        return;
      }
      remain := max;
      result := result + [buf[start..start + remain]];
      start := start + remain;
    }
  }

  /** The bytes of one data frame. */
  function DataFrameBytes(i: SlotId, marker: Marker, payload: seq<Byte>): seq<Byte>
    requires |payload| <= STREAM_MAX_LENGTH
  {
    [HeaderByte(STREAM, i)] + StreamHeader(marker, |payload|) + payload
  }

  /** `sends` are the data frames of slot `i` that carry `payloads`, one for one. */
  predicate AreFrames(sends: seq<seq<Byte>>, i: SlotId, marker: Marker, payloads: seq<seq<Byte>>) {
    |sends| == |payloads|
    && forall k :: 0 <= k < |sends| ==>
         |payloads[k]| <= STREAM_MAX_LENGTH && sends[k] == DataFrameBytes(i, marker, payloads[k])
  }

  lemma {:induction false} OneMoreFrame(sends: seq<seq<Byte>>, i: SlotId, marker: Marker, payloads: seq<seq<Byte>>,
                                        p: seq<Byte>)
    requires AreFrames(sends, i, marker, payloads) && |p| <= STREAM_MAX_LENGTH
    ensures AreFrames(sends + [DataFrameBytes(i, marker, p)], i, marker, payloads + [p])
  {
  }

  /** The frames written so far are the first of those due. */
  predicate WrittenSoFar(h: SlotId, marker: Marker, frames: seq<seq<Byte>>, written: seq<seq<Byte>>) {
    |written| <= |frames| && AreFrames(written, h, marker, frames[..|written|])
  }

  lemma {:induction false} OneMoreWritten(h: SlotId, marker: Marker, frames: seq<seq<Byte>>, written: seq<seq<Byte>>,
                                          p: seq<Byte>)
    requires WrittenSoFar(h, marker, frames, written) && |written| < |frames|
    requires p == frames[|written|] && |p| <= STREAM_MAX_LENGTH
    ensures WrittenSoFar(h, marker, frames, written + [DataFrameBytes(h, marker, p)])
  {
    OneMoreFrame(written, h, marker, frames[..|written|], p);
    assert frames[..|written| + 1] == frames[..|written|] + [p];
  }

  /** The body of Sender.sendData's loop: header byte, sub-header and payload in one new array. */
  method PackFrame(id: SlotId, marker: Marker, payload: seq<Byte>) returns (frame: seq<Byte>)
    requires |payload| <= STREAM_MAX_LENGTH
    ensures frame == DataFrameBytes(id, marker, payload)
  {
    var d := new Byte[|payload| + 3](_ => 0);
    d[0] := HeaderByte(STREAM, id);
    CopyInto(d, 1, StreamHeader(marker, |payload|));
    assert d[..3] == d[..1] + d[1..3];
    ghost var head := d[..3];
    CopyInto(d, 3, payload);
    assert d[..] == head + d[3..3 + |payload|];
    frame := d[..];
  }

  /**
   * Sender.sendData: what it passes to the coalescing sender, one send per frame, each awaited before
   * the next; send `k` is resolved when `resolves(k)`. A closed sender throws and sends nothing.
   */
  method SendData(id: SlotId, marker: Marker, data: seq<Byte>, closed: bool, resolves: nat -> bool)
    returns (ok: bool, sends: seq<seq<Byte>>)
    ensures closed ==> !ok && sends == []
    ensures !closed ==>
              var pieces := Cut(data, STREAM_MAX_LENGTH);
              && WrittenSoFar(id, marker, pieces, sends)
              && (forall k :: 0 <= k < |sends| - 1 ==> resolves(k))
              && (if ok then |sends| == |pieces| && (sends != [] ==> resolves(|sends| - 1))
                  else sends != [] && !resolves(|sends| - 1))
  {
    if closed {
      return false, [];
    }
    PiecesFit(data, STREAM_MAX_LENGTH);
    var dataSeg := SeparateBuffer(data, STREAM_MAX_LENGTH);
    ok, sends := SendSegments(id, marker, dataSeg, resolves);
  }

  /** The loop of Sender.sendData. */
  method SendSegments(id: SlotId, marker: Marker, dataSeg: seq<seq<Byte>>, resolves: nat -> bool)
    returns (ok: bool, sends: seq<seq<Byte>>)
    requires forall k :: 0 <= k < |dataSeg| ==> |dataSeg[k]| <= STREAM_MAX_LENGTH
    ensures WrittenSoFar(id, marker, dataSeg, sends)
    ensures forall k :: 0 <= k < |sends| - 1 ==> resolves(k)
    ensures if ok then |sends| == |dataSeg| && (sends != [] ==> resolves(|sends| - 1))
            else sends != [] && !resolves(|sends| - 1)
  {
    sends := [];
    for i := 0 to |dataSeg|
      invariant |sends| == i && WrittenSoFar(id, marker, dataSeg, sends)
      invariant forall k :: 0 <= k < i ==> resolves(k)
    {
      var d := PackFrame(id, marker, dataSeg[i]);
      OneMoreWritten(id, marker, dataSeg, sends, dataSeg[i]);
      sends := sends + [d];
      if !resolves(i) {
        return false, sends;
      }
    }
    ok := true;
  }

  const RESPONDER_HEADER_SIZE := 3

  /**
   * StreamResponder.write: one frame with as much of `b` as buffer and header allow. `accepted`
   * is the answer of the writer under it.
   */
  method WriteSegment(h: SlotId, mk: Marker, b: seq<Byte>, buf: array<Byte>, accepted: bool)
    returns (n: nat, written: seq<Byte>)
    requires RESPONDER_HEADER_SIZE < buf.Length
    modifies buf
    ensures var size := Min(|b|, Min(buf.Length - RESPONDER_HEADER_SIZE, STREAM_MAX_LENGTH));
            written == DataFrameBytes(h, mk, b[..size]) && n == if accepted then size else 0
  {
    var payloadCapacity := buf.Length - RESPONDER_HEADER_SIZE;
    var bLen := |b|;
    if bLen > payloadCapacity {
      bLen := payloadCapacity;
    }
    if bLen > STREAM_MAX_LENGTH {
      bLen := STREAM_MAX_LENGTH;
    }
    var sHeaderStream := StreamHeader(mk, bLen);
    CopyInto(buf, RESPONDER_HEADER_SIZE, b[..bLen]);
    buf[0] := HeaderByte(STREAM, h);
    buf[1] := sHeaderStream[0];
    buf[2] := sHeaderStream[1];
    assert buf[3..3 + bLen] == b[..bLen];
    assert buf[..bLen + 3] == [buf[0]] + [buf[1], buf[2]] + buf[3..3 + bLen];
    written := buf[..bLen + 3];
    n := if accepted then bLen else 0;
  }

  /** What `Send` cuts its data into: even no data is one frame. */
  function Responses(data: seq<Byte>, max: nat): seq<seq<Byte>>
    requires max > 0
  {
    if data == [] then [[]] else Cut(data, max)
  }

  lemma {:induction false} ResponsesJoin(data: seq<Byte>, max: nat)
    requires max > 0
    ensures Flatten(Responses(data, max)) == data && forall p <- Responses(data, max) :: |p| <= max
  {
    CutIsExact(data, max);
  }

  /** `done` segments of `data` are sent, and those of `data[start..]` are still to be. */
  ghost predicate Progress(data: seq<Byte>, max: nat, start: nat, done: nat)
    requires max > 0
  {
    start <= |data| && (start == |data| ==> data == []) && done < |Responses(data, max)|
    && Responses(data, max)[done..] == Responses(data[start..], max)
  }

  lemma {:induction false} ProgressStep(data: seq<Byte>, max: nat, start: nat, done: nat)
    requires max > 0 && Progress(data, max, start, done)
    ensures var size := Min(|data| - start, max);
            Responses(data, max)[done] == data[start..][..size]
            && if start + size < |data| then Progress(data, max, start + size, done + 1)
               else done + 1 == |Responses(data, max)|
  {
    var rest := data[start..];
    var frames := Responses(data, max);
    assert frames[done] == frames[done..][0];
    if rest != [] {
      assert Drop(rest, max) == data[start + Min(|rest|, max)..];
      assert Cut(rest, max)[1..] == Cut(Drop(rest, max), max) == frames[done + 1..];
    }
  }

  lemma {:induction false} ProgressStart(data: seq<Byte>, max: nat)
    requires max > 0
    ensures Progress(data, max, 0, 0)
  {
    assert data[0..] == data && Responses(data, max)[0..] == Responses(data, max);
  }

  /** One round of StreamResponder.Send: what it writes is the frame that is due. */
  method SendOne(h: SlotId, marker: Marker, data: seq<Byte>, start: nat, buf: array<Byte>, accepted: bool,
                 ghost max: nat, ghost written: seq<seq<Byte>>)
    returns (wLen: nat, message: seq<Byte>)
    requires RESPONDER_HEADER_SIZE < buf.Length && max == Min(buf.Length - RESPONDER_HEADER_SIZE, STREAM_MAX_LENGTH)
    requires Progress(data, max, start, |written|) && WrittenSoFar(h, marker, Responses(data, max), written)
    modifies buf
    ensures WrittenSoFar(h, marker, Responses(data, max), written + [message])
    ensures accepted ==>
              if start + wLen < |data| then wLen > 0 && Progress(data, max, start + wLen, |written| + 1)
              else |written| + 1 == |Responses(data, max)|
  {
    ProgressStep(data, max, start, |written|);
    wLen, message := WriteSegment(h, marker, data[start..], buf, accepted);
    OneMoreWritten(h, marker, Responses(data, max), written, data[start..][..Min(|data| - start, max)]);
  }

  /**
   * StreamResponder.Send: frame by frame until all is written or the writer refuses one. The
   * k-th frame is accepted when `accepts(k)`.
   */
  method Send(h: SlotId, marker: Marker, data: seq<Byte>, buf: array<Byte>, accepts: nat -> bool)
    returns (ok: bool, written: seq<seq<Byte>>)
    requires RESPONDER_HEADER_SIZE < buf.Length
    modifies buf
    ensures var frames := Responses(data, Min(buf.Length - RESPONDER_HEADER_SIZE, STREAM_MAX_LENGTH));
            && written != [] && WrittenSoFar(h, marker, frames, written)
            && (forall k :: 0 <= k < |written| - 1 ==> accepts(k))
            && ok == accepts(|written| - 1) && (ok ==> |written| == |frames|)
  {
    ghost var max := Min(buf.Length - RESPONDER_HEADER_SIZE, STREAM_MAX_LENGTH);
    var dataLen, start := |data|, 0;
    written := [];
    ProgressStart(data, max);
    while true
      invariant Progress(data, max, start, |written|)
      invariant WrittenSoFar(h, marker, Responses(data, max), written)
      invariant forall k :: 0 <= k < |written| ==> accepts(k)
      decreases dataLen - start
    {
      var accepted := accepts(|written|);
      var wLen, message := SendOne(h, marker, data, start, buf, accepted, max, written);
      written := written + [message];
      start := start + wLen;
      if !accepted {
        return false, written;
      }
      if start < dataLen {
        continue;
      }
      return true, written;
    }
  }
}
