/**
 * The client's dispatch loop and slots, in the form of the source: ui/stream/streams.js and
 * stream.js. Every method is proved against its function in ClientSpec.
 */
module ClientStreams {
  import opened Bytes
  import opened Protocol
  import R = Reader
  import Spec = ClientSpec

  class Streams {
    /** The answers of commands, the user and the echo timer. */
    const env: Spec.Env
    const reader: R.Reader
    const streams: array<Spec.Slot>
    var lastEchoData: Option<seq<Byte>>
    /** What was done so far, and how many events that is. */
    ghost var log: seq<Spec.Event>
    var events: nat

    ghost predicate Valid()
      reads this, reader
    {
      streams.Length == SLOTS && reader.Valid() && events == |log|
    }

    ghost function Abs(): Spec.State
      reads this, streams
    {
      Spec.State(streams[..], lastEchoData, log)
    }

    /** A frame was handled as `o` says, with `ok` for "no exception". */
    ghost predicate Did(o: Outcome<Spec.State>, ok: bool)
      reads this, streams, reader
    {
      Valid() && Abs() == o.st && ok == o.Next? && (ok ==> reader.Pending() == o.rest)
    }

    constructor (env: Spec.Env, reader: R.Reader)
      requires reader.Valid()
      ensures Valid() && fresh(streams)
      ensures this.env == env && this.reader == reader && Abs() == Spec.Initial()
    {
      this.env, this.reader := env, reader;
      streams := new Spec.Slot[SLOTS](i => Spec.IDLE);
      lastEchoData, log, events := None, [], 0;
    }

    method Record(ghost e: Spec.Event)
      requires Valid()
      modifies this`log, this`events
      ensures Valid() && log == old(log) + [e]
    {
      log, events := log + [e], events + 1;
    }

    /** Takes the first idle slot for a new command, if there is one; none is sent if it throws. */
    method Request(r: Spec.Request) returns (sent: bool)
      requires Valid()
      modifies this`log, this`events, streams
      ensures Valid() && Abs() == Spec.Ask(old(Abs()), r)
      ensures sent <==> r.Sends() && exists i :: 0 <= i < SLOTS && !old(streams[i].running)
    {
      var i := 0;
      while i < streams.Length
        invariant 0 <= i <= SLOTS && forall j :: 0 <= j < i ==> streams[j].running
        invariant Spec.FirstIdle(streams[..], i) == Spec.FirstIdle(streams[..], 0)
      {
        if streams[i].running {
          i := i + 1;
          continue;
        }
        streams[i] := Spec.Slot(true, true, false);
        sent := r.Sends();
        Record(if sent then Spec.Requested(i, r) else Spec.Unsent(i, r));
        return;
      }
      sent := false;
    }

    /** The callback of sendEcho, when its send is resolved. */
    method EchoResolved(data: seq<Byte>)
      requires Valid()
      modifies this`log, this`events, this`lastEchoData
      ensures Valid() && Abs() == Spec.EchoResolved(old(Abs()), data)
    {
      if lastEchoData.Some? {
        lastEchoData := None;
        Record(Spec.EchoFailed);
      }
      Record(Spec.EchoAwaited(data));
      lastEchoData := Some(data);
    }

    /** What the timer and the user do before frame `k`. */
    method Prepare(k: nat)
      requires Valid()
      modifies this`log, this`events, this`lastEchoData, streams
      ensures Valid() && Abs() == Spec.Prepare(env, old(Abs()), k)
    {
      var echo, requests := env.echo(k), env.requests(k);
      if echo.Some? {
        EchoResolved(echo.value);
      }
      ghost var before := Abs();
      for i := 0 to |requests|
        invariant Valid() && Spec.AskAll(Abs(), requests[i..]) == Spec.AskAll(before, requests)
        modifies this`log, this`events, streams
      {
        assert requests[i..][1..] == requests[i + 1..];
        var _ := Request(requests[i]);
      }
    }

    /** Compares the answer with the last echo byte by byte. */
    method EchoAnswer(echoBytes: seq<Byte>)
      requires Valid()
      modifies this`log, this`events, this`lastEchoData
      ensures Valid() && Abs() == Spec.EchoAnswer(old(Abs()), echoBytes)
    {
      if lastEchoData.None? {
        return;
      }
      var last := lastEchoData.value;
      if |last| != |echoBytes| {
        return;
      }
      for i := 0 to |last|
        invariant Valid() && Abs() == old(Abs()) && last[..i] == echoBytes[..i]
      {
        if last[i] == echoBytes[i] {
          continue;
        }
        lastEchoData := None;
        Record(Spec.EchoFailed);
        return;
      }
      assert last == last[..|last|] == echoBytes[..|last|] == echoBytes;
      lastEchoData := None;
      Record(Spec.EchoMatched);
    }

    method HandleControl(d: SlotId) returns (ok: bool)
      requires Valid()
      modifies this`log, this`events, this`lastEchoData, reader
      ensures Did(Spec.Control(old(Abs()), d, old(reader.Pending())), ok)
    {
      ghost var input := reader.Pending();
      var rd := new R.Limited(reader, d);
      var controlType := rd.Export(1);
      if controlType.Failed? {
        return false;
      }
      assert input == controlType.data + reader.Pending() && input[..1] == controlType.data;
      var echoBytes := rd.ReadCompletely();
      if echoBytes.Failed? || controlType.data[0] != CONTROL_ECHO {
        return false;
      }
      assert input[1..d] == echoBytes.data && input[d..] == reader.Pending();
      EchoAnswer(echoBytes.data);
      ok := true;
    }

    /** A command takes as much of its reader as it likes, in pieces of any size. */
    method CommandReads(rd: R.Limited)
      requires rd.Valid()
      modifies rd`remain, rd.reader
      ensures rd.Valid() && rd.remain <= old(rd.remain)
      ensures Drop(rd.reader.Pending(), rd.remain) == Drop(old(rd.reader.Pending()), old(rd.remain))
      ensures rd.remain <= |rd.reader.Pending()| <==> old(rd.remain) <= |old(rd.reader.Pending())|
    {
      var count: nat := *;
      while count > 0
        invariant rd.Valid() && rd.remain <= old(rd.remain)
        invariant Drop(rd.reader.Pending(), rd.remain) == Drop(old(rd.reader.Pending()), old(rd.remain))
        invariant rd.remain <= |rd.reader.Pending()| <==> old(rd.remain) <= |old(rd.reader.Pending())|
      {
        var want: nat := *;
        var _ := rd.Export(want);
        count := count - 1;
      }
    }

    /** Stream.initialize */
    method Initialize(i: SlotId, b0: Byte, b1: Byte) returns (ok: bool)
      requires Valid()
      modifies this`log, this`events, streams
      ensures Did(Spec.Initialize(env, old(Abs()), i, b0, b1, reader.Pending()), ok)
    {
      if streams[i].shuttingDown {
        return false;
      }
      ok := env.ok(events);
      Record(Spec.Initialized(i, InitialSuccess(b0), InitialDataOf(b0, b1), ok));
      if !ok {
        return;
      }
      if !InitialSuccess(b0) {
        streams[i] := Spec.IDLE;
        return;
      }
      streams[i] := streams[i].(initializing := false);
    }

    /** Stream.tick on the next `n` bytes, and reading what the command left unread. */
    method Tick(i: SlotId, marker: Marker, n: nat) returns (ok: bool)
      requires Valid()
      modifies this`log, this`events, reader
      ensures Did(Spec.Tick(env, old(Abs()), i, marker, n, old(reader.Pending())), ok)
    {
      ghost var input := reader.Pending();
      var streamReader := new R.Limited(reader, n);
      if streams[i].shuttingDown {
        return false;
      }
      ok := env.ok(events);
      Record(Spec.Ticked(i, marker, Take(input, n), ok));
      CommandReads(streamReader);
      if !ok {
        return;
      }
      ghost var left := reader.Pending();
      var rest := streamReader.ReadCompletely();
      ok := rest.Got?;
      assert ok ==> reader.Pending() == left[|rest.data|..] == Drop(input, n);
    }

    method HandleStream(i: SlotId) returns (ok: bool)
      requires Valid()
      modifies this`log, this`events, streams, reader
      ensures Did(Spec.Stream(env, old(Abs()), i, old(reader.Pending())), ok)
    {
      if !streams[i].running {
        return false;
      }
      ghost var input := reader.Pending();
      var hd := reader.ReadN(2);
      if hd.Failed? {
        return false;
      }
      assert input[..2] == hd.data && input[2..] == reader.Pending();
      if streams[i].initializing {
        ok := Initialize(i, hd.data[0], hd.data[1]);
      } else {
        ok := Tick(i, StreamMarker(hd.data[0]), StreamLength(hd.data[0], hd.data[1]));
      }
    }

    /** Stream.close; refused when the slot is not running or already shutting down. */
    method CloseStream(i: SlotId) returns (ok: bool)
      requires Valid()
      modifies this`log, this`events, streams
      ensures Valid() && ok == (old(streams[i].running) && !old(streams[i].shuttingDown))
      ensures Abs() == if ok then Spec.CloseStream(old(Abs()), i) else old(Abs())
    {
      if !streams[i].running || streams[i].shuttingDown {
        return false;
      }
      streams[i] := streams[i].(shuttingDown := true);
      Record(Spec.Closed(i));
      ok := true;
    }

    /** Stream.completed; refused when the slot is not running or not shutting down. */
    method EndStream(i: SlotId) returns (ok: bool)
      requires Valid()
      modifies this`log, this`events, streams
      ensures Valid() && ok == (old(streams[i].running) && old(streams[i].shuttingDown))
      ensures Abs() == if ok then Spec.EndStream(old(Abs()), i) else old(Abs())
    {
      if !streams[i].running || !streams[i].shuttingDown {
        return false;
      }
      Record(Spec.Ended(i));
      streams[i] := Spec.IDLE;
      ok := true;
    }

    method HandleClose(i: SlotId) returns (ok: bool)
      requires Valid()
      modifies this`log, this`events, streams
      ensures Did(Spec.Close(old(Abs()), i, reader.Pending()), ok)
    {
      ok := CloseStream(i);
      if ok {
        Record(Spec.Acknowledged(i));
      }
    }

    /** Streams.clear */
    method Clear()
      requires Valid()
      modifies this`log, this`events, streams
      ensures Valid() && Abs() == Spec.ClearFrom(old(Abs()), 0)
    {
      var i := 0;
      while i < streams.Length
        invariant Valid() && 0 <= i <= SLOTS
        invariant Spec.ClearFrom(Abs(), i) == Spec.ClearFrom(old(Abs()), 0)
      {
        if streams[i].running {
          var _ := CloseStream(i);
          var _ := EndStream(i);
        }
        i := i + 1;
      }
    }

    /** One frame. */
    method HandleFrame(h: Byte) returns (ok: bool)
      requires Valid()
      modifies this`log, this`events, this`lastEchoData, streams, reader
      ensures Did(Spec.Step(env, old(Abs()), h, old(reader.Pending())), ok)
    {
      if TypeOf(h) == CONTROL {
        ok := HandleControl(DataOf(h));
      } else if TypeOf(h) == STREAM {
        ok := HandleStream(DataOf(h));
      } else if TypeOf(h) == CLOSE {
        ok := HandleClose(DataOf(h));
      } else {
        ok := EndStream(DataOf(h));
      }
    }

    /** The loop of Streams.serve with Streams.tick; no exception met here is a temporary one. */
    method Serve()
      requires Valid()
      modifies this`log, this`events, this`lastEchoData, streams, reader
      ensures Valid()
      ensures Abs() == Spec.ClearFrom(Spec.Loop(env, old(Abs()), 0, old(reader.Pending())), 0)
    {
      var ok, k := true, 0;
      while ok
        invariant Valid() && 0 <= k
        invariant (if ok then Spec.Loop(env, Abs(), k, reader.Pending()) else Abs())
                  == Spec.Loop(env, old(Abs()), 0, old(reader.Pending()))
        decreases ok, |reader.Pending()|
      {
        Prepare(k);
        var headerBytes := reader.ReadOne();
        if headerBytes.Failed? {
          break;
        }
        ok := HandleFrame(headerBytes.data[0]);
        k := k + 1;
      }
      Clear();
    }
  }
}
