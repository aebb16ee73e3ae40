/**
 * The server's dispatch loop, in the form of the source: application/command/handler.go,
 * streams.go and fsm.go. Every method is proved against its function in HandlerSpec.
 */
module Handler {
  import opened Bytes
  import opened Protocol
  import opened Rw
  import Spec = HandlerSpec

  /** Size of the read buffer: 63 bytes of payload, one header byte, two more. */
  const READ_BUFFER_LENGTH := HEADER_MAX_DATA + 3

  class Handler {
    /** The answers of everything outside: registered commands, machines, the transport. */
    const env: Spec.Env
    const receiver: FetchReader
    const rBuf: array<Byte>
    const slots: array<Spec.Slot>
    var senderPaused: bool
    /** handlerSender.needWait: ordinary writes are suspended. */
    var needWait: bool
    /** How many machines were started; names them in the log. */
    var machines: nat
    /** What was done so far, and how many events that is. */
    ghost var log: seq<Spec.Event>
    var events: nat

    ghost predicate Valid()
      reads this, receiver
    {
      rBuf.Length == READ_BUFFER_LENGTH && slots.Length == SLOTS && receiver.Valid()
      && events == |log|
    }

    ghost function Abs(): Spec.State
      reads this, slots
    {
      Spec.State(slots[..], senderPaused, needWait, machines, log)
    }

    /** The handler ended a request as `o` says, with `ok` for "no error". */
    ghost predicate Did(o: Outcome<Spec.State>, ok: bool)
      reads this, slots, receiver
    {
      Valid() && Abs() == o.st && ok == o.Next? && (ok ==> receiver.Pending() == o.rest)
    }

    constructor (env: Spec.Env, receiver: FetchReader)
      requires receiver.Valid()
      ensures Valid() && fresh(rBuf) && fresh(slots)
      ensures this.env == env && this.receiver == receiver && Abs() == Spec.Initial()
    {
      this.env := env;
      this.receiver := receiver;
      rBuf := new Byte[READ_BUFFER_LENGTH](i => 0);
      slots := new Spec.Slot[SLOTS](i => Spec.EMPTY_SLOT);
      senderPaused, needWait, machines, log, events := false, false, 0, [], 0;
    }

    method Record(ghost e: Spec.Event)
      requires Valid()
      modifies this`log, this`events
      ensures Valid() && log == old(log) + [e]
    {
      log, events := log + [e], events + 1;
    }

    /** handlerSender.pause */
    method Pause()
      modifies this`needWait
      ensures needWait
    {
      needWait := true;
    }

    /** handlerSender.resume */
    method Resume()
      modifies this`needWait
      ensures !needWait
    {
      needWait := false;
    }

    /** handlerSender.Write, or the underlying writer itself when `bypass` is set. */
    method Write(bytes: seq<Byte>, bypass: bool) returns (ok: bool)
      requires Valid()
      modifies this`log, this`events
      ensures Valid() && (Abs(), ok) == Spec.Write(env, old(Abs()), bytes, bypass)
    {
      ok := env.ok(events);
      Record(Spec.Wrote(bytes, needWait && !bypass));
    }

    /** handlerSender.signal: header byte and sub-header, laid out in the read buffer. */
    method Signal(h: Byte, d: seq<Byte>) returns (ok: bool)
      requires Valid() && |d| + 1 <= READ_BUFFER_LENGTH
      modifies this`log, this`events, rBuf
      ensures Valid() && (Abs(), ok) == Spec.Write(env, old(Abs()), [h] + d, false)
    {
      rBuf[0] := h;
      var k := 0;
      while k < |d|
        invariant 0 <= k <= |d| && rBuf[0] == h && rBuf[1..1 + k] == d[..k]
        modifies rBuf
      {
        rBuf[1 + k] := d[k];
        k := k + 1;
      }
      assert rBuf[..|d| + 1] == [h] + d;
      ok := Write(rBuf[..|d| + 1], false);
    }

    method HandleControl(d: SlotId) returns (ok: bool)
      requires Valid()
      modifies this`log, this`events, this`needWait, this`senderPaused, rBuf, receiver
      ensures Did(Spec.Control(env, old(Abs()), d, old(receiver.Pending())), ok)
    {
      if rBuf.Length - 1 < d {
        return false;
      }
      var read := ReadFull(receiver, rBuf, 1, 1 + d);
      if !read || d <= 0 {
        return false;
      }
      assert rBuf[1..1 + d] == old(receiver.Pending())[..d];
      assert rBuf[1] == rBuf[1..1 + d][0];
      if rBuf[1] == CONTROL_ECHO {
        rBuf[0] := HeaderByte(CONTROL, d);
        rBuf[1] := CONTROL_ECHO;
        assert rBuf[..d + 1] == [HeaderByte(CONTROL, d)] + old(receiver.Pending())[..d];
        ok := Write(rBuf[..d + 1], senderPaused);
        return;
      }
      if rBuf[1] == CONTROL_PAUSE {
        if !senderPaused {
          Pause();
          senderPaused := true;
        }
      } else if rBuf[1] == CONTROL_RESUME {
        if senderPaused {
          Resume();
          senderPaused := false;
        }
      }
      ok := true;
    }

    /** A machine takes as much of its reader as it likes, in pieces of any size. */
    method MachineReads(l: LimitedReader)
      requires l.Valid()
      modifies l, l.r
      ensures l.Valid() && l.After() == old(l.After())
    {
      var count: nat := *;
      while count > 0
        invariant l.Valid() && l.After() == old(l.After())
      {
        var want: nat := *;
        var _ := l.Read(want);
        count := count - 1;
      }
    }

    /** Boots a machine on its reader, fills the slot when that succeeds, and answers. */
    method Boot(h: Byte, command: Command, rr: LimitedReader) returns (ok: bool)
      requires Valid() && rr.Valid() && rr.r == receiver
      modifies this`log, this`events, this`machines, slots, rBuf, receiver, rr
      ensures Valid() && rr.Valid() && rr.After() == old(rr.After())
      ensures var o := Spec.Boot(env, old(Abs()), h, command, old(rr.View()), old(rr.After()));
              Abs() == o.st && ok == o.Next?
    {
      var booted, code, machine := env.ok(events), env.code(events), machines;
      Record(Spec.Booted(DataOf(h), machine, command, rr.View(), booted));
      MachineReads(rr);
      machines := machines + 1;
      if booted {
        slots[DataOf(h)] := Spec.Slot(true, machine, false, false);
        ok := Signal(h, InitialHeader(command, 0, true));
      } else {
        var _ := Signal(h, InitialHeader(command, code, false));
        ok := true;
      }
    }

    /** Boots a machine on the next `n` bytes; what it leaves unread of them is ditched at the end. */
    method BootMachine(h: Byte, command: Command, n: nat) returns (ok: bool)
      requires Valid()
      modifies this`log, this`events, this`machines, slots, rBuf, receiver
      ensures var input := old(receiver.Pending());
              Did(Spec.Boot(env, old(Abs()), h, command, Take(input, n), Drop(input, n)), ok)
    {
      var rr := new LimitedReader(receiver, n);
      ok := Boot(h, command, rr);
      ghost var st := Abs();
      var _ := rr.Ditch(rBuf.Length);
      assert Abs() == st;
    }

    /** stream.reinit */
    method Reinit(h: Byte) returns (ok: bool)
      requires Valid()
      modifies this`log, this`events, this`machines, slots, rBuf, receiver
      ensures Did(Spec.Reinit(env, old(Abs()), h, old(receiver.Pending())), ok)
    {
      var hd := new Byte[2];
      var read := ReadFull(receiver, hd, 0, 2);
      if !read {
        return false;
      }
      ghost var input := old(receiver.Pending());
      assert hd[..2] == [hd[0], hd[1]] == input[..2] && input[2..] == receiver.Pending();
      if !env.registered(InitialCommand(hd[0])) {
        var _ := Signal(h, InitialHeader(0, 1, false));
        return true;
      }
      ok := BootMachine(h, InitialCommand(hd[0]), InitialDataOf(hd[0], hd[1]));
    }

    /** FSM.tick on its reader. */
    method TickOn(i: SlotId, marker: Marker, rr: LimitedReader) returns (ok: bool)
      requires Valid() && rr.Valid() && rr.r == receiver
      modifies this`log, this`events, receiver, rr
      ensures Valid() && rr.Valid() && rr.After() == old(rr.After())
      ensures var o := Spec.TickOn(env, old(Abs()), i, marker, old(rr.View()), old(rr.After()));
              Abs() == o.st && ok == o.Next?
    {
      if slots[i].fsmClosed {
        return false;
      }
      ok := env.ok(events);
      Record(Spec.Ticked(i, slots[i].machine, marker, rr.View(), ok));
      MachineReads(rr);
    }

    /** The next `n` bytes for the machine; what it leaves unread is ditched at the end. */
    method TickMachine(i: SlotId, marker: Marker, n: nat) returns (ok: bool)
      requires Valid()
      modifies this`log, this`events, receiver
      ensures Did(Spec.TickMachine(env, old(Abs()), i, marker, n, old(receiver.Pending())), ok)
    {
      var rr := new LimitedReader(receiver, n);
      ok := TickOn(i, marker, rr);
      ghost var st := Abs();
      var _ := rr.Ditch(rBuf.Length);
      assert Abs() == st;
    }

    /** stream.tick */
    method Tick(h: Byte) returns (ok: bool)
      requires Valid()
      modifies this`log, this`events, receiver
      ensures Did(Spec.Tick(env, old(Abs()), h, old(receiver.Pending())), ok)
    {
      var hd := new Byte[2];
      var read := ReadFull(receiver, hd, 0, 2);
      if !read {
        return false;
      }
      ghost var input := old(receiver.Pending());
      assert hd[..2] == [hd[0], hd[1]] == input[..2] && input[2..] == receiver.Pending();
      ok := TickMachine(DataOf(h), StreamMarker(hd[0]), StreamLength(hd[0], hd[1]));
    }

    method HandleStream(h: Byte) returns (ok: bool)
      requires Valid()
      modifies this`log, this`events, this`machines, this`needWait, slots, rBuf, receiver
      ensures Did(Spec.Stream(env, old(Abs()), h, old(receiver.Pending())), ok)
    {
      if slots[DataOf(h)].started {
        ok := Tick(h);
        return;
      }
      if senderPaused {
        Resume();
      }
      ok := Reinit(h);
      if senderPaused {
        Pause();
      }
    }

    /** FSM.close */
    method CloseMachine(i: SlotId) returns (ok: bool)
      requires Valid()
      modifies this`log, this`events, slots
      ensures Valid() && (Abs(), ok) == Spec.CloseMachine(env, old(Abs()), i)
    {
      slots[i] := slots[i].(fsmClosed := true);
      ok := env.ok(events);
      Record(Spec.MachineClosed(slots[i].machine, needWait));
    }

    /** stream.close */
    method CloseStream(i: SlotId) returns (ok: bool)
      requires Valid()
      modifies this`log, this`events, slots
      ensures Valid()
      ensures if slots[i].started && !old(slots[i].closed)
              then (Abs(), ok) == Spec.CloseStream(env, old(Abs()), i)
              else Abs() == old(Abs()) && !ok
    {
      if !slots[i].started || slots[i].closed {
        return false;
      }
      slots[i] := slots[i].(closed := true);
      ok := CloseMachine(i);
    }

    /** stream.release */
    method ReleaseStream(i: SlotId) returns (ok: bool)
      requires Valid()
      modifies this`log, this`events, slots
      ensures Valid()
      ensures if old(slots[i].started)
              then (Abs(), ok) == Spec.ReleaseStream(env, old(Abs()), i)
              else Abs() == old(Abs()) && !ok
    {
      if !slots[i].started {
        return false;
      }
      slots[i] := slots[i].(started := false);
      if !slots[i].fsmClosed {
        var _ := CloseMachine(i);
      }
      ok := env.ok(events);
      Record(Spec.MachineReleased(slots[i].machine, needWait));
    }

    method HandleClose(h: Byte) returns (ok: bool)
      requires Valid()
      modifies this`log, this`events, this`needWait, slots, rBuf
      ensures Did(Spec.Close(env, old(Abs()), h, receiver.Pending()), ok)
    {
      if slots[DataOf(h)].started && slots[DataOf(h)].closed {
        return true;
      }
      if senderPaused {
        Resume();
      }
      ok := CloseStream(DataOf(h));
      if ok {
        assert [HeaderByte(COMPLETED, DataOf(h))] + [] == [HeaderByte(COMPLETED, DataOf(h))];
        ok := Signal(HeaderByte(COMPLETED, DataOf(h)), []);
      }
      if senderPaused {
        Pause();
      }
    }

    method HandleCompleted(h: Byte) returns (ok: bool)
      requires Valid()
      modifies this`log, this`events, this`needWait, slots
      ensures Did(Spec.Completed(env, old(Abs()), h, receiver.Pending()), ok)
    {
      if senderPaused {
        Resume();
      }
      ok := ReleaseStream(DataOf(h));
      if senderPaused {
        Pause();
      }
    }

    /** streams.shutdown */
    method Shutdown()
      requires Valid()
      modifies this`log, this`events, slots
      ensures Valid() && Abs() == Spec.ShutdownFrom(env, old(Abs()), 0)
    {
      var i := 0;
      while i < slots.Length
        invariant Valid() && 0 <= i <= SLOTS
        invariant Spec.ShutdownFrom(env, Abs(), i) == Spec.ShutdownFrom(env, old(Abs()), 0)
      {
        if slots[i].started {
          if !slots[i].closed {
            var _ := CloseStream(i);
          }
          var _ := ReleaseStream(i);
        }
        i := i + 1;
      }
    }

    /** The dispatch loop, and what is deferred to its end. */
    method Handle()
      requires Valid()
      modifies this`log, this`events, this`machines, this`needWait, this`senderPaused, slots, rBuf, receiver
      ensures Valid()
      ensures Abs() == Spec.Finish(env, Spec.Loop(env, old(Abs()), old(receiver.Pending())))
    {
      var ok := true;
      while ok
        invariant Valid()
        invariant (if ok then Spec.Loop(env, Abs(), receiver.Pending()) else Abs())
                  == Spec.Loop(env, old(Abs()), old(receiver.Pending()))
        decreases ok, |receiver.Pending()|
      {
        var d := receiver.FetchOneByte();
        if d.Failed? {
          break;
        }
        var h := d.data[0];
        Record(Spec.Dispatched(h));
        if TypeOf(h) == CONTROL {
          ok := HandleControl(DataOf(h));
        } else if TypeOf(h) == STREAM {
          ok := HandleStream(h);
        } else if TypeOf(h) == CLOSE {
          ok := HandleClose(h);
        } else {
          ok := HandleCompleted(h);
        }
      }
      if senderPaused {
        Resume();
        senderPaused := false;
      }
      Shutdown();
    }
  }
}
