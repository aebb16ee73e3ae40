/**
 * Pausing never blocks the goroutine that alone can lift the pause: no ordinary write and no
 * machine call that waits for one is made by the handler while writes are suspended.
 */
module HandlerGate {
  import opened Bytes
  import opened Protocol
  import opened HandlerSpec

  /**
   * The event would wait for a resume. Closing or releasing a machine counts: its remote side
   * must get its Close header out before the call returns.
   */
  predicate Stuck(e: Event) {
    (e.Wrote? && e.waits) || (e.MachineClosed? && e.gateShut) || (e.MachineReleased? && e.gateShut)
  }

  /** What holds at every loop head. */
  ghost predicate Flowing(st: State) {
    |st.slots| == SLOTS && st.needWait == st.senderPaused && forall e <- st.log :: !Stuck(e)
  }

  /** What holds while a request is served with the pause lifted. */
  ghost predicate Lifted(st: State) {
    |st.slots| == SLOTS && !st.needWait && forall e <- st.log :: !Stuck(e)
  }

  lemma {:induction false} BootFlows(env: Env, st: State, h: Byte, command: Command, payload: seq<Byte>,
                                     rest: seq<Byte>)
    requires Lifted(st)
    ensures var o := Boot(env, st, h, command, payload, rest).st;
            Lifted(o) && o.senderPaused == st.senderPaused
  {
  }

  lemma {:induction false} ReinitFlows(env: Env, st: State, h: Byte, input: seq<Byte>)
    requires Lifted(st)
    ensures var o := Reinit(env, st, h, input).st;
            Lifted(o) && o.senderPaused == st.senderPaused
  {
    if |input| >= 2 {
      var n := InitialDataOf(input[0], input[1]);
      BootFlows(env, st, h, InitialCommand(input[0]), Take(input[2..], n), Drop(input[2..], n));
    }
  }

  lemma {:induction false} ReleaseFlows(env: Env, st: State, i: SlotId)
    requires Lifted(st)
    ensures var o := ReleaseStream(env, st, i).0;
            Lifted(o) && o.senderPaused == st.senderPaused
  {
  }

  lemma {:induction false} CloseFlows(env: Env, st: State, i: SlotId)
    requires Lifted(st)
    ensures var o := CloseStream(env, st, i).0;
            Lifted(o) && o.senderPaused == st.senderPaused
  {
  }

  lemma {:induction false} CloseRequestFlows(env: Env, st: State, h: Byte, input: seq<Byte>)
    requires Flowing(st)
    ensures Flowing(Close(env, st, h, input).st)
  {
    CloseFlows(env, st.Ungated(), DataOf(h));
  }

  lemma {:induction false} CompletedFlows(env: Env, st: State, h: Byte, input: seq<Byte>)
    requires Flowing(st)
    ensures Flowing(Completed(env, st, h, input).st)
  {
    ReleaseFlows(env, st.Ungated(), DataOf(h));
  }

  lemma {:induction false} StreamFlows(env: Env, st: State, h: Byte, input: seq<Byte>)
    requires Flowing(st)
    ensures Flowing(Stream(env, st, h, input).st)
  {
    ReinitFlows(env, st.Ungated(), h, input);
  }

  lemma {:induction false} ControlFlows(env: Env, st: State, d: SlotId, input: seq<Byte>)
    requires Flowing(st)
    ensures Flowing(Control(env, st, d, input).st)
  {
  }

  lemma {:induction false} StepFlows(env: Env, st: State, h: Byte, input: seq<Byte>)
    requires Flowing(st)
    ensures Flowing(Step(env, st, h, input).st)
  {
    var seen := st.Emit(Dispatched(h));
    if TypeOf(h) == CONTROL {
      ControlFlows(env, seen, DataOf(h), input);
    } else if TypeOf(h) == STREAM {
      StreamFlows(env, seen, h, input);
    } else if TypeOf(h) == CLOSE {
      CloseRequestFlows(env, seen, h, input);
    } else {
      CompletedFlows(env, seen, h, input);
    }
  }

  lemma {:induction false} LoopFlows(env: Env, st: State, input: seq<Byte>)
    requires Flowing(st)
    ensures Flowing(Loop(env, st, input))
    decreases |input|
  {
    if input == [] {
    } else {
      StepFlows(env, st, input[0], input[1..]);
      match Step(env, st, input[0], input[1..])
      case Next(next, rest) => LoopFlows(env, next, rest);
      case Halt(_) =>
    }
  }

  lemma {:induction false} ShutdownFlows(env: Env, st: State, i: nat)
    requires Lifted(st) && i <= SLOTS
    ensures Lifted(ShutdownFrom(env, st, i))
    ensures ShutdownFrom(env, st, i).senderPaused == st.senderPaused
    decreases SLOTS - i
  {
    if i == SLOTS {
    } else {
      if st.slots[i].started {
        CloseFlows(env, st, i);
        var closed := if st.slots[i].closed then st else CloseStream(env, st, i).0;
        ReleaseFlows(env, closed, i);
        ShutdownFlows(env, ReleaseStream(env, closed, i).0, i + 1);
      } else {
        ShutdownFlows(env, st, i + 1);
      }
    }
  }

  /**
   * For every input, at every loop head the gate is shut exactly while the client counts as paused;
   * nothing the handler goroutine does ever waits on it; and the connection ends unpaused, with
   * every machine of the shutdown closed through an open gate.
   */
  lemma {:induction false} NeverWaitsForItself(env: Env, input: seq<Byte>)
    ensures Flowing(Loop(env, Initial(), input))
    ensures !Run(env, input).senderPaused && !Run(env, input).needWait
    ensures forall e <- Run(env, input).log :: !Stuck(e)
  {
    LoopFlows(env, Initial(), input);
    var looped := Loop(env, Initial(), input);
    ShutdownFlows(env, if looped.senderPaused then looped.(needWait := false, senderPaused := false) else looped, 0);
  }

  /** An echo is answered with its own bytes, paused or not, and changes nothing else. */
  lemma {:induction false} EchoIsVerbatim(env: Env, st: State, message: seq<Byte>, rest: seq<Byte>)
    requires Flowing(st) && 1 <= |message| <= HEADER_MAX_DATA && message[0] == CONTROL_ECHO
    ensures var h := HeaderByte(CONTROL, |message|);
            var after := st.(log := st.log + [Dispatched(h), Wrote([h] + message, false)]);
            Step(env, st, h, message + rest)
            == if env.ok(|st.log| + 1) then Next(after, rest) else Halt(after)
  {
    var h := HeaderByte(CONTROL, |message|);
    assert (message + rest)[..|message|] == message && (message + rest)[|message|..] == rest;
    assert st.log + [Dispatched(h)] + [Wrote([h] + message, false)]
           == st.log + [Dispatched(h), Wrote([h] + message, false)];
  }
}
