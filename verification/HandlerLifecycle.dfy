/**
 * Whole-run properties of a server connection that hold for every input and every
 * behaviour of the world outside: the life of each machine, and the write gate.
 */
module HandlerLifecycle {
  import opened Bytes
  import opened Protocol
  import opened HandlerSpec

  // ---------- Each machine: boot, ticks, close once, release once ----------

  /** How far a machine got: FSMMachine's lifecycle. `Broken` is any event out of order. */
  datatype Phase = Unborn | Failed | Alive | Shut | Gone | Broken

  function Advance(p: Phase, e: Event, m: nat): Phase {
    match e
    case Booted(_, n, _, _, ok) =>
      if n != m then p else if p != Unborn then Broken else if ok then Alive else Failed
    case Ticked(_, n, _, _, _) => if n != m || p == Alive then p else Broken
    case MachineClosed(n, _) => if n != m then p else if p == Alive then Shut else Broken
    case MachineReleased(n, _) => if n != m then p else if p == Shut then Gone else Broken
    case _ => p
  }

  function PhaseOf(log: seq<Event>, m: nat): Phase {
    if log == [] then Unborn else Advance(PhaseOf(log[..|log| - 1], m), log[|log| - 1], m)
  }

  lemma {:induction false} PhaseAfter(log: seq<Event>, e: Event, m: nat)
    ensures PhaseOf(log + [e], m) == Advance(PhaseOf(log, m), e, m)
  {
    assert (log + [e])[..|log|] == log;
  }

  lemma {:induction false} PhasesAfter(log: seq<Event>, e: Event)
    ensures forall m: nat :: PhaseOf(log + [e], m) == Advance(PhaseOf(log, m), e, m)
  {
    forall m: nat { PhaseAfter(log, e, m); }
  }

  ghost predicate Holds(st: State, m: nat) {
    exists i: SlotId :: i < |st.slots| && st.slots[i].started && st.slots[i].machine == m
  }

  /** Each slot in use owns one machine, alive or shut; every other machine is done with. */
  ghost predicate Tidy(st: State) {
    && |st.slots| == SLOTS
    && (forall i: SlotId :: st.slots[i].started ==>
          var s := st.slots[i];
          s.machine < st.machines && s.closed == s.fsmClosed
          && PhaseOf(st.log, s.machine) == if s.fsmClosed then Shut else Alive)
    && (forall i: SlotId, j: SlotId :: i != j && st.slots[i].started && st.slots[j].started ==>
          st.slots[i].machine != st.slots[j].machine)
    && (forall m: nat :: st.machines <= m ==> PhaseOf(st.log, m) == Unborn)
    && (forall m: nat :: m < st.machines && !Holds(st, m) ==> PhaseOf(st.log, m) in {Failed, Gone})
  }

  lemma {:induction false} EmitOther(st: State, e: Event)
    requires e.Dispatched? || e.Wrote?
    ensures forall m: nat :: PhaseOf(st.Emit(e).log, m) == PhaseOf(st.log, m)
  {
    PhasesAfter(st.log, e);
  }

  lemma {:induction false} TidySame(st: State, after: State)
    requires Tidy(st) && after.slots == st.slots && after.machines == st.machines
    requires forall m: nat :: PhaseOf(after.log, m) == PhaseOf(st.log, m)
    ensures Tidy(after)
  {
    forall m: nat ensures Holds(st, m) == Holds(after, m) {}
  }

  lemma {:induction false} TidyWrite(env: Env, st: State, bytes: seq<Byte>, bypass: bool)
    requires Tidy(st)
    ensures Tidy(Write(env, st, bytes, bypass).0)
  {
    EmitOther(st, Wrote(bytes, st.needWait && !bypass));
    TidySame(st, Write(env, st, bytes, bypass).0);
  }

  lemma {:induction false} SameHolders(st: State, after: State)
    requires |st.slots| == |after.slots| == SLOTS
    requires forall j: SlotId :: after.slots[j].started == st.slots[j].started
                                 && after.slots[j].machine == st.slots[j].machine
    ensures forall m: nat :: Holds(after, m) == Holds(st, m)
  {
    forall m: nat ensures Holds(after, m) == Holds(st, m) {
      if Holds(st, m) {
        var j: SlotId :| j < |st.slots| && st.slots[j].started && st.slots[j].machine == m;
        assert after.slots[j].started && after.slots[j].machine == m;
      }
      if Holds(after, m) {
        var j: SlotId :| j < |after.slots| && after.slots[j].started && after.slots[j].machine == m;
        assert st.slots[j].started && st.slots[j].machine == m;
      }
    }
  }


  /** Booting machine `n` changes the phase of that machine only. */
  lemma {:induction false} BootPhases(log: seq<Event>, e: Event, n: nat)
    requires e.Booted? && e.machine == n && PhaseOf(log, n) == Unborn
    ensures forall m: nat :: PhaseOf(log + [e], m)
                             == if m != n then PhaseOf(log, m) else if e.ok then Alive else Failed
  {
    PhasesAfter(log, e);
  }

  lemma {:induction false} TidyFailed(st: State, after: State)
    requires Tidy(st) && after.slots == st.slots && after.machines == st.machines + 1
    requires forall m: nat :: PhaseOf(after.log, m) == if m == st.machines then Failed else PhaseOf(st.log, m)
    requires forall m: nat :: Holds(after, m) <==> Holds(st, m)
    ensures Tidy(after)
  {
  }

  lemma {:induction false} TidyAlive(st: State, i: SlotId, after: State)
    requires Tidy(st) && !st.slots[i].started && after.machines == st.machines + 1
    requires after.slots == st.slots[i := Slot(true, st.machines, false, false)]
    requires forall m: nat :: PhaseOf(after.log, m) == if m == st.machines then Alive else PhaseOf(st.log, m)
    requires forall m: nat :: Holds(after, m) <==> Holds(st, m) || m == st.machines
    ensures Tidy(after)
  {
  }

  lemma {:induction false} TidyBootFailed(st: State, e: Event)
    requires Tidy(st) && e.Booted? && !e.ok && e.machine == st.machines
    ensures Tidy(st.Emit(e).(machines := st.machines + 1))
  {
    var after := st.Emit(e).(machines := st.machines + 1);
    BootPhases(st.log, e, st.machines);
    SameHolders(st, after);
    TidyFailed(st, after);
  }
  lemma {:induction false} OneHolderMore(st: State, after: State, i: SlotId, machine: nat)
    requires |st.slots| == SLOTS && !st.slots[i].started
    requires after.slots == st.slots[i := Slot(true, machine, false, false)]
    ensures forall m: nat :: Holds(after, m) <==> Holds(st, m) || m == machine
  {
    assert after.slots[i].started && after.slots[i].machine == machine;
    forall m: nat ensures Holds(after, m) <==> Holds(st, m) || m == machine {
      if Holds(st, m) {
        var j: SlotId :| j < |st.slots| && st.slots[j].started && st.slots[j].machine == m;
        assert after.slots[j] == st.slots[j];
      }
    }
  }

  lemma {:induction false} TidyBooted(st: State, i: SlotId, e: Event)
    requires Tidy(st) && !st.slots[i].started && e.Booted? && e.ok && e.machine == st.machines
    ensures Tidy(st.Emit(e).(machines := st.machines + 1).WithSlot(i, Slot(true, st.machines, false, false)))
  {
    var after := st.Emit(e).(machines := st.machines + 1).WithSlot(i, Slot(true, st.machines, false, false));
    BootPhases(st.log, e, st.machines);
    OneHolderMore(st, after, i, st.machines);
    TidyAlive(st, i, after);
  }
 /** A boot is its event, with the slot filled when it succeeds, and then a write. */
  lemma {:induction false} BootThenWrite(env: Env, st: State, h: Byte, command: Command, payload: seq<Byte>,
                                         rest: seq<Byte>) returns (booted: State, answer: seq<Byte>)
    requires |st.slots| == SLOTS
    ensures var ok := env.ok(|st.log|);
            var started := st.Emit(Booted(DataOf(h), st.machines, command, payload, ok)).(machines := st.machines + 1);
            booted == if ok then started.WithSlot(DataOf(h), Slot(true, st.machines, false, false)) else started
    ensures Boot(env, st, h, command, payload, rest).st == Write(env, booted, answer, false).0
  {
    var ok := env.ok(|st.log|);
    booted := st.Emit(Booted(DataOf(h), st.machines, command, payload, ok)).(machines := st.machines + 1);
    if ok {
      booted := booted.WithSlot(DataOf(h), Slot(true, st.machines, false, false));
      answer := [h] + InitialHeader(command, 0, true);
    } else {
      answer := [h] + InitialHeader(command, env.code(|st.log|), false);
    }
  }

  lemma {:induction false} TidyBoot(env: Env, st: State, h: Byte, command: Command, payload: seq<Byte>, rest: seq<Byte>)
    requires Tidy(st) && !st.slots[DataOf(h)].started
    ensures Tidy(Boot(env, st, h, command, payload, rest).st)
  {
    var e := Booted(DataOf(h), st.machines, command, payload, env.ok(|st.log|));
    if e.ok {
      TidyBooted(st, DataOf(h), e);
    } else {
      TidyBootFailed(st, e);
    }
    var booted, answer := BootThenWrite(env, st, h, command, payload, rest);
    TidyWrite(env, booted, answer, false);
  }

  lemma {:induction false} TidyTick(env: Env, st: State, i: SlotId, marker: Marker, n: nat, input: seq<Byte>)
    requires Tidy(st) && st.slots[i].started
    ensures Tidy(TickMachine(env, st, i, marker, n, input).st)
  {
    if !st.slots[i].fsmClosed {
      var e := Ticked(i, st.slots[i].machine, marker, Take(input, n), env.ok(|st.log|));
      PhasesAfter(st.log, e);
      TidySame(st, st.Emit(e));
    }
  }

  lemma {:induction false} TidyShut(st: State, i: SlotId, gateShut: bool, after: State)
    requires Tidy(st) && st.slots[i].started && !st.slots[i].closed && after.machines == st.machines
    requires after.slots == st.slots[i := st.slots[i].(closed := true, fsmClosed := true)]
    requires after.log == st.log + [MachineClosed(st.slots[i].machine, gateShut)]
    ensures Tidy(after)
  {
    PhasesAfter(st.log, MachineClosed(st.slots[i].machine, gateShut));
    SameHolders(st, after);
  }

  lemma {:induction false} TidyClose(env: Env, st: State, i: SlotId)
    requires Tidy(st) && st.slots[i].started && !st.slots[i].closed
    ensures Tidy(CloseStream(env, st, i).0)
  {
    TidyShut(st, i, st.needWait, CloseStream(env, st, i).0);
  }

  lemma {:induction false} TidyFreed(st: State, i: SlotId, gateShut: bool, after: State)
    requires Tidy(st) && st.slots[i].started && st.slots[i].fsmClosed
    requires |after.slots| == SLOTS && after.machines == st.machines && !after.slots[i].started
    requires forall j: SlotId :: j != i ==> after.slots[j] == st.slots[j]
    requires after.log == st.log + [MachineReleased(st.slots[i].machine, gateShut)]
    ensures Tidy(after)
  {
    PhasesAfter(st.log, MachineReleased(st.slots[i].machine, gateShut));
    forall m: nat | m != st.slots[i].machine && Holds(st, m) ensures Holds(after, m) {
      var j: SlotId :| j < |st.slots| && st.slots[j].started && st.slots[j].machine == m;
      assert after.slots[j] == st.slots[j];
    }
  }

  lemma {:induction false} TidyRelease(env: Env, st: State, i: SlotId)
    requires Tidy(st) && st.slots[i].started
    ensures Tidy(ReleaseStream(env, st, i).0)
    ensures !ReleaseStream(env, st, i).0.slots[i].started
    ensures forall j: SlotId :: j != i ==> ReleaseStream(env, st, i).0.slots[j] == st.slots[j]
  {
    var after := ReleaseStream(env, st, i).0;
    if st.slots[i].fsmClosed {
      TidyFreed(st, i, st.needWait, after);
    } else {
      TidyClose(env, st, i);
      TidyFreed(CloseStream(env, st, i).0, i, st.needWait, after);
    }
  }

  lemma {:induction false} TidyGate(st: State, w: bool)
    requires Tidy(st)
    ensures Tidy(st.(needWait := w))
  {
    TidySame(st, st.(needWait := w));
  }

  lemma {:induction false} TidyStream(env: Env, st: State, h: Byte, input: seq<Byte>)
    requires Tidy(st)
    ensures Tidy(Stream(env, st, h, input).st)
  {
    if st.slots[DataOf(h)].started {
      if |input| >= 2 {
        TidyTick(env, st, DataOf(h), StreamMarker(input[0]), StreamLength(input[0], input[1]), input[2..]);
      }
    } else {
      var open := st.Ungated();
      TidyGate(st, false);
      if |input| >= 2 {
        if !env.registered(InitialCommand(input[0])) {
          TidyWrite(env, open, [h] + InitialHeader(0, 1, false), false);
        } else {
          var n := InitialDataOf(input[0], input[1]);
          TidyBoot(env, open, h, InitialCommand(input[0]), Take(input[2..], n), Drop(input[2..], n));
        }
      }
      TidyGate(Reinit(env, open, h, input).st, true);
    }
  }

  lemma {:induction false} TidyControl(env: Env, st: State, d: SlotId, input: seq<Byte>)
    requires Tidy(st)
    ensures Tidy(Control(env, st, d, input).st)
  {
    if 0 < d <= |input| && input[0] == CONTROL_ECHO {
      TidyWrite(env, st, [HeaderByte(CONTROL, d)] + input[..d], st.senderPaused);
    } else {
      TidySame(st, Control(env, st, d, input).st);
    }
  }

  /** The state that a Close leaves, by the state of the slot. */
  lemma {:induction false} CloseEnds(env: Env, st: State, h: Byte, input: seq<Byte>, open: State, closed: State)
    requires |st.slots| == SLOTS && open == st.Ungated() && closed == CloseStream(env, open, DataOf(h)).0
    ensures var slot, after := st.slots[DataOf(h)], Close(env, st, h, input).st;
            && (!slot.started ==> after == open.Regated())
            && (slot.started && slot.closed ==> after == st)
            && (slot.started && !slot.closed ==>
                  || after == closed.Regated()
                  || after == Write(env, closed, [HeaderByte(COMPLETED, DataOf(h))], false).0.Regated())
  {
  }

  lemma {:induction false} TidyCloseRequest(env: Env, st: State, h: Byte, input: seq<Byte>)
    requires Tidy(st)
    ensures Tidy(Close(env, st, h, input).st)
  {
    var i := DataOf(h);
    var open := st.Ungated();
    var closed := CloseStream(env, open, i).0;
    TidyGate(st, false);
    CloseEnds(env, st, h, input, open, closed);
    if !st.slots[i].started {
      TidyGate(open, true);
    } else if !st.slots[i].closed {
      TidyClose(env, open, i);
      TidyAnswer(env, closed, i);
    }
  }

  /** The answer to a Close, and the gate shut again. */
  lemma {:induction false} TidyAnswer(env: Env, closed: State, i: SlotId)
    requires Tidy(closed)
    ensures Tidy(closed.Regated())
    ensures Tidy(Write(env, closed, [HeaderByte(COMPLETED, i)], false).0.Regated())
  {
    TidyGate(closed, true);
    TidyWrite(env, closed, [HeaderByte(COMPLETED, i)], false);
    TidyGate(Write(env, closed, [HeaderByte(COMPLETED, i)], false).0, true);
  }

  lemma {:induction false} TidyCompleted(env: Env, st: State, h: Byte, input: seq<Byte>)
    requires Tidy(st)
    ensures Tidy(Completed(env, st, h, input).st)
  {
    var open := st.Ungated();
    TidyGate(st, false);
    if st.slots[DataOf(h)].started {
      TidyRelease(env, open, DataOf(h));
      TidyGate(ReleaseStream(env, open, DataOf(h)).0, true);
    } else {
      TidyGate(open, true);
    }
  }

  lemma {:induction false} TidyStep(env: Env, st: State, h: Byte, input: seq<Byte>)
    requires Tidy(st)
    ensures Tidy(Step(env, st, h, input).st)
  {
    var seen := st.Emit(Dispatched(h));
    EmitOther(st, Dispatched(h));
    TidySame(st, seen);
    if TypeOf(h) == CONTROL {
      TidyControl(env, seen, DataOf(h), input);
    } else if TypeOf(h) == STREAM {
      TidyStream(env, seen, h, input);
    } else if TypeOf(h) == CLOSE {
      TidyCloseRequest(env, seen, h, input);
    } else {
      TidyCompleted(env, seen, h, input);
    }
  }

  lemma {:induction false} TidyLoop(env: Env, st: State, input: seq<Byte>)
    requires Tidy(st)
    ensures Tidy(Loop(env, st, input))
    decreases |input|
  {
    if input == [] {
    } else {
      TidyStep(env, st, input[0], input[1..]);
      match Step(env, st, input[0], input[1..])
      case Next(next, rest) => TidyLoop(env, next, rest);
      case Halt(_) =>
    }
  }

  lemma {:induction false} TidyShutdown(env: Env, st: State, i: nat)
    requires Tidy(st) && i <= SLOTS
    requires forall j: SlotId :: j < i ==> !st.slots[j].started
    ensures Tidy(ShutdownFrom(env, st, i))
    ensures forall j: SlotId :: !ShutdownFrom(env, st, i).slots[j].started
    decreases SLOTS - i
  {
    if i == SLOTS {
    } else {
      if !st.slots[i].started {
        TidyShutdown(env, st, i + 1);
      } else {
        var closed := st;
        if !st.slots[i].closed {
          TidyClose(env, st, i);
          closed := CloseStream(env, st, i).0;
        }
        TidyRelease(env, closed, i);
        TidyShutdown(env, ReleaseStream(env, closed, i).0, i + 1);
      }
    }
  }

  lemma {:induction false} TidyFinish(env: Env, st: State)
    requires Tidy(st)
    ensures Tidy(Finish(env, st)) && forall j: SlotId :: !Finish(env, st).slots[j].started
  {
    TidySame(st, st.(needWait := false, senderPaused := false));
    TidyShutdown(env, if st.senderPaused then st.(needWait := false, senderPaused := false) else st, 0);
  }

  lemma {:induction false} TidyInitial()
    ensures Tidy(Initial())
  {
    assert forall m: nat :: PhaseOf([], m) == Unborn;
  }

  /**
   * Whatever bytes arrive and however the connection ends, each machine is, in the end, one
   * that never existed, one whose boot failed and that was left alone, or one that was booted,
   * ticked while alive, closed once and then released once.
   */
  lemma {:induction false} EveryMachineEndsOnce(env: Env, input: seq<Byte>)
    ensures forall m: nat :: PhaseOf(Run(env, input).log, m) in {Unborn, Failed, Gone}
  {
    TidyInitial();
    TidyLoop(env, Initial(), input);
    TidyFinish(env, Loop(env, Initial(), input));
    var last := Run(env, input);
    forall m: nat ensures PhaseOf(last.log, m) in {Unborn, Failed, Gone} {
      assert !Holds(last, m);
    }
  }

  /** The calls that PhaseCounts counts. */
  datatype Call = Booting | Closing | Releasing

  predicate Makes(e: Event, call: Call, m: nat) {
    match call
    case Booting => e.Booted? && e.machine == m && e.ok
    case Closing => e.MachineClosed? && e.machine == m
    case Releasing => e.MachineReleased? && e.machine == m
  }

  function Count(log: seq<Event>, call: Call, m: nat): nat {
    if log == [] then 0 else Count(log[..|log| - 1], call, m) + if Makes(log[|log| - 1], call, m) then 1 else 0
  }

  /** What the phases mean, in plain counts of calls. */
  lemma {:induction false} PhaseCounts(log: seq<Event>, m: nat)
    requires PhaseOf(log, m) != Broken
    ensures var p := PhaseOf(log, m);
            && Count(log, Booting, m) == (if p in {Alive, Shut, Gone} then 1 else 0)
            && Count(log, Closing, m) == (if p in {Shut, Gone} then 1 else 0)
            && Count(log, Releasing, m) == (if p == Gone then 1 else 0)
  {
    if log == [] {
    } else {
      PhaseCounts(log[..|log| - 1], m);
    }
  }
}
