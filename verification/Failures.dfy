/**
 * What fails ends the connection: a call that fails is the last thing either dispatch loop does, but
 * for the failures that the code passes over.
 */
module Failures {
  import opened Bytes
  import opened Protocol
  import C = ClientSpec
  import H = HandlerSpec
  import L = ClientLifecycle

  // ---------- The server ----------

  /** An answer to an opening frame that says no; whether it goes out is not looked at. */
  predicate Refusal(bytes: seq<Byte>) {
    |bytes| == 3 && 64 <= bytes[0] < 128 && bytes[1] / 8 % 2 == 0
  }

  /**
   * The k-th call failed, and it is not one whose failure is passed over: a boot, a refusal, or the
   * close that comes before the release of the same machine.
   */
  predicate Fatal(env: H.Env, log: seq<H.Event>, k: nat)
    requires k < |log|
  {
    !env.ok(k) &&
    match log[k]
    case Dispatched(_) => false
    case Wrote(bytes, _) => !Refusal(bytes)
    case Booted(_, _, _, _, _) => false
    case Ticked(_, _, _, _, _) => true
    case MachineClosed(m, _) => !(k + 1 < |log| && log[k + 1].MachineReleased? && log[k + 1].machine == m)
    case MachineReleased(_, _) => true
  }

  /** What a request adds to the log holds a fatal failure at its end only, and then ends the loop. */
  ghost predicate Ends(env: H.Env, before: seq<H.Event>, o: Outcome<H.State>) {
    before <= o.st.log
    && forall k :: |before| <= k < |o.st.log| && Fatal(env, o.st.log, k) ==> o.Halt? && k == |o.st.log| - 1
  }

  lemma {:induction false} RegatedEnds(env: H.Env, before: seq<H.Event>, o: Outcome<H.State>)
    requires Ends(env, before, o)
    ensures Ends(env, before, H.Regated(o))
  {
    assert H.Regated(o).st.log == o.st.log;
  }

  /** A request that adds at most one event, or two of which only the second may be fatal. */
  lemma {:induction false} Adding(env: H.Env, before: seq<H.Event>, o: Outcome<H.State>, events: seq<H.Event>)
    requires |events| <= 2 && o.st.log == before + events
    requires |events| == 2 ==> !Fatal(env, o.st.log, |before|)
    requires events != [] && Fatal(env, o.st.log, |o.st.log| - 1) ==> o.Halt?
    ensures Ends(env, before, o)
  {
  }

  lemma {:induction false} ControlEnds(env: H.Env, st: H.State, d: SlotId, input: seq<Byte>)
    requires |st.slots| == SLOTS
    ensures Ends(env, st.log, H.Control(env, st, d, input))
  {
    var o := H.Control(env, st, d, input);
    var events := o.st.log[|st.log|..];
    assert |events| <= 1 && o.st.log == st.log + events;
    Adding(env, st.log, o, events);
  }

  lemma {:induction false} HeaderSaysNo(h: Byte, hd: seq<Byte>)
    requires TypeOf(h) == STREAM && |hd| == 2 && !InitialSuccess(hd[0])
    ensures Refusal([h] + hd)
  {
  }

  lemma {:induction false} RefusalSaysNo(h: Byte, command: Command, code: InitialData)
    requires TypeOf(h) == STREAM
    ensures Refusal([h] + InitialHeader(command, code, false))
  {
    InitialHeaderRoundTrip(command, code, false);
    HeaderSaysNo(h, InitialHeader(command, code, false));
  }

  lemma {:induction false} BootEnds(env: H.Env, st: H.State, h: Byte, command: Command, payload: seq<Byte>,
                                    rest: seq<Byte>)
    requires |st.slots| == SLOTS && TypeOf(h) == STREAM
    ensures Ends(env, st.log, H.Boot(env, st, h, command, payload, rest))
  {
    var o, ok := H.Boot(env, st, h, command, payload, rest), env.ok(|st.log|);
    var booted := H.Booted(DataOf(h), st.machines, command, payload, ok);
    var code := if ok then 0 else env.code(|st.log|);
    var wrote := H.Wrote([h] + InitialHeader(command, code, ok), st.needWait);
    if !ok { RefusalSaysNo(h, command, code); }
    assert o.st.log == st.log + [booted] + [wrote] == st.log + [booted, wrote];
    Adding(env, st.log, o, [booted, wrote]);
  }

  lemma {:induction false} ReinitEnds(env: H.Env, st: H.State, h: Byte, input: seq<Byte>)
    requires |st.slots| == SLOTS && TypeOf(h) == STREAM
    ensures Ends(env, st.log, H.Reinit(env, st, h, input))
  {
    var o := H.Reinit(env, st, h, input);
    if |input| < 2 {
      assert o.st.log == st.log + [];
      Adding(env, st.log, o, []);
    } else if !env.registered(InitialCommand(input[0])) {
      RefusalSaysNo(h, 0, 1);
      Adding(env, st.log, o, [H.Wrote([h] + InitialHeader(0, 1, false), st.needWait)]);
    } else {
      var n := InitialDataOf(input[0], input[1]);
      BootEnds(env, st, h, InitialCommand(input[0]), Take(input[2..], n), Drop(input[2..], n));
    }
  }

  lemma {:induction false} TickEnds(env: H.Env, st: H.State, h: Byte, input: seq<Byte>)
    requires |st.slots| == SLOTS
    ensures Ends(env, st.log, H.Tick(env, st, h, input))
  {
    var o := H.Tick(env, st, h, input);
    var events := o.st.log[|st.log|..];
    assert |events| <= 1 && o.st.log == st.log + events;
    Adding(env, st.log, o, events);
  }

  lemma {:induction false} CloseEnds(env: H.Env, st: H.State, h: Byte, input: seq<Byte>)
    requires |st.slots| == SLOTS
    ensures Ends(env, st.log, H.Close(env, st, h, input))
  {
    var i, o := DataOf(h), H.Close(env, st, h, input);
    var gate := st.Ungated().needWait;
    if !st.slots[i].started || st.slots[i].closed {
      assert o.st.log == st.log + [];
      Adding(env, st.log, o, []);
    } else {
      var closed := H.MachineClosed(st.slots[i].machine, gate);
      if !env.ok(|st.log|) {
        Adding(env, st.log, o, [closed]);
      } else {
        var wrote := H.Wrote([HeaderByte(COMPLETED, i)], gate);
        assert o.st.log == st.log + [closed] + [wrote] == st.log + [closed, wrote];
        Adding(env, st.log, o, [closed, wrote]);
      }
    }
  }

  lemma {:induction false} CompletedEnds(env: H.Env, st: H.State, h: Byte, input: seq<Byte>)
    requires |st.slots| == SLOTS
    ensures Ends(env, st.log, H.Completed(env, st, h, input))
  {
    var i, o := DataOf(h), H.Completed(env, st, h, input);
    var slot, gate := st.slots[i], st.Ungated().needWait;
    var closed, released := H.MachineClosed(slot.machine, gate), H.MachineReleased(slot.machine, gate);
    if !slot.started {
      assert o.st.log == st.log + [];
      Adding(env, st.log, o, []);
    } else if slot.fsmClosed {
      Adding(env, st.log, o, [released]);
    } else {
      assert o.st.log == st.log + [closed] + [released] == st.log + [closed, released];
      Adding(env, st.log, o, [closed, released]);
    }
  }

  lemma {:induction false} StepEnds(env: H.Env, st: H.State, h: Byte, input: seq<Byte>)
    requires |st.slots| == SLOTS
    ensures Ends(env, st.Emit(H.Dispatched(h)).log, H.Step(env, st, h, input))
  {
    var seen := st.Emit(H.Dispatched(h));
    if TypeOf(h) == CONTROL {
      ControlEnds(env, seen, DataOf(h), input);
    } else if TypeOf(h) == STREAM {
      if st.slots[DataOf(h)].started {
        TickEnds(env, seen, h, input);
      } else {
        ReinitEnds(env, seen.Ungated(), h, input);
        RegatedEnds(env, seen.log, H.Reinit(env, seen.Ungated(), h, input));
      }
    } else if TypeOf(h) == CLOSE {
      CloseEnds(env, seen, h, input);
    } else {
      CompletedEnds(env, seen, h, input);
    }
  }

  ghost predicate NoneFatal(env: H.Env, log: seq<H.Event>) {
    forall k :: 0 <= k < |log| ==> !Fatal(env, log, k)
  }

  ghost predicate OnlyLastFatal(env: H.Env, log: seq<H.Event>) {
    forall k :: 0 <= k < |log| && Fatal(env, log, k) ==> k == |log| - 1
  }

  /** What was not fatal is not made so by what comes later. */
  lemma {:induction false} StillFine(env: H.Env, before: seq<H.Event>, log: seq<H.Event>, k: nat)
    requires before <= log && k < |before| && !Fatal(env, before, k)
    ensures !Fatal(env, log, k)
  {
    assert log[k] == before[k] && (k + 1 < |before| ==> log[k + 1] == before[k + 1]);
  }

  lemma {:induction false} StaysFine(env: H.Env, before: seq<H.Event>, h: Byte, o: Outcome<H.State>)
    requires NoneFatal(env, before) && Ends(env, before + [H.Dispatched(h)], o)
    ensures OnlyLastFatal(env, o.st.log) && (o.Next? ==> NoneFatal(env, o.st.log))
  {
    var seen := before + [H.Dispatched(h)];
    forall k | 0 <= k < |seen| ensures !Fatal(env, o.st.log, k) {
      if k < |before| {
        StillFine(env, before, o.st.log, k);
      } else {
        assert o.st.log[k] == seen[k];
      }
    }
  }

  lemma {:induction false} LoopEnds(env: H.Env, st: H.State, input: seq<Byte>)
    requires |st.slots| == SLOTS && NoneFatal(env, st.log)
    ensures OnlyLastFatal(env, H.Loop(env, st, input).log)
    decreases |input|
  {
    if input == [] {
    } else {
      var o := H.Step(env, st, input[0], input[1..]);
      StepEnds(env, st, input[0], input[1..]);
      StaysFine(env, st.log, input[0], o);
      if o.Next? {
        LoopEnds(env, o.st, o.rest);
      }
    }
  }

  /**
   * Whatever the server reads: a failed tick, release or write, and a failed close on request, is the
   * last thing its loop does. Only a boot that fails, an answer that says no, and the close in front of
   * a release may fail without that.
   */
  lemma {:induction false} ServerFailureIsLast(env: H.Env, input: seq<Byte>, k: nat)
    requires k < |H.Loop(env, H.Initial(), input).log| && Fatal(env, H.Loop(env, H.Initial(), input).log, k)
    ensures k == |H.Loop(env, H.Initial(), input).log| - 1
  {
    LoopEnds(env, H.Initial(), input);
  }

  // ---------- The client ----------

  /** The command threw. */
  predicate Threw(e: C.Event) {
    (e.Initialized? && !e.ok) || (e.Ticked? && !e.ok)
  }

  ghost predicate NoneThrew(log: seq<C.Event>) {
    forall k :: 0 <= k < |log| ==> !Threw(log[k])
  }

  lemma {:induction false} AskThrowsNothing(st: C.State, rs: seq<C.Request>)
    requires |st.slots| == SLOTS && NoneThrew(st.log)
    ensures NoneThrew(C.AskAll(st, rs).log)
    decreases |rs|
  {
    if rs == [] {
    } else {
      AskThrowsNothing(C.Ask(st, rs[0]), rs[1..]);
    }
  }

  ghost predicate OnlyLastThrew(log: seq<C.Event>) {
    forall k :: 0 <= k < |log| && Threw(log[k]) ==> k == |log| - 1
  }

  lemma {:induction false} StreamThrowsLast(env: C.Env, st: C.State, i: SlotId, input: seq<Byte>)
    requires |st.slots| == SLOTS && NoneThrew(st.log)
    ensures var o := C.Stream(env, st, i, input);
            OnlyLastThrew(o.st.log) && (o.Next? ==> NoneThrew(o.st.log))
  {
  }

  lemma {:induction false} StepThrowsLast(env: C.Env, st: C.State, h: Byte, input: seq<Byte>)
    requires |st.slots| == SLOTS && NoneThrew(st.log)
    ensures var o := C.Step(env, st, h, input);
            OnlyLastThrew(o.st.log) && (o.Next? ==> NoneThrew(o.st.log))
  {
    if TypeOf(h) == STREAM {
      StreamThrowsLast(env, st, DataOf(h), input);
    }
  }

  lemma {:induction false} PrepareThrowsNothing(env: C.Env, st: C.State, n: nat)
    requires |st.slots| == SLOTS && NoneThrew(st.log)
    ensures NoneThrew(C.Prepare(env, st, n).log)
  {
    AskThrowsNothing(C.Echo(env, st, n), env.requests(n));
  }

  /** Whatever the client reads and its user does: a command that throws is the last thing its loop does. */
  lemma {:induction false} ClientFailureIsLast(env: C.Env, st: C.State, n: nat, input: seq<Byte>)
    requires |st.slots| == SLOTS && NoneThrew(st.log)
    ensures OnlyLastThrew(C.Loop(env, st, n, input).log)
    decreases |input|
  {
    var ready := C.Prepare(env, st, n);
    PrepareThrowsNothing(env, st, n);
    if input == [] {
    } else {
      var o := C.Step(env, ready, input[0], input[1..]);
      StepThrowsLast(env, ready, input[0], input[1..]);
      L.LoopSteps(env, st, n, input, o);
      if o.Next? {
        ClientFailureIsLast(env, o.st, n + 1, o.rest);
      }
    }
  }
}
