/** An echo there and back: sendEcho of ui/stream/streams.js against handleControl of both ends. */
module EchoTrip {
  import opened Bytes
  import opened Protocol
  import C = ClientSpec
  import G = HandlerGate
  import H = HandlerSpec
  import L = ClientLifecycle

  /**
   * Paused or not, the server answers an echo with bytes that the client takes for the answer to
   * the echo it sent; unless the transport failed, nothing else happens on either end.
   */
  lemma {:induction false} EchoComesBack(env: H.Env, server: H.State, cenv: C.Env, client: C.State, data: seq<Byte>)
    requires G.Flowing(server) && |client.slots| == SLOTS
    requires |data| + 1 <= HEADER_MAX_DATA && client.lastEcho == Some(data) && env.ok(|server.log| + 1)
    ensures var h, message := HeaderByte(CONTROL, |data| + 1), [CONTROL_ECHO] + data;
            H.Step(env, server, h, message)
            == Next(server.(log := server.log + [H.Dispatched(h), H.Wrote([h] + message, false)]), [])
    ensures var h, message := HeaderByte(CONTROL, |data| + 1), [CONTROL_ECHO] + data;
            C.Step(cenv, client, h, message)
            == Next(client.(lastEcho := None, log := client.log + [C.EchoMatched]), [])
  {
    var message := [CONTROL_ECHO] + data;
    assert message + [] == message && message[1..|message|] == data && message[|message|..] == [];
    G.EchoIsVerbatim(env, server, message, []);
  }

  /** An echo nobody answered has failed when the send of the next one is resolved. */
  lemma {:induction false} UnansweredEchoFails(env: C.Env, st: C.State, k: nat, data: seq<Byte>)
    requires |st.slots| == SLOTS && env.echo(k) == Some(data)
    ensures C.Echo(env, st, k) == st.(lastEcho := Some(data),
                                      log := st.log + (if st.lastEcho == None then [] else [C.EchoFailed])
                                             + [C.EchoAwaited(data)])
  {
    assert st.log + [] == st.log;
  }

  /**
   * A control message of the server that starts with 0 is an answer. With as many bytes as the echo
   * awaited it ends the wait, well if they are the same and failed if they are not; any other changes
   * nothing.
   */
  lemma {:induction false} AnswerDecides(env: C.Env, st: C.State, answer: seq<Byte>, rest: seq<Byte>)
    requires |st.slots| == SLOTS && |answer| < 63
    ensures C.Step(env, st, |answer| + 1, [0] + answer + rest)
            == Next(if st.lastEcho == None || |st.lastEcho.value| != |answer| then st
                    else st.(lastEcho := None,
                             log := st.log + [if st.lastEcho.value == answer then C.EchoMatched else C.EchoFailed]),
                    rest)
  {
    var input := [0] + answer + rest;
    assert input[1..|answer| + 1] == answer && input[|answer| + 1..] == rest;
  }

  /** A control message that is no answer to an echo ends the client's loop. */
  lemma {:induction false} OtherControlEnds(env: C.Env, st: C.State, message: seq<Byte>, rest: seq<Byte>)
    requires |st.slots| == SLOTS && 1 <= |message| < 64 && message[0] != 0
    ensures C.Step(env, st, |message|, message + rest) == Halt(st)
  {
    assert (message + rest)[0] == message[0];
  }

  // ---------- All runs ----------

  /** No echo is awaited, or this one; `Astray`: an outcome without an echo, or an echo without an outcome. */
  datatype Wait = Nothing | For(data: seq<Byte>) | Astray

  function After(w: Wait, e: C.Event): Wait {
    match e
    case EchoAwaited(data) => if w.Nothing? then For(data) else Astray
    case EchoMatched => if w.For? then Nothing else Astray
    case EchoFailed => if w.For? then Nothing else Astray
    case _ => w
  }

  function WaitIn(log: seq<C.Event>): Wait {
    if log == [] then Nothing else After(WaitIn(log[..|log| - 1]), log[|log| - 1])
  }

  /** The log tells what is awaited. */
  ghost predicate Waits(st: C.State) {
    |st.slots| == SLOTS && WaitIn(st.log) == match st.lastEcho { case None => Nothing case Some(data) => For(data) }
  }

  lemma {:induction false} WaitSnoc(log: seq<C.Event>, e: C.Event)
    ensures WaitIn(log + [e]) == After(WaitIn(log), e)
  {
    assert (log + [e])[..|log|] == log;
  }

  /** An event that is none of an echo. */
  lemma {:induction false} OtherWaits(st: C.State, after: C.State, e: C.Event)
    requires Waits(st) && |after.slots| == SLOTS && after.lastEcho == st.lastEcho && after.log == st.log + [e]
    requires forall w :: After(w, e) == w
    ensures Waits(after)
  {
    WaitSnoc(st.log, e);
  }

  lemma {:induction false} AskWaits(st: C.State, rs: seq<C.Request>)
    requires Waits(st)
    ensures Waits(C.AskAll(st, rs))
    decreases |rs|
  {
    if rs == [] {
    } else {
      var i := C.FirstIdle(st.slots, 0);
      if i < SLOTS {
        OtherWaits(st, C.Ask(st, rs[0]), if rs[0].Sends() then C.Requested(i, rs[0]) else C.Unsent(i, rs[0]));
      }
      AskWaits(C.Ask(st, rs[0]), rs[1..]);
    }
  }

  lemma {:induction false} AwaitedIn(log: seq<C.Event>, data: seq<Byte>)
    requires WaitIn(log) == Nothing
    ensures WaitIn(log + [C.EchoAwaited(data)]) == For(data)
  {
    WaitSnoc(log, C.EchoAwaited(data));
  }

  lemma {:induction false} FailedIn(log: seq<C.Event>)
    requires WaitIn(log).For?
    ensures WaitIn(log + [C.EchoFailed]) == Nothing
  {
    WaitSnoc(log, C.EchoFailed);
  }

  lemma {:induction false} ResolvedWaits(st: C.State, data: seq<Byte>)
    requires Waits(st)
    ensures Waits(C.EchoResolved(st, data))
  {
    if st.lastEcho.None? {
      AwaitedIn(st.log, data);
    } else {
      FailedIn(st.log);
      AwaitedIn(st.log + [C.EchoFailed], data);
    }
  }

  lemma {:induction false} EchoWaits(env: C.Env, st: C.State, k: nat)
    requires Waits(st)
    ensures Waits(C.Echo(env, st, k))
  {
    if env.echo(k).Some? {
      ResolvedWaits(st, env.echo(k).value);
    }
  }

  lemma {:induction false} PrepareWaits(env: C.Env, st: C.State, k: nat)
    requires Waits(st)
    ensures Waits(C.Prepare(env, st, k))
  {
    EchoWaits(env, st, k);
    AskWaits(C.Echo(env, st, k), env.requests(k));
  }

  lemma {:induction false} ControlWaits(st: C.State, d: SlotId, input: seq<Byte>)
    requires Waits(st)
    ensures Waits(C.Control(st, d, input).st)
  {
    WaitSnoc(st.log, C.EchoMatched);
    WaitSnoc(st.log, C.EchoFailed);
  }

  lemma {:induction false} CloseWaits(st: C.State, i: SlotId)
    requires Waits(st)
    ensures Waits(C.CloseStream(st, i)) && Waits(C.CloseStream(st, i).Emit(C.Acknowledged(i)))
  {
    OtherWaits(st, C.CloseStream(st, i), C.Closed(i));
    OtherWaits(C.CloseStream(st, i), C.CloseStream(st, i).Emit(C.Acknowledged(i)), C.Acknowledged(i));
  }

  lemma {:induction false} StreamWaits(env: C.Env, st: C.State, i: SlotId, input: seq<Byte>)
    requires Waits(st)
    ensures Waits(C.Stream(env, st, i, input).st)
  {
    var after := C.Stream(env, st, i, input).st;
    if after != st {
      OtherWaits(st, after, after.log[|st.log|]);
    }
  }

  lemma {:induction false} StepWaits(env: C.Env, st: C.State, h: Byte, input: seq<Byte>)
    requires Waits(st)
    ensures Waits(C.Step(env, st, h, input).st)
  {
    if TypeOf(h) == CONTROL {
      ControlWaits(st, DataOf(h), input);
    } else if TypeOf(h) == STREAM {
      StreamWaits(env, st, DataOf(h), input);
    } else if TypeOf(h) == CLOSE {
      CloseWaits(st, DataOf(h));
    } else {
      OtherWaits(st, C.EndStream(st, DataOf(h)), C.Ended(DataOf(h)));
    }
  }

  lemma {:induction false} LoopWaits(env: C.Env, st: C.State, k: nat, input: seq<Byte>)
    requires Waits(st)
    ensures Waits(C.Loop(env, st, k, input))
    decreases |input|
  {
    var ready := C.Prepare(env, st, k);
    PrepareWaits(env, st, k);
    if input == [] {
    } else {
      var o := C.Step(env, ready, input[0], input[1..]);
      StepWaits(env, ready, input[0], input[1..]);
      L.LoopSteps(env, st, k, input, o);
      if o.Next? {
        LoopWaits(env, o.st, k + 1, o.rest);
      }
    }
  }

  lemma {:induction false} ClearWaits(st: C.State, i: nat)
    requires Waits(st) && i <= SLOTS
    ensures Waits(C.ClearFrom(st, i))
    decreases SLOTS - i
  {
    if i == SLOTS {
    } else if !st.slots[i].running {
      ClearWaits(st, i + 1);
    } else {
      CloseWaits(st, i);
      var closed := if st.slots[i].shuttingDown then st else C.CloseStream(st, i);
      OtherWaits(closed, C.EndStream(closed, i), C.Ended(i));
      ClearWaits(C.EndStream(closed, i), i + 1);
    }
  }

  lemma {:induction false} AstrayForGood(log: seq<C.Event>, n: nat)
    requires n <= |log| && WaitIn(log[..n]) == Astray
    ensures WaitIn(log) == Astray
  {
    if n == |log| {
      assert log[..n] == log;
    } else {
      assert log[..|log| - 1][..n] == log[..n];
      AstrayForGood(log[..|log| - 1], n);
    }
  }

  /**
   * On every connection echoes and outcomes alternate: none is awaited before the last one matched or
   * failed, and nothing matches or fails without one. At its end the client awaits what the log says.
   */
  lemma {:induction false} EveryEchoHasOneOutcome(env: C.Env, input: seq<Byte>, n: nat)
    requires n <= |C.Run(env, input).log|
    ensures WaitIn(C.Run(env, input).log[..n]) != Astray
    ensures Waits(C.Run(env, input))
  {
    LoopWaits(env, C.Initial(), 0, input);
    ClearWaits(C.Loop(env, C.Initial(), 0, input), 0);
    if WaitIn(C.Run(env, input).log[..n]) == Astray {
      AstrayForGood(C.Run(env, input).log, n);
    }
  }
}
