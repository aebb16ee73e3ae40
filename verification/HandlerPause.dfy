/**
 * The pause that the client asks for with control messages, as a function of what it sent, and the
 * writes that wait for its end.
 */
module HandlerPause {
  import opened Bytes
  import opened Frames
  import opened HandlerFrames
  import opened HandlerGate
  import opened HandlerSpec
  import opened Protocol

  /** A control message of type `t`. */
  predicate Says(f: Frame, t: Byte) {
    f.ControlFrame? && f.message != [] && f.message[0] == t
  }

  /** The pause in force: 1 begins it, 2 ends it, and nothing else matters. */
  predicate PauseAfter(fs: seq<Frame>) {
    fs != [] &&
    var last, before := fs[|fs| - 1], fs[..|fs| - 1];
    Says(last, 1) || (!Says(last, 2) && PauseAfter(before))
  }

  /** The same, where `paused` says whether it was in force before. */
  predicate PauseFrom(paused: bool, fs: seq<Frame>)
    decreases |fs|
  {
    if fs == [] then paused else PauseFrom(Says(fs[0], 1) || (!Says(fs[0], 2) && paused), fs[1..])
  }

  lemma {:induction false} PauseSnoc(paused: bool, fs: seq<Frame>, f: Frame)
    ensures PauseFrom(paused, fs + [f]) <==> Says(f, 1) || (!Says(f, 2) && PauseFrom(paused, fs))
    decreases |fs|
  {
    if fs == [] {
      assert fs + [f] == [f] && [f][1..] == [];
    } else {
      assert (fs + [f])[0] == fs[0] && (fs + [f])[1..] == fs[1..] + [f];
      PauseSnoc(Says(fs[0], 1) || (!Says(fs[0], 2) && paused), fs[1..], f);
    }
  }

  lemma {:induction false} PauseEitherWay(fs: seq<Frame>)
    ensures PauseFrom(false, fs) <==> PauseAfter(fs)
  {
    if fs == [] {
    } else {
      var n := |fs| - 1;
      assert fs == fs[..n] + [fs[n]];
      PauseSnoc(false, fs[..n], fs[n]);
      PauseEitherWay(fs[..n]);
    }
  }

  // ---------- One iteration, on any input ----------

  lemma {:induction false} ControlPauses(env: Env, st: State, d: SlotId, input: seq<Byte>)
    requires |st.slots| == SLOTS && Control(env, st, d, input).Next?
    ensures 1 <= d <= |input|
    ensures Control(env, st, d, input).st.senderPaused
            == (input[0] == 1 || (input[0] != 2 && st.senderPaused))
  {
  }

  lemma {:induction false} BootKeepsPause(env: Env, st: State, h: Byte, command: Command, payload: seq<Byte>,
                                          rest: seq<Byte>)
    requires |st.slots| == SLOTS
    ensures Boot(env, st, h, command, payload, rest).st.senderPaused == st.senderPaused
  {
  }

  lemma {:induction false} StreamKeepsPause(env: Env, st: State, h: Byte, input: seq<Byte>)
    requires |st.slots| == SLOTS
    ensures Stream(env, st, h, input).st.senderPaused == st.senderPaused
  {
    if !st.slots[DataOf(h)].started && |input| >= 2 {
      var n := InitialDataOf(input[0], input[1]);
      BootKeepsPause(env, st.Ungated(), h, InitialCommand(input[0]), Take(input[2..], n), Drop(input[2..], n));
    }
  }

  lemma {:induction false} CloseKeepsPause(env: Env, st: State, h: Byte, input: seq<Byte>)
    requires |st.slots| == SLOTS
    ensures Close(env, st, h, input).st.senderPaused == st.senderPaused
  {
  }

  lemma {:induction false} CompletedKeepsPause(env: Env, st: State, h: Byte, input: seq<Byte>)
    requires |st.slots| == SLOTS
    ensures Completed(env, st, h, input).st.senderPaused == st.senderPaused
  {
  }

  /**
   * For any input: a header below 64 with a message that starts with 1 leaves the client paused, one
   * that starts with 2 leaves it unpaused, and every other iteration leaves it as it was.
   */
  lemma {:induction false} OnlyControlPauses(env: Env, st: State, h: Byte, input: seq<Byte>)
    requires Flowing(st) && Step(env, st, h, input).Next?
    ensures var after := Step(env, st, h, input).st;
            var paused := if h < 64 && input != [] && input[0] == 1 then true
                          else if h < 64 && input != [] && input[0] == 2 then false
                          else st.senderPaused;
            after.senderPaused == after.needWait == paused
  {
    var seen := st.Emit(Dispatched(h));
    StepFlows(env, st, h, input);
    if TypeOf(h) == CONTROL {
      ControlPauses(env, seen, DataOf(h), input);
    } else if TypeOf(h) == STREAM {
      StreamKeepsPause(env, seen, h, input);
    } else if TypeOf(h) == CLOSE {
      CloseKeepsPause(env, seen, h, input);
    } else {
      CompletedKeepsPause(env, seen, h, input);
    }
  }

  /** A control message other than an echo sends nothing and changes nothing but the pause. */
  lemma {:induction false} ControlIsSilent(env: Env, st: State, message: seq<Byte>, rest: seq<Byte>)
    requires Flowing(st) && 1 <= |message| < 64 && message[0] != 0
    ensures var paused := message[0] == 1 || (message[0] != 2 && st.senderPaused);
            Step(env, st, |message|, message + rest)
            == Next(st.(senderPaused := paused, needWait := paused, log := st.log + [Dispatched(|message|)]), rest)
  {
    assert (message + rest)[0] == message[0] && (message + rest)[|message|..] == rest;
  }

  // ---------- Whole connections ----------

  lemma {:induction false} FramePauses(env: Env, st: State, f: Frame)
    requires Flowing(st) && Fits(st, f) && Left(env, f) == [] && Apply(env, st, f).Next?
    ensures var after := Apply(env, st, f).st;
            Flowing(after) && (after.senderPaused <==> Says(f, 1) || (!Says(f, 2) && st.senderPaused))
  {
    var o := OneAligned(env, st, f, []);
    HeadOf(f);
    assert f.Tail() + [] == f.Tail();
    StepFlows(env, st, f.Head(), f.Tail());
    OnlyControlPauses(env, st, f.Head(), f.Tail());
  }

  lemma {:induction false} FramesPause(env: Env, st: State, fs: seq<Frame>)
    requires Flowing(st) && Accepted(env, st, fs) && forall f <- fs :: f.Legal()
    ensures Play(env, st, fs).Next?
    ensures var after := Play(env, st, fs).st;
            Flowing(after) && after.senderPaused == PauseFrom(st.senderPaused, fs)
    decreases |fs|
  {
    if fs == [] {
    } else {
      FramePauses(env, st, fs[0]);
      FramesPause(env, Apply(env, st, fs[0]).st, fs[1..]);
      PlayGoesOn(env, st, fs);
    }
  }

  /**
   * At the loop head behind any accepted frames, and whatever follows them, writes are suspended exactly
   * while the pause that the client asked for is in force. An ordinary write recorded there waits exactly
   * then; one that bypasses the suspension never does.
   */
  lemma {:induction false} WritesWaitWhilePaused(env: Env, fs: seq<Frame>, more: seq<Byte>, bytes: seq<Byte>)
    requires Accepted(env, Initial(), fs)
    ensures forall f <- fs :: f.Legal()
    ensures var head := Play(env, Initial(), fs).st;
            && Loop(env, Initial(), EncodeAll(fs) + more) == Loop(env, head, more)
            && head.senderPaused == head.needWait == PauseAfter(fs)
            && Write(env, head, bytes, false).0.log == head.log + [Wrote(bytes, PauseAfter(fs))]
            && Write(env, head, bytes, true).0.log == head.log + [Wrote(bytes, false)]
  {
    AcceptedFits(env, Initial(), fs);
    FramesPause(env, Initial(), fs);
    PauseEitherWay(fs);
    LoopPlaysFrames(env, Initial(), fs, more);
  }
}
