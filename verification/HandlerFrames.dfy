/**
 * Frames against bytes: the server's dispatch loop, run on the bytes of a list of frames, does
 * frame by frame what the frames say, and hands each slot exactly what was sent on it.
 */
module HandlerFrames {
  import opened Bytes
  import opened Frames
  import opened HandlerSpec
  import opened Protocol

  /** The frame is of the kind the receiving slot expects. */
  predicate Fits(st: State, f: Frame)
    requires |st.slots| == SLOTS
  {
    f.Legal() &&
    match f
    case OpenFrame(i, _, _) => !st.slots[i].started
    case AnswerFrame(_, _, _, _) => false
    case DataFrame(i, _, _) => st.slots[i].started
    case _ => true
  }

  /** What the server leaves in the stream: all of the request, when it does not know the command. */
  function Left(env: Env, f: Frame): seq<Byte> {
    if f.OpenFrame? && !env.registered(f.command) then f.request else []
  }

  /** What one frame does, told without bytes. */
  function Apply(env: Env, st: State, f: Frame): (o: Outcome<State>)
    requires |st.slots| == SLOTS && f.Legal()
    ensures |o.st.slots| == SLOTS
  {
    var seen := st.Emit(Dispatched(f.Head()));
    match f
    case ControlFrame(message) => Control(env, seen, |message|, message)
    case OpenFrame(_, command, request) =>
      Regated(if env.registered(command) then Boot(env, seen.Ungated(), f.Head(), command, request, [])
              else Next(Write(env, seen.Ungated(), [f.Head()] + InitialHeader(0, 1, false), false).0, []))
    case AnswerFrame(_, _, _, _) => Halt(seen)
    case DataFrame(i, marker, payload) => TickMachine(env, seen, i, marker, |payload|, payload)
    case CloseFrame(_) => Close(env, seen, f.Head(), [])
    case CompletedFrame(_) => Completed(env, seen, f.Head(), [])
  }

  /** The frames one after another, up to the first that ends the connection. */
  function Play(env: Env, st: State, fs: seq<Frame>): (o: Outcome<State>)
    requires |st.slots| == SLOTS && forall f <- fs :: f.Legal()
    ensures |o.st.slots| == SLOTS
    decreases |fs|
  {
    if fs == [] then Next(st, []) else
    match Apply(env, st, fs[0])
    case Next(next, _) => Play(env, next, fs[1..])
    case Halt(last) => Halt(last)
  }

  /** Every frame fits the slot it meets and leaves nothing in the stream. */
  predicate FitsAll(env: Env, st: State, fs: seq<Frame>)
    requires |st.slots| == SLOTS
    decreases |fs|
  {
    fs == [] ||
    (Fits(st, fs[0]) && Left(env, fs[0]) == [] &&
     match Apply(env, st, fs[0])
     case Next(next, _) => FitsAll(env, next, fs[1..])
     case Halt(_) => forall f <- fs :: f.Legal())
  }

  // ---------- One frame ----------

  lemma {:induction false} OneControl(env: Env, st: State, message: seq<Byte>, rest: seq<Byte>)
    requires |st.slots| == SLOTS && 1 <= |message| <= HEADER_MAX_DATA
    ensures Same(Control(env, st, |message|, message + rest), Control(env, st, |message|, message), rest)
  {
    var input := message + rest;
    assert input[..|message|] == message == message[..|message|] && input[|message|..] == rest;
  }

  lemma {:induction false} OneReinit(env: Env, st: State, h: Byte, hd: seq<Byte>, request: seq<Byte>, rest: seq<Byte>)
    requires |st.slots| == SLOTS && |hd| == 2 && InitialDataOf(hd[0], hd[1]) == |request|
    ensures Reinit(env, st, h, hd + request + rest)
            == if env.registered(InitialCommand(hd[0])) then Boot(env, st, h, InitialCommand(hd[0]), request, rest)
               else Next(Write(env, st, [h] + InitialHeader(0, 1, false), false).0, request + rest)
  {
    var input := hd + request + rest;
    assert input[0] == hd[0] && input[1] == hd[1];
    assert input[2..] == request + rest;
    assert Take(request + rest, |request|) == request && Drop(request + rest, |request|) == rest;
  }

  lemma {:induction false} OpeningStep(env: Env, st: State, h: Byte, input: seq<Byte>)
    requires |st.slots| == SLOTS && TypeOf(h) == STREAM && !st.slots[DataOf(h)].started
    ensures Step(env, st, h, input) == Regated(Reinit(env, st.Emit(Dispatched(h)).Ungated(), h, input))
  {
  }

  lemma {:induction false} BootSame(env: Env, st: State, h: Byte, command: Command, request: seq<Byte>, rest: seq<Byte>)
    requires |st.slots| == SLOTS
    ensures Same(Boot(env, st, h, command, request, rest), Boot(env, st, h, command, request, []), rest)
  {
  }

  lemma {:induction false} OneOpen(env: Env, st: State, f: Frame, rest: seq<Byte>)
    requires |st.slots| == SLOTS && f.OpenFrame? && Fits(st, f)
    ensures Same(Step(env, st, f.Head(), f.Tail() + rest), Apply(env, st, f), Left(env, f) + rest)
  {
    HeadOf(f);
    OpenHeader(f);
    var h, hd := f.Head(), InitialHeader(f.command, |f.request|, true);
    var open := st.Emit(Dispatched(h)).Ungated();
    OpeningStep(env, st, h, hd + f.request + rest);
    OneReinit(env, open, h, hd, f.request, rest);
    BootSame(env, open, h, f.command, f.request, rest);
    assert [] + rest == rest;
  }

  lemma {:induction false} TickStep(env: Env, st: State, h: Byte, hd: seq<Byte>, input: seq<Byte>)
    requires |st.slots| == SLOTS && TypeOf(h) == STREAM && st.slots[DataOf(h)].started && |hd| == 2
    ensures Step(env, st, h, hd + input)
            == TickMachine(env, st.Emit(Dispatched(h)), DataOf(h), StreamMarker(hd[0]),
                           StreamLength(hd[0], hd[1]), input)
  {
    assert (hd + input)[2..] == input;
  }

  lemma {:induction false} OneData(env: Env, st: State, f: Frame, rest: seq<Byte>)
    requires |st.slots| == SLOTS && f.DataFrame? && Fits(st, f)
    ensures Same(Step(env, st, f.Head(), f.Tail() + rest), Apply(env, st, f), rest)
  {
    var payload, hd := f.payload, StreamHeader(f.marker, |f.payload|);
    HeadOf(f);
    DataHeader(f);
    TickStep(env, st, f.Head(), hd, payload + rest);
    assert f.Tail() + rest == hd + (payload + rest);
    assert Take(payload + rest, |payload|) == payload == Take(payload, |payload|);
    assert Drop(payload + rest, |payload|) == rest;
  }

  /**
   * One loop iteration consumes exactly one frame, whatever follows it, but for what `Left` says
   * stays behind.
   */
  lemma {:induction false} OneFrame(env: Env, st: State, f: Frame, rest: seq<Byte>)
    requires |st.slots| == SLOTS && Fits(st, f)
    ensures Same(Step(env, st, f.Head(), f.Tail() + rest), Apply(env, st, f), Left(env, f) + rest)
  {
    HeadOf(f);
    assert [] + rest == rest;
    match f
    case ControlFrame(message) => OneControl(env, st.Emit(Dispatched(f.Head())), message, rest);
    case OpenFrame(_, _, _) => OneOpen(env, st, f, rest);
    case DataFrame(_, _, _) => OneData(env, st, f, rest);
    case CloseFrame(_) => assert f.Tail() + rest == rest;
    case CompletedFrame(_) => assert f.Tail() + rest == rest;
    case AnswerFrame(_, _, _, _) =>
  }

  // ---------- Where alignment is lost ----------

  /**
   * An opening frame never ends the connection by itself when its command is not registered, and it
   * is consumed exactly, whatever follows it, if and only if the command is registered or the request
   * is empty.
   */
  lemma {:induction false} OpeningAlignsIff(env: Env, st: State, f: Frame, rest: seq<Byte>)
    requires |st.slots| == SLOTS && f.OpenFrame? && Fits(st, f)
    ensures var o := Step(env, st, f.Head(), f.Tail() + rest);
            && (!env.registered(f.command) ==> o.Next?)
            && (o.Next? ==> (o.rest == rest <==> env.registered(f.command) || f.request == []))
  {
    OneFrame(env, st, f, rest);
  }

  lemma {:induction false} UnknownStep(env: Env, st: State, f: Frame, rest: seq<Byte>)
    requires |st.slots| == SLOTS && f.OpenFrame? && Fits(st, f) && !env.registered(f.command)
    ensures Step(env, st, f.Head(), f.Tail() + rest) == Next(Apply(env, st, f).st, f.request + rest)
  {
    OneFrame(env, st, f, rest);
    OpeningAlignsIff(env, st, f, rest);
  }

  /** Then the loop goes on with the bytes of the request, as if they were frames. */
  lemma {:induction false} RequestReadAsFrames(env: Env, st: State, f: Frame, rest: seq<Byte>)
    requires |st.slots| == SLOTS && f.OpenFrame? && Fits(st, f) && !env.registered(f.command)
    ensures Loop(env, st, f.Encode() + rest) == Loop(env, Apply(env, st, f).st, f.request + rest)
  {
    UnknownStep(env, st, f, rest);
    LoopGoesOn(env, st, f.Head(), f.Tail() + rest);
    Assoc([f.Head()], f.Tail(), rest);
  }

  /** An unknown command with a one-byte request: the server then serves a header nobody sent. */
  lemma {:induction false} AlignmentIsLost() returns (env: Env, f: Frame)
    ensures f.OpenFrame? && Fits(Initial(), f) && f.request == [HeaderByte(CLOSE, 0)]
    ensures var o := Step(env, Initial(), f.Head(), f.Tail()); o.Next? && o.rest == [HeaderByte(CLOSE, 0)]
    ensures Loop(env, Initial(), f.Encode())
            == Loop(env, Apply(env, Initial(), f).st, [HeaderByte(CLOSE, 0)])
    ensures Dispatched(HeaderByte(CLOSE, 0)) in Loop(env, Initial(), f.Encode()).log
  {
    env := Env(_ => false, _ => true, _ => 0);
    f := OpenFrame(0, 1, [HeaderByte(CLOSE, 0)]);
    OneFrame(env, Initial(), f, []);
    assert f.Tail() + [] == f.Tail() && f.request + [] == f.request;
    RequestReadAsFrames(env, Initial(), f, []);
    assert f.Encode() + [] == f.Encode();
    var next, stray := Apply(env, Initial(), f).st, [HeaderByte(CLOSE, 0)];
    assert !next.slots[0].started;
    LoopGoesOn(env, next, stray[0], []);
    assert [stray[0]] + [] == stray;
  }

  // ---------- Whole connections ----------

  lemma {:induction false} LoopGoesOn(env: Env, st: State, h: Byte, input: seq<Byte>)
    requires |st.slots| == SLOTS
    ensures Loop(env, st, [h] + input)
            == match Step(env, st, h, input)
               case Next(next, rest) => Loop(env, next, rest)
               case Halt(last) => last
  {
    assert ([h] + input)[1..] == input;
  }

  lemma {:induction false} PlayGoesOn(env: Env, st: State, fs: seq<Frame>)
    requires |st.slots| == SLOTS && fs != [] && forall f <- fs :: f.Legal()
    ensures Play(env, st, fs)
            == match Apply(env, st, fs[0])
               case Next(next, _) => Play(env, next, fs[1..])
               case Halt(last) => Halt(last)
  {
  }

  lemma {:induction false} FitsFirst(env: Env, st: State, fs: seq<Frame>)
    requires |st.slots| == SLOTS && fs != [] && FitsAll(env, st, fs)
    ensures Fits(st, fs[0]) && Left(env, fs[0]) == []
    ensures Apply(env, st, fs[0]).Next? ==> FitsAll(env, Apply(env, st, fs[0]).st, fs[1..])
  {
  }

  lemma {:induction false} LoopAfter(env: Env, st: State, h: Byte, input: seq<Byte>, o: Outcome<State>, rest: seq<Byte>)
    requires |st.slots| == |o.st.slots| == SLOTS && Same(Step(env, st, h, input), o, rest)
    ensures Loop(env, st, [h] + input) == if o.Next? then Loop(env, o.st, rest) else o.st
  {
    LoopGoesOn(env, st, h, input);
  }

  /** The loop takes the first frame off and goes on with the rest. */
  lemma {:induction false} LoopTakesFrame(env: Env, st: State, f: Frame, rest: seq<Byte>)
    requires |st.slots| == SLOTS && Fits(st, f) && Left(env, f) == []
    ensures var o := Apply(env, st, f);
            Loop(env, st, f.Encode() + rest) == if o.Next? then Loop(env, o.st, rest) else o.st
  {
    var o := OneAligned(env, st, f, rest);
    EncodeThen(f, rest);
    LoopAfter(env, st, f.Head(), f.Tail() + rest, o, rest);
  }

  lemma {:induction false} OneAligned(env: Env, st: State, f: Frame, rest: seq<Byte>) returns (o: Outcome<State>)
    requires |st.slots| == SLOTS && Fits(st, f) && Left(env, f) == []
    ensures o == Apply(env, st, f) && Same(Step(env, st, f.Head(), f.Tail() + rest), o, rest)
  {
    o := Apply(env, st, f);
    OneFrame(env, st, f, rest);
    assert [] + rest == rest;
  }

  /**
   * Frame alignment over whole connections: the byte loop is the frame-by-frame reading, and goes on
   * behind the frames with whatever follows.
   */
  lemma {:induction false} LoopPlaysFrames(env: Env, st: State, fs: seq<Frame>, more: seq<Byte>)
    requires |st.slots| == SLOTS && FitsAll(env, st, fs) && forall f <- fs :: f.Legal()
    ensures Loop(env, st, EncodeAll(fs) + more)
            == match Play(env, st, fs)
               case Next(after, _) => Loop(env, after, more)
               case Halt(last) => last
    decreases |fs|
  {
    if fs == [] {
      assert [] + more == more;
    } else {
      var rest := EncodeAll(fs[1..]) + more;
      EncodeFirst(fs, more);
      FitsFirst(env, st, fs);
      LoopTakesFrame(env, st, fs[0], rest);
      PlayGoesOn(env, st, fs);
      var o := Apply(env, st, fs[0]);
      if o.Next? {
        LoopPlaysFrames(env, o.st, fs[1..], more);
      }
    }
  }

  // ---------- What reaches the machines ----------

  function PayloadTo(i: SlotId): Event -> seq<Byte> {
    (e: Event) => if e.Ticked? && e.slot == i then e.payload else []
  }

  /** The payload bytes handed to the machines of slot `i`, in order. */
  function DeliveredTo(log: seq<Event>, i: SlotId): seq<Byte> {
    Collected(log, PayloadTo(i))
  }

  /** No frame ends the connection, and none leaves anything in the stream. */
  predicate Accepted(env: Env, st: State, fs: seq<Frame>)
    requires |st.slots| == SLOTS
    decreases |fs|
  {
    fs == [] ||
    (Fits(st, fs[0]) && Left(env, fs[0]) == [] && Apply(env, st, fs[0]).Next?
     && Accepted(env, Apply(env, st, fs[0]).st, fs[1..]))
  }

  lemma {:induction false} AcceptedFits(env: Env, st: State, fs: seq<Frame>)
    requires |st.slots| == SLOTS && Accepted(env, st, fs)
    ensures FitsAll(env, st, fs) && forall f <- fs :: f.Legal()
    decreases |fs|
  {
    if fs == [] {
    } else {
      AcceptedFits(env, Apply(env, st, fs[0]).st, fs[1..]);
    }
  }

  /** `after` only adds events other than ticks. */
  ghost predicate Quiet(before: State, after: State) {
    |before.log| <= |after.log| && after.log[..|before.log|] == before.log
    && forall e <- after.log[|before.log|..] :: !e.Ticked?
  }

  lemma {:induction false} QuietDelivers(before: State, after: State, i: SlotId)
    requires Quiet(before, after)
    ensures DeliveredTo(after.log, i) == DeliveredTo(before.log, i)
  {
    var more := after.log[|before.log|..];
    assert after.log == before.log + more;
    forall e <- more ensures PayloadTo(i)(e) == [] { assert !e.Ticked?; }
    CollectedQuiet(before.log, more, PayloadTo(i));
  }

  lemma {:induction false} QuietBoot(env: Env, st: State, h: Byte, command: Command, payload: seq<Byte>,
                                     rest: seq<Byte>)
    requires |st.slots| == SLOTS
    ensures Quiet(st, Boot(env, st, h, command, payload, rest).st)
  {
  }

  lemma {:induction false} QuietGrows(st: State, after: State, events: seq<Event>)
    requires after.log == st.log + events && forall e <- events :: !e.Ticked?
    ensures Quiet(st, after)
  {
    assert after.log[|st.log|..] == events;
  }

  lemma {:induction false} QuietClose(env: Env, st: State, h: Byte, input: seq<Byte>)
    requires |st.slots| == SLOTS
    ensures Quiet(st, Close(env, st, h, input).st)
  {
    var i, o := DataOf(h), Close(env, st, h, input);
    if st.slots[i].started && !st.slots[i].closed {
      var closed := CloseStream(env, st.Ungated(), i);
      var event := MachineClosed(st.slots[i].machine, st.Ungated().needWait);
      assert closed.0.log == st.log + [event];
      QuietGrows(st, closed.0, [event]);
      if closed.1 {
        var wrote := Wrote([HeaderByte(COMPLETED, i)], closed.0.needWait);
        assert o.st.log == st.log + [event] + [wrote];
        Assoc(st.log, [event], [wrote]);
        QuietGrows(st, o.st, [event] + [wrote]);
      }
    } else {
      assert st.log + [] == st.log;
      QuietGrows(st, o.st, []);
    }
  }

  lemma {:induction false} QuietRelease(env: Env, st: State, i: SlotId)
    requires |st.slots| == SLOTS
    ensures Quiet(st, ReleaseStream(env, st, i).0)
  {
  }

  lemma {:induction false} QuietCompleted(env: Env, st: State, h: Byte, input: seq<Byte>)
    requires |st.slots| == SLOTS
    ensures Quiet(st, Completed(env, st, h, input).st)
  {
    QuietRelease(env, st.Ungated(), DataOf(h));
  }

  lemma {:induction false} QuietReinit(env: Env, st: State, h: Byte, input: seq<Byte>)
    requires |st.slots| == SLOTS
    ensures Quiet(st, Reinit(env, st, h, input).st)
  {
    if |input| >= 2 {
      var n := InitialDataOf(input[0], input[1]);
      QuietBoot(env, st, h, InitialCommand(input[0]), Take(input[2..], n), Drop(input[2..], n));
    }
  }

  lemma {:induction false} QuietControl(env: Env, st: State, message: seq<Byte>)
    requires |st.slots| == SLOTS && |message| < SLOTS
    ensures Quiet(st, Control(env, st, |message|, message).st)
  {
  }

  lemma {:induction false} QuietApply(env: Env, st: State, f: Frame)
    requires |st.slots| == SLOTS && f.Legal() && !f.DataFrame?
    ensures Quiet(st.Emit(Dispatched(f.Head())), Apply(env, st, f).st)
  {
    var seen := st.Emit(Dispatched(f.Head()));
    match f
    case ControlFrame(message) => QuietControl(env, seen, message);
    case OpenFrame(_, command, request) => QuietBoot(env, seen.Ungated(), f.Head(), command, request, []);
    case AnswerFrame(_, _, _, _) =>
    case CloseFrame(_) => QuietClose(env, seen, f.Head(), []);
    case CompletedFrame(_) => QuietCompleted(env, seen, f.Head(), []);
  }

  lemma {:induction false} DispatchedQuietly(st: State, h: Byte, i: SlotId)
    ensures DeliveredTo(st.Emit(Dispatched(h)).log, i) == DeliveredTo(st.log, i)
  {
    CollectedSnoc(st.log, Dispatched(h), PayloadTo(i));
    assert DeliveredTo(st.log, i) + [] == DeliveredTo(st.log, i);
  }

  /** A tick that succeeds or fails hands over what there is of the payload. */
  lemma {:induction false} TickDelivers(env: Env, st: State, j: SlotId, marker: Marker, n: nat, input: seq<Byte>,
                                        i: SlotId)
    requires |st.slots| == SLOTS
    ensures var after := TickMachine(env, st, j, marker, n, input).st;
            DeliveredTo(after.log, i)
            == DeliveredTo(st.log, i) + if !st.slots[j].fsmClosed && j == i then Take(input, n) else []
  {
    if st.slots[j].fsmClosed {
      assert DeliveredTo(st.log, i) + [] == DeliveredTo(st.log, i);
    } else {
      CollectedSnoc(st.log, Ticked(j, st.slots[j].machine, marker, Take(input, n), env.ok(|st.log|)), PayloadTo(i));
    }
  }

  lemma {:induction false} ApplyDelivers(env: Env, st: State, f: Frame, i: SlotId)
    requires |st.slots| == SLOTS && f.Legal() && Apply(env, st, f).Next?
    ensures DeliveredTo(Apply(env, st, f).st.log, i) == DeliveredTo(st.log, i) + f.Carried(i)
  {
    var seen := st.Emit(Dispatched(f.Head()));
    DispatchedQuietly(st, f.Head(), i);
    if f.DataFrame? {
      assert Take(f.payload, |f.payload|) == f.payload;
      TickDelivers(env, seen, f.slot, f.marker, |f.payload|, f.payload, i);
    } else {
      QuietApply(env, st, f);
      QuietDelivers(seen, Apply(env, st, f).st, i);
      assert DeliveredTo(st.log, i) + [] == DeliveredTo(st.log, i);
    }
  }

  lemma {:induction false} PlayDelivers(env: Env, st: State, fs: seq<Frame>, i: SlotId)
    requires |st.slots| == SLOTS && Accepted(env, st, fs) && forall f <- fs :: f.Legal()
    ensures Play(env, st, fs).Next?
    ensures DeliveredTo(Play(env, st, fs).st.log, i) == DeliveredTo(st.log, i) + SentOn(fs, i)
    decreases |fs|
  {
    if fs == [] {
      assert DeliveredTo(st.log, i) + [] == DeliveredTo(st.log, i);
    } else {
      var next := Apply(env, st, fs[0]).st;
      ApplyDelivers(env, st, fs[0], i);
      PlayDelivers(env, next, fs[1..], i);
      PlayGoesOn(env, st, fs);
      Joined(DeliveredTo(st.log, i), fs[0].Carried(i), SentOn(fs[1..], i));
    }
  }

  lemma {:induction false} NothingDelivered(i: SlotId)
    ensures DeliveredTo(Initial().log, i) == []
  {
  }

  /** The bytes of accepted frames reach each slot's machines exactly as they were sent. */
  lemma {:induction false} BytesReachMachines(env: Env, fs: seq<Frame>, i: SlotId)
    requires Accepted(env, Initial(), fs)
    ensures forall f <- fs :: f.Legal()
    ensures DeliveredTo(Loop(env, Initial(), EncodeAll(fs)).log, i) == SentOn(fs, i)
  {
    AcceptedFits(env, Initial(), fs);
    PlayDelivers(env, Initial(), fs, i);
    LoopPlaysFrames(env, Initial(), fs, []);
    assert EncodeAll(fs) + [] == EncodeAll(fs);
  }

  // ---------- A stream cut off anywhere ----------

  lemma {:induction false} LoopEnds(env: Env, st: State, h: Byte, t: seq<Byte>)
    requires |st.slots| == SLOTS
    requires var o := Step(env, st, h, t); o.Next? ==> o.rest == []
    ensures Loop(env, st, [h] + t) == Step(env, st, h, t).st
  {
    LoopGoesOn(env, st, h, t);
  }

  lemma {:induction false} RegatedQuiet(st: State, o: Outcome<State>)
    requires Quiet(st, o.st)
    ensures Quiet(st, Regated(o).st)
  {
  }

  /** An opening frame cut off: no machine is ticked, and nothing is left to read. */
  lemma {:induction false} CutOpen(env: Env, st: State, f: Frame, t: seq<Byte>, i: SlotId)
    requires |st.slots| == SLOTS && f.OpenFrame? && Fits(st, f) && Left(env, f) == []
    requires t <= f.Tail() && |t| < |f.Tail()|
    ensures DeliveredTo(Loop(env, st, [f.Head()] + t).log, i) == DeliveredTo(st.log, i)
  {
    HeadOf(f);
    OpenHeader(f);
    var seen := st.Emit(Dispatched(f.Head()));
    var o := Reinit(env, seen.Ungated(), f.Head(), t);
    OpeningStep(env, st, f.Head(), t);
    if |t| >= 2 {
      var hd := InitialHeader(f.command, |f.request|, true);
      assert t[0] == f.Tail()[0] == hd[0] && t[1] == f.Tail()[1] == hd[1];
      assert |t[2..]| < |f.request|;
    }
    LoopEnds(env, st, f.Head(), t);
    QuietReinit(env, seen.Ungated(), f.Head(), t);
    RegatedQuiet(seen.Ungated(), o);
    QuietDelivers(seen.Ungated(), Regated(o).st, i);
    DispatchedQuietly(st, f.Head(), i);
  }

  /** A data frame cut off: the machine is handed what there is of the payload. */
  lemma {:induction false} CutData(env: Env, st: State, f: Frame, t: seq<Byte>, i: SlotId) returns (part: seq<Byte>)
    requires |st.slots| == SLOTS && f.DataFrame? && Fits(st, f) && t <= f.Tail() && |t| < |f.Tail()|
    ensures part <= f.Carried(i)
    ensures DeliveredTo(Loop(env, st, [f.Head()] + t).log, i) == DeliveredTo(st.log, i) + part
  {
    HeadOf(f);
    DataHeader(f);
    DispatchedQuietly(st, f.Head(), i);
    part := [];
    var seen, n := st.Emit(Dispatched(f.Head())), |f.payload|;
    if |t| < 2 {
      assert Step(env, st, f.Head(), t) == Halt(seen);
      LoopEnds(env, st, f.Head(), t);
      assert DeliveredTo(st.log, i) + [] == DeliveredTo(st.log, i);
    } else {
      var hd := StreamHeader(f.marker, n);
      assert t[..2] == f.Tail()[..2] == hd && t == t[..2] + t[2..] && f.Tail()[2..] == f.payload;
      assert t[2..] <= f.payload && Take(t[2..], n) == t[2..] && Drop(t[2..], n) == [];
      TickStep(env, st, f.Head(), hd, t[2..]);
      LoopEnds(env, st, f.Head(), t);
      TickDelivers(env, seen, f.slot, f.marker, n, t[2..], i);
      part := if !seen.slots[f.slot].fsmClosed && f.slot == i then t[2..] else [];
    }
  }

  lemma {:induction false} CutFrame(env: Env, st: State, f: Frame, t: seq<Byte>, i: SlotId) returns (part: seq<Byte>)
    requires |st.slots| == SLOTS && Fits(st, f) && Left(env, f) == [] && t <= f.Tail() && |t| < |f.Tail()|
    ensures part <= f.Carried(i)
    ensures DeliveredTo(Loop(env, st, [f.Head()] + t).log, i) == DeliveredTo(st.log, i) + part
  {
    part := [];
    assert DeliveredTo(st.log, i) + [] == DeliveredTo(st.log, i);
    match f
    case ControlFrame(message) =>
      HeadOf(f);
      assert Step(env, st, f.Head(), t) == Halt(st.Emit(Dispatched(f.Head())));
      LoopEnds(env, st, f.Head(), t);
      DispatchedQuietly(st, f.Head(), i);
    case OpenFrame(_, _, _) => CutOpen(env, st, f, t, i);
    case DataFrame(_, _, _) => part := CutData(env, st, f, t, i);
    case _ =>
  }

  /** The cut is in the first frame. */
  lemma {:induction false} CutInFirst(env: Env, st: State, f: Frame, p: seq<Byte>, sent: seq<Byte>, i: SlotId)
    requires |st.slots| == SLOTS && Fits(st, f) && Left(env, f) == []
    requires p != [] && p <= f.Encode() && |p| < |f.Encode()|
    ensures DeliveredTo(Loop(env, st, p).log, i) <= DeliveredTo(st.log, i) + (f.Carried(i) + sent)
  {
    assert p == [f.Head()] + p[1..] && p[1..] <= f.Tail();
    var part := CutFrame(env, st, f, p[1..], i);
    PrefixStops(DeliveredTo(st.log, i), part, f.Carried(i), sent);
  }

  /** The cut is behind the first frame. */
  lemma {:induction false} CutBehindFirst(env: Env, st: State, f: Frame, rest: seq<Byte>, sent: seq<Byte>, i: SlotId)
    requires |st.slots| == SLOTS && Fits(st, f) && Left(env, f) == [] && Apply(env, st, f).Next?
    requires var next := Apply(env, st, f).st;
             DeliveredTo(Loop(env, next, rest).log, i) <= DeliveredTo(next.log, i) + sent
    ensures DeliveredTo(Loop(env, st, f.Encode() + rest).log, i) <= DeliveredTo(st.log, i) + (f.Carried(i) + sent)
  {
    LoopTakesFrame(env, st, f, rest);
    ApplyDelivers(env, st, f, i);
    var all := DeliveredTo(Loop(env, Apply(env, st, f).st, rest).log, i);
    PrefixGoesOn(all, DeliveredTo(st.log, i), f.Carried(i), sent);
  }

  /**
   * Wherever the stream of accepted frames is cut off, within a frame or between two, each slot's
   * machines were handed a prefix of what was sent on the slot.
   */
  lemma {:induction false} PrefixDelivers(env: Env, st: State, fs: seq<Frame>, p: seq<Byte>, i: SlotId)
    requires |st.slots| == SLOTS && Accepted(env, st, fs) && (forall f <- fs :: f.Legal()) && p <= EncodeAll(fs)
    ensures DeliveredTo(Loop(env, st, p).log, i) <= DeliveredTo(st.log, i) + SentOn(fs, i)
    decreases |fs|
  {
    if p == [] {
    } else {
      var f := fs[0];
      if |p| < |f.Encode()| {
        CutInFirst(env, st, f, p, SentOn(fs[1..], i), i);
      } else {
        var rest := PrefixBehind(p, f.Encode(), EncodeAll(fs[1..]));
        PrefixDelivers(env, Apply(env, st, f).st, fs[1..], rest, i);
        CutBehindFirst(env, st, f, rest, SentOn(fs[1..], i), i);
      }
    }
  }
}
