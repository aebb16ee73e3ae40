/**
 * Frames against bytes on the client: its loop, run on the bytes of a list of frames, does frame
 * by frame what the frames say, whatever the user does in between, and hands each slot's command
 * exactly what was sent on it.
 */
module ClientFrames {
  import opened Bytes
  import opened ClientSpec
  import opened Frames
  import opened Protocol

  /** An answer comes to a slot that waits for one, data to a slot that does not. */
  predicate Fits(st: State, f: Frame)
    requires |st.slots| == SLOTS
  {
    f.Legal() &&
    match f
    case OpenFrame(_, _, _) => false
    case AnswerFrame(i, _, _, _) => st.slots[i].running ==> st.slots[i].initializing
    case DataFrame(i, _, _) => st.slots[i].running ==> !st.slots[i].initializing
    case _ => true
  }

  /** What one frame does, told without bytes. */
  function Apply(env: Env, st: State, f: Frame): (o: Outcome<State>)
    requires |st.slots| == SLOTS && f.Legal()
    ensures |o.st.slots| == SLOTS
  {
    match f
    case ControlFrame(message) => Control(st, |message|, message)
    case OpenFrame(_, _, _) => Halt(st)
    case AnswerFrame(i, command, success, data) =>
      var hd := InitialHeader(command, data, success);
      if st.slots[i].running then Initialize(env, st, i, hd[0], hd[1], []) else Halt(st)
    case DataFrame(i, marker, payload) =>
      if st.slots[i].running then Tick(env, st, i, marker, |payload|, payload) else Halt(st)
    case CloseFrame(i) => Close(st, i, [])
    case CompletedFrame(i) => Completed(st, i, [])
  }

  /** The frames one after another, from frame `k` on, up to the first that ends the connection. */
  function Play(env: Env, st: State, k: nat, fs: seq<Frame>): (o: Outcome<State>)
    requires |st.slots| == SLOTS && forall f <- fs :: f.Legal()
    ensures |o.st.slots| == SLOTS
    decreases |fs|
  {
    if fs == [] then Next(st, []) else
    match Apply(env, Prepare(env, st, k), fs[0])
    case Next(next, _) => Play(env, next, k + 1, fs[1..])
    case Halt(last) => Halt(last)
  }

  /** Every frame fits the slot it meets. */
  predicate FitsAll(env: Env, st: State, k: nat, fs: seq<Frame>)
    requires |st.slots| == SLOTS
    decreases |fs|
  {
    fs == [] ||
    var ready := Prepare(env, st, k);
    Fits(ready, fs[0]) &&
    match Apply(env, ready, fs[0])
    case Next(next, _) => FitsAll(env, next, k + 1, fs[1..])
    case Halt(_) => forall f <- fs :: f.Legal()
  }

  /** Every frame fits the slot it meets, and none ends the connection. */
  predicate Accepted(env: Env, st: State, k: nat, fs: seq<Frame>)
    requires |st.slots| == SLOTS
    decreases |fs|
  {
    fs == [] || AcceptedReady(env, Prepare(env, st, k), k, fs)
  }

  /** `Accepted`, with all done that comes before the first frame. */
  predicate AcceptedReady(env: Env, ready: State, k: nat, fs: seq<Frame>)
    requires |ready.slots| == SLOTS && fs != []
    decreases |fs|, 0
  {
    Fits(ready, fs[0]) && Apply(env, ready, fs[0]).Next?
    && Accepted(env, Apply(env, ready, fs[0]).st, k + 1, fs[1..])
  }

  lemma {:induction false} AcceptedFits(env: Env, st: State, k: nat, fs: seq<Frame>)
    requires |st.slots| == SLOTS && Accepted(env, st, k, fs)
    ensures FitsAll(env, st, k, fs) && forall f <- fs :: f.Legal()
    decreases |fs|
  {
    if fs == [] {
    } else {
      AcceptedFits(env, Apply(env, Prepare(env, st, k), fs[0]).st, k + 1, fs[1..]);
    }
  }

  // ---------- One frame ----------

  lemma {:induction false} OneControl(st: State, message: seq<Byte>, rest: seq<Byte>)
    requires |st.slots| == SLOTS && 1 <= |message| <= HEADER_MAX_DATA
    ensures Same(Control(st, |message|, message + rest), Control(st, |message|, message), rest)
  {
    var input := message + rest;
    assert input[1..|message|] == message[1..|message|] && input[|message|..] == rest;
  }

  lemma {:induction false} AnswerStep(env: Env, st: State, h: Byte, hd: seq<Byte>, rest: seq<Byte>)
    requires |st.slots| == SLOTS && TypeOf(h) == STREAM && |hd| == 2
    requires st.slots[DataOf(h)].running ==> st.slots[DataOf(h)].initializing
    ensures Step(env, st, h, hd + rest)
            == if st.slots[DataOf(h)].running then Initialize(env, st, DataOf(h), hd[0], hd[1], rest) else Halt(st)
  {
    assert (hd + rest)[2..] == rest;
  }

  lemma {:induction false} AnswerSame(env: Env, st: State, h: Byte, hd: seq<Byte>, rest: seq<Byte>)
    requires |st.slots| == SLOTS && TypeOf(h) == STREAM && |hd| == 2
    requires st.slots[DataOf(h)].running ==> st.slots[DataOf(h)].initializing
    ensures Same(Step(env, st, h, hd + rest),
                 if st.slots[DataOf(h)].running then Initialize(env, st, DataOf(h), hd[0], hd[1], []) else Halt(st),
                 rest)
  {
    AnswerStep(env, st, h, hd, rest);
  }

  lemma {:induction false} OneAnswer(env: Env, st: State, f: Frame, rest: seq<Byte>)
    requires |st.slots| == SLOTS && f.AnswerFrame? && Fits(st, f)
    ensures Same(Step(env, st, f.Head(), f.Tail() + rest), Apply(env, st, f), rest)
  {
    HeadOf(f);
    AnswerHeader(f);
    AnswerSame(env, st, f.Head(), f.Tail(), rest);
  }

  lemma {:induction false} TickStep(env: Env, st: State, h: Byte, hd: seq<Byte>, input: seq<Byte>)
    requires |st.slots| == SLOTS && TypeOf(h) == STREAM && |hd| == 2
    requires st.slots[DataOf(h)].running ==> !st.slots[DataOf(h)].initializing
    ensures Step(env, st, h, hd + input)
            == if st.slots[DataOf(h)].running
               then Tick(env, st, DataOf(h), StreamMarker(hd[0]), StreamLength(hd[0], hd[1]), input)
               else Halt(st)
  {
    assert (hd + input)[2..] == input;
  }

  lemma {:induction false} OneData(env: Env, st: State, f: Frame, rest: seq<Byte>)
    requires |st.slots| == SLOTS && f.DataFrame? && Fits(st, f)
    ensures Same(Step(env, st, f.Head(), f.Tail() + rest), Apply(env, st, f), rest)
  {
    var payload, hd := f.payload, StreamHeader(f.marker, |f.payload|);
    HeadOf(f);
    DataHeader(f);
    TickStep(env, st, f.Head(), hd, payload + rest);
    assert f.Tail() + rest == hd + (payload + rest);
    assert Take(payload + rest, |payload|) == payload == Take(payload, |payload|);
    assert (payload + rest)[|payload|..] == rest;
  }

  /** One loop iteration consumes exactly one frame, however little of it its command reads. */
  lemma {:induction false} OneFrame(env: Env, st: State, f: Frame, rest: seq<Byte>)
    requires |st.slots| == SLOTS && Fits(st, f)
    ensures Same(Step(env, st, f.Head(), f.Tail() + rest), Apply(env, st, f), rest)
  {
    HeadOf(f);
    match f
    case ControlFrame(message) => OneControl(st, message, rest);
    case OpenFrame(_, _, _) =>
    case AnswerFrame(_, _, _, _) => OneAnswer(env, st, f, rest);
    case DataFrame(_, _, _) => OneData(env, st, f, rest);
    case CloseFrame(_) => assert f.Tail() + rest == rest;
    case CompletedFrame(_) => assert f.Tail() + rest == rest;
  }

  // ---------- Whole connections ----------

  lemma {:induction false} LoopAfter(env: Env, st: State, k: nat, h: Byte, input: seq<Byte>, o: Outcome<State>,
                                     rest: seq<Byte>)
    requires |st.slots| == |o.st.slots| == SLOTS && Same(Step(env, Prepare(env, st, k), h, input), o, rest)
    ensures Loop(env, st, k, [h] + input) == if o.Next? then Loop(env, o.st, k + 1, rest) else o.st
  {
    assert ([h] + input)[1..] == input;
  }

  /** The loop behind frame `k - 1`, on what is left of the input. */
  function GoOn(env: Env, o: Outcome<State>, k: nat, input: seq<Byte>): (out: State)
    requires |o.st.slots| == SLOTS
    ensures |out.slots| == SLOTS
  {
    if o.Next? then Loop(env, o.st, k, input) else o.st
  }

  /** The loop takes the first frame off and goes on with the rest. */
  lemma {:induction false} LoopTakesFrame(env: Env, st: State, k: nat, f: Frame, rest: seq<Byte>)
    returns (o: Outcome<State>)
    requires |st.slots| == SLOTS && Fits(Prepare(env, st, k), f)
    ensures o == Apply(env, Prepare(env, st, k), f)
    ensures |o.st.slots| == SLOTS && Loop(env, st, k, f.Encode() + rest) == GoOn(env, o, k + 1, rest)
  {
    o := FrameTaken(env, Prepare(env, st, k), f, rest);
    EncodeThen(f, rest);
    LoopAfter(env, st, k, f.Head(), f.Tail() + rest, o, rest);
  }

  lemma {:induction false} FrameTaken(env: Env, st: State, f: Frame, rest: seq<Byte>) returns (o: Outcome<State>)
    requires |st.slots| == SLOTS && Fits(st, f)
    ensures o == Apply(env, st, f) && Same(Step(env, st, f.Head(), f.Tail() + rest), o, rest)
  {
    o := Apply(env, st, f);
    OneFrame(env, st, f, rest);
  }

  lemma {:induction false} PlayGoesOn(env: Env, st: State, k: nat, fs: seq<Frame>, o: Outcome<State>)
    requires |st.slots| == SLOTS && fs != [] && forall f <- fs :: f.Legal()
    requires o == Apply(env, Prepare(env, st, k), fs[0])
    ensures Play(env, st, k, fs) == if o.Next? then Play(env, o.st, k + 1, fs[1..]) else Halt(o.st)
  {
  }

  lemma {:induction false} FitsFirst(env: Env, st: State, k: nat, fs: seq<Frame>) returns (o: Outcome<State>)
    requires |st.slots| == SLOTS && fs != [] && FitsAll(env, st, k, fs)
    ensures Fits(Prepare(env, st, k), fs[0]) && o == Apply(env, Prepare(env, st, k), fs[0])
    ensures |o.st.slots| == SLOTS && (o.Next? ==> FitsAll(env, o.st, k + 1, fs[1..]))
  {
    o := Apply(env, Prepare(env, st, k), fs[0]);
  }

  lemma {:induction false} GoOnFrom(env: Env, st: State, k: nat, fs: seq<Frame>, more: seq<Byte>)
    requires |st.slots| == SLOTS && fs == []
    ensures GoOn(env, Play(env, st, k, fs), k + |fs|, more) == Loop(env, st, k, more)
  {
  }

  lemma {:induction false} NoFrames(env: Env, st: State, k: nat, fs: seq<Frame>, more: seq<Byte>, all: seq<Byte>)
    requires |st.slots| == SLOTS && fs == [] && all == EncodeAll(fs) + more
    ensures all == more && Loop(env, st, k, all) == GoOn(env, Play(env, st, k, fs), k + |fs|, more)
  {
    assert EncodeAll(fs) == [] && [] + more == more;
    GoOnFrom(env, st, k, fs, more);
  }

  /** One frame more in front of frames that the loop plays. */
  lemma {:induction false} OneFrameMore(env: Env, st: State, k: nat, f: Frame, o: Outcome<State>, rest: seq<Byte>,
                                        all: seq<Byte>)
    requires |st.slots| == SLOTS && Fits(Prepare(env, st, k), f) && o == Apply(env, Prepare(env, st, k), f)
    requires |o.st.slots| == SLOTS && all == f.Encode() + rest
    ensures Loop(env, st, k, all) == GoOn(env, o, k + 1, rest)
  {
    var _ := LoopTakesFrame(env, st, k, f, rest);
  }

  lemma {:induction false} PlayFirst(env: Env, st: State, k: nat, fs: seq<Frame>, o: Outcome<State>, rest: seq<Byte>,
                                     more: seq<Byte>, n: nat)
    requires |st.slots| == SLOTS && fs != [] && forall f <- fs :: f.Legal()
    requires o == Apply(env, Prepare(env, st, k), fs[0]) && |o.st.slots| == SLOTS
    requires o.Next? ==> Loop(env, o.st, k + 1, rest) == GoOn(env, Play(env, o.st, k + 1, fs[1..]), n, more)
    ensures GoOn(env, o, k + 1, rest) == GoOn(env, Play(env, st, k, fs), n, more)
  {
    PlayGoesOn(env, st, k, fs, o);
  }

  /**
   * Frame alignment over whole connections: `all` is the frames and whatever follows them, and `n`
   * numbers what follows.
   */
  lemma {:induction false} LoopPlaysFrames(env: Env, st: State, k: nat, fs: seq<Frame>, more: seq<Byte>, all: seq<Byte>,
                                           n: nat)
    requires |st.slots| == SLOTS && FitsAll(env, st, k, fs) && n == k + |fs|
    requires (forall f <- fs :: f.Legal()) && all == EncodeAll(fs) + more
    ensures Loop(env, st, k, all) == GoOn(env, Play(env, st, k, fs), n, more)
    decreases |fs|
  {
    if fs == [] {
      NoFrames(env, st, k, fs, more, all);
    } else {
      EncodeFirst(fs, more);
      var o := FitsFirst(env, st, k, fs);
      var rest := EncodeAll(fs[1..]) + more;
      OneFrameMore(env, st, k, fs[0], o, rest, all);
      if o.Next? {
        LoopPlaysFrames(env, o.st, k + 1, fs[1..], more, rest, n);
      }
      PlayFirst(env, st, k, fs, o, rest, more, n);
    }
  }

  // ---------- What reaches the commands ----------

  function PayloadTo(i: SlotId): Event -> seq<Byte> {
    (e: Event) => if e.Ticked? && e.slot == i then e.payload else []
  }

  /** The payload bytes handed to the commands of slot `i`, in order. */
  function DeliveredTo(log: seq<Event>, i: SlotId): seq<Byte> {
    Collected(log, PayloadTo(i))
  }

  lemma {:induction false} QuietEvent(log: seq<Event>, e: Event, i: SlotId)
    requires !e.Ticked?
    ensures DeliveredTo(log + [e], i) == DeliveredTo(log, i)
  {
    CollectedSnoc(log, e, PayloadTo(i));
    assert DeliveredTo(log, i) + [] == DeliveredTo(log, i);
  }

  lemma {:induction false} AskQuiet(st: State, r: Request, i: SlotId)
    requires |st.slots| == SLOTS
    ensures DeliveredTo(Ask(st, r).log, i) == DeliveredTo(st.log, i)
  {
    var slot := FirstIdle(st.slots, 0);
    if slot < SLOTS { QuietEvent(st.log, if r.Sends() then Requested(slot, r) else Unsent(slot, r), i); }
  }

  lemma {:induction false} AskAllQuiet(st: State, rs: seq<Request>, i: SlotId)
    requires |st.slots| == SLOTS
    ensures DeliveredTo(AskAll(st, rs).log, i) == DeliveredTo(st.log, i)
    decreases |rs|
  {
    if rs == [] {
    } else {
      AskQuiet(st, rs[0], i);
      AskAllQuiet(Ask(st, rs[0]), rs[1..], i);
    }
  }

  lemma {:induction false} PrepareQuiet(env: Env, st: State, k: nat, i: SlotId)
    requires |st.slots| == SLOTS
    ensures DeliveredTo(Prepare(env, st, k).log, i) == DeliveredTo(st.log, i)
  {
    match env.echo(k)
    case Some(data) =>
      QuietEvent(st.log, EchoFailed, i);
      QuietEvent(if st.lastEcho.Some? then st.log + [EchoFailed] else st.log, EchoAwaited(data), i);
      AskAllQuiet(EchoResolved(st, data), env.requests(k), i);
    case None => AskAllQuiet(st, env.requests(k), i);
  }

  lemma {:induction false} TickDelivers(env: Env, st: State, j: SlotId, marker: Marker, n: nat, input: seq<Byte>,
                                        i: SlotId)
    requires |st.slots| == SLOTS
    ensures DeliveredTo(Tick(env, st, j, marker, n, input).st.log, i)
            == DeliveredTo(st.log, i) + if !st.slots[j].shuttingDown && j == i then Take(input, n) else []
  {
    if st.slots[j].shuttingDown {
      assert DeliveredTo(st.log, i) + [] == DeliveredTo(st.log, i);
    } else {
      CollectedSnoc(st.log, Ticked(j, marker, Take(input, n), env.ok(|st.log|)), PayloadTo(i));
    }
  }

  lemma {:induction false} ControlQuiet(st: State, d: SlotId, input: seq<Byte>, i: SlotId)
    requires |st.slots| == SLOTS
    ensures DeliveredTo(Control(st, d, input).st.log, i) == DeliveredTo(st.log, i)
  {
    QuietEvent(st.log, EchoMatched, i);
    QuietEvent(st.log, EchoFailed, i);
  }

  lemma {:induction false} InitializeQuiet(env: Env, st: State, j: SlotId, b0: Byte, b1: Byte, rest: seq<Byte>,
                                           i: SlotId)
    requires |st.slots| == SLOTS
    ensures DeliveredTo(Initialize(env, st, j, b0, b1, rest).st.log, i) == DeliveredTo(st.log, i)
  {
    QuietEvent(st.log, Initialized(j, InitialSuccess(b0), InitialDataOf(b0, b1), env.ok(|st.log|)), i);
  }

  lemma {:induction false} ApplyDelivers(env: Env, st: State, f: Frame, i: SlotId)
    requires |st.slots| == SLOTS && f.Legal() && Apply(env, st, f).Next?
    ensures DeliveredTo(Apply(env, st, f).st.log, i) == DeliveredTo(st.log, i) + f.Carried(i)
  {
    assert DeliveredTo(st.log, i) + [] == DeliveredTo(st.log, i);
    match f
    case ControlFrame(message) => ControlQuiet(st, |message|, message, i);
    case OpenFrame(_, _, _) =>
    case AnswerFrame(slot, command, success, data) =>
      var hd := InitialHeader(command, data, success);
      InitializeQuiet(env, st, slot, hd[0], hd[1], [], i);
    case DataFrame(slot, marker, payload) =>
      assert Take(payload, |payload|) == payload;
      TickDelivers(env, st, slot, marker, |payload|, payload, i);
    case CloseFrame(slot) =>
      QuietEvent(st.log, Closed(slot), i);
      QuietEvent(st.log + [Closed(slot)], Acknowledged(slot), i);
    case CompletedFrame(slot) => QuietEvent(st.log, Ended(slot), i);
  }

  lemma {:induction false} FrameDelivers(env: Env, st: State, k: nat, f: Frame, i: SlotId, o: Outcome<State>)
    requires |st.slots| == SLOTS && f.Legal() && o == Apply(env, Prepare(env, st, k), f) && o.Next?
    ensures DeliveredTo(o.st.log, i) == DeliveredTo(st.log, i) + f.Carried(i)
  {
    PrepareQuiet(env, st, k, i);
    ApplyDelivers(env, Prepare(env, st, k), f, i);
  }

  /** The first of accepted frames, and what it leaves to the others. */
  lemma {:induction false} AcceptedGoesOn(env: Env, st: State, k: nat, fs: seq<Frame>) returns (o: Outcome<State>)
    requires |st.slots| == SLOTS && fs != [] && Accepted(env, st, k, fs)
    ensures Fits(Prepare(env, st, k), fs[0]) && o == Apply(env, Prepare(env, st, k), fs[0]) && o.Next?
    ensures |o.st.slots| == SLOTS && Accepted(env, o.st, k + 1, fs[1..])
  {
    o := Apply(env, Prepare(env, st, k), fs[0]);
  }

  lemma {:induction false} PlayDelivers(env: Env, st: State, k: nat, fs: seq<Frame>, i: SlotId)
    requires |st.slots| == SLOTS && Accepted(env, st, k, fs) && forall f <- fs :: f.Legal()
    ensures Play(env, st, k, fs).Next?
    ensures DeliveredTo(Play(env, st, k, fs).st.log, i) == DeliveredTo(st.log, i) + SentOn(fs, i)
    decreases |fs|
  {
    if fs == [] {
      assert DeliveredTo(st.log, i) + [] == DeliveredTo(st.log, i);
    } else {
      var o := AcceptedGoesOn(env, st, k, fs);
      FrameDelivers(env, st, k, fs[0], i, o);
      PlayGoesOn(env, st, k, fs, o);
      PlayDelivers(env, o.st, k + 1, fs[1..], i);
      Joined(DeliveredTo(st.log, i), fs[0].Carried(i), SentOn(fs[1..], i));
    }
  }

  /** The bytes of accepted frames reach each slot's command exactly as they were sent. */
  lemma {:induction false} BytesReachCommands(env: Env, fs: seq<Frame>, i: SlotId)
    requires Accepted(env, Initial(), 0, fs)
    ensures forall f <- fs :: f.Legal()
    ensures DeliveredTo(Loop(env, Initial(), 0, EncodeAll(fs)).log, i) == SentOn(fs, i)
  {
    AcceptedFits(env, Initial(), 0, fs);
    PlayDelivers(env, Initial(), 0, fs, i);
    assert EncodeAll(fs) + [] == EncodeAll(fs);
    LoopPlaysFrames(env, Initial(), 0, fs, [], EncodeAll(fs), |fs|);
    NothingMore(env, Play(env, Initial(), 0, fs).st, |fs|, i);
    NothingCollected(i);
  }

  lemma {:induction false} NothingMore(env: Env, st: State, k: nat, i: SlotId)
    requires |st.slots| == SLOTS
    ensures DeliveredTo(Loop(env, st, k, []).log, i) == DeliveredTo(st.log, i)
  {
    PrepareQuiet(env, st, k, i);
  }

  lemma {:induction false} NothingCollected(i: SlotId)
    ensures DeliveredTo(Initial().log, i) == []
  {
  }

  // ---------- A stream cut off anywhere ----------

  lemma {:induction false} LoopEnds(env: Env, st: State, k: nat, h: Byte, t: seq<Byte>)
    requires |st.slots| == SLOTS && Step(env, Prepare(env, st, k), h, t).Halt?
    ensures Loop(env, st, k, [h] + t) == Step(env, Prepare(env, st, k), h, t).st
  {
    assert ([h] + t)[1..] == t;
  }

  /** A data frame cut off: the command is handed what there is of the payload. */
  lemma {:induction false} CutData(env: Env, st: State, f: Frame, t: seq<Byte>, i: SlotId) returns (part: seq<Byte>)
    requires |st.slots| == SLOTS && f.DataFrame? && Fits(st, f) && t <= f.Tail() && |t| < |f.Tail()|
    ensures part <= f.Carried(i)
    ensures var o := Step(env, st, f.Head(), t);
            o.Halt? && DeliveredTo(o.st.log, i) == DeliveredTo(st.log, i) + part
  {
    HeadOf(f);
    DataHeader(f);
    part := [];
    assert DeliveredTo(st.log, i) + [] == DeliveredTo(st.log, i);
    var n := |f.payload|;
    if |t| >= 2 {
      var hd := StreamHeader(f.marker, n);
      assert t[..2] == f.Tail()[..2] == hd && t == t[..2] + t[2..] && f.Tail()[2..] == f.payload;
      assert t[2..] <= f.payload && |t[2..]| < n && Take(t[2..], n) == t[2..];
      TickStep(env, st, f.Head(), hd, t[2..]);
      TickDelivers(env, st, f.slot, f.marker, n, t[2..], i);
      part := if st.slots[f.slot].running && !st.slots[f.slot].shuttingDown && f.slot == i then t[2..] else [];
    }
  }

  lemma {:induction false} CutFrame(env: Env, st: State, f: Frame, t: seq<Byte>, i: SlotId) returns (part: seq<Byte>)
    requires |st.slots| == SLOTS && Fits(st, f) && t <= f.Tail() && |t| < |f.Tail()|
    ensures part <= f.Carried(i)
    ensures var o := Step(env, st, f.Head(), t);
            o.Halt? && DeliveredTo(o.st.log, i) == DeliveredTo(st.log, i) + part
  {
    HeadOf(f);
    part := [];
    assert DeliveredTo(st.log, i) + [] == DeliveredTo(st.log, i);
    match f
    case DataFrame(_, _, _) => part := CutData(env, st, f, t, i);
    case _ =>
  }

  /** The cut is in the first frame. */
  lemma {:induction false} CutInFirst(env: Env, st: State, k: nat, f: Frame, p: seq<Byte>, sent: seq<Byte>, i: SlotId)
    requires |st.slots| == SLOTS && Fits(Prepare(env, st, k), f)
    requires p != [] && p <= f.Encode() && |p| < |f.Encode()|
    ensures DeliveredTo(Loop(env, st, k, p).log, i) <= DeliveredTo(st.log, i) + (f.Carried(i) + sent)
  {
    assert p == [f.Head()] + p[1..] && p[1..] <= f.Tail();
    PrepareQuiet(env, st, k, i);
    var part := CutFrame(env, Prepare(env, st, k), f, p[1..], i);
    LoopEnds(env, st, k, f.Head(), p[1..]);
    PrefixStops(DeliveredTo(st.log, i), part, f.Carried(i), sent);
  }

  /** The cut is behind the first frame. */
  lemma {:induction false} CutBehindFirst(env: Env, st: State, k: nat, f: Frame, rest: seq<Byte>, sent: seq<Byte>,
                                          i: SlotId, o: Outcome<State>)
    requires |st.slots| == SLOTS && Fits(Prepare(env, st, k), f)
    requires o == Apply(env, Prepare(env, st, k), f) && o.Next? && |o.st.slots| == SLOTS
    requires DeliveredTo(Loop(env, o.st, k + 1, rest).log, i) <= DeliveredTo(o.st.log, i) + sent
    ensures DeliveredTo(Loop(env, st, k, f.Encode() + rest).log, i) <= DeliveredTo(st.log, i) + (f.Carried(i) + sent)
  {
    var _ := LoopTakesFrame(env, st, k, f, rest);
    FrameDelivers(env, st, k, f, i, o);
    PrefixGoesOn(DeliveredTo(Loop(env, o.st, k + 1, rest).log, i), DeliveredTo(st.log, i), f.Carried(i), sent);
  }

  /**
   * Wherever the stream of accepted frames is cut off, within a frame or between two, each slot's
   * commands were handed a prefix of what was sent to the slot.
   */
  lemma {:induction false} PrefixDelivers(env: Env, st: State, k: nat, fs: seq<Frame>, p: seq<Byte>, i: SlotId)
    requires |st.slots| == SLOTS && Accepted(env, st, k, fs) && (forall f <- fs :: f.Legal()) && p <= EncodeAll(fs)
    ensures DeliveredTo(Loop(env, st, k, p).log, i) <= DeliveredTo(st.log, i) + SentOn(fs, i)
    decreases |fs|
  {
    if p == [] {
      PrepareQuiet(env, st, k, i);
    } else {
      var f := fs[0];
      var o := AcceptedGoesOn(env, st, k, fs);
      if |p| < |f.Encode()| {
        CutInFirst(env, st, k, f, p, SentOn(fs[1..], i), i);
      } else {
        var rest := PrefixBehind(p, f.Encode(), EncodeAll(fs[1..]));
        PrefixDelivers(env, o.st, k + 1, fs[1..], rest, i);
        CutBehindFirst(env, st, k, f, rest, SentOn(fs[1..], i), i, o);
      }
    }
  }
}
