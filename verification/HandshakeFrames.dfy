/**
 * The step system of CloseHandshake against the loops. A frame meets the same fate there and here:
 * what a receiver takes, for its own session or another, its loop accepts as a frame, with the same
 * bits of the slot afterwards; what it refuses ends the loop; what it misreads, the loop reads as the
 * other kind. So the frames of an orderly run are accepted, on both ends.
 */
module HandshakeFrames {
  import opened Bytes
  import opened CloseHandshake
  import opened Frames
  import opened Protocol
  import C = ClientSpec
  import CF = ClientFrames
  import F = HandlerFrames
  import H = HandlerSpec

  /** The loops know no sessions: a frame of another session is to them like one of this. */
  predicate Served(f: Fate) {
    f.Takes? || f.Crosses?
  }

  // ---------- One frame at the server ----------

  predicate Upward(f: Frame) {
    f.OpenFrame? || f.DataFrame? || f.CloseFrame? || f.CompletedFrame?
  }

  /** The kind of a frame on a slot. */
  function UpKind(f: Frame): Kind
    requires Upward(f)
  {
    match f
    case OpenFrame(_, _, _) => Open
    case DataFrame(_, _, _) => Data
    case CloseFrame(_) => Close
    case CompletedFrame(_) => Completed
  }

  /** The bits of slot `i` of the server are those of `s`. */
  predicate ServerShows(st: H.State, i: SlotId, s: Server)
    requires |st.slots| == SLOTS
  {
    st.slots[i].started == s.running
    && (s.running ==> st.slots[i].closed == s.closed && st.slots[i].fsmClosed == s.closed)
  }

  /**
   * Machine and transport do their part in serving this frame: commands are known, ticks, closes and
   * replies succeed. A boot may fail; `boots` says whether it does.
   */
  predicate Obliging(env: H.Env, st: H.State, f: Frame, boots: bool) {
    var n := |st.log| + 1;
    match f
    case ControlFrame(message) => message != [] && (message[0] == CONTROL_ECHO ==> env.ok(n))
    case OpenFrame(_, command, _) => env.registered(command) && boots == env.ok(n) && (boots ==> env.ok(n + 1))
    case CloseFrame(_) => env.ok(n) && env.ok(n + 1)
    case _ => env.ok(n)
  }

  /** What the server writes to the client in answer to a frame on a slot. */
  function Answers(env: H.Env, st: H.State, f: Frame, s: Server, boots: bool): seq<seq<Byte>>
    requires f.Legal()
  {
    match f
    case OpenFrame(_, command, _) =>
      [[f.Head()] + InitialHeader(command, if boots then 0 else env.code(|st.log| + 1), boots)]
    case CloseFrame(i) => if s.closed then [] else [[HeaderByte(COMPLETED, i)]]
    case _ => []
  }

  function Written(log: seq<H.Event>): seq<seq<Byte>> {
    if log == [] then [] else (if log[0].Wrote? then [log[0].bytes] else []) + Written(log[1..])
  }

  lemma {:induction false} WrittenOfTwo(a: H.Event, b: H.Event)
    ensures Written([a, b]) == (if a.Wrote? then [a.bytes] else []) + if b.Wrote? then [b.bytes] else []
  {
    assert [a, b][1..] == [b] && [b][1..] == [] && Written([b][1..]) == [];
    assert Written([b]) == if b.Wrote? then [b.bytes] else [];
  }

  lemma {:induction false} WrittenOfThree(a: H.Event, b: H.Event, c: H.Event)
    requires !a.Wrote?
    ensures Written([a, b, c]) == (if b.Wrote? then [b.bytes] else []) + if c.Wrote? then [c.bytes] else []
  {
    assert [a, b, c][1..] == [b, c];
    WrittenOfTwo(b, c);
  }

  /** `after` is `st` with slot `i` of `s` and the events `more`, among them the writes `answers`. */
  ghost predicate ServerWent(st: H.State, after: H.State, i: SlotId, s: Server,
                             more: seq<H.Event>, answers: seq<seq<Byte>>) {
    && |st.slots| == |after.slots| == SLOTS && ServerShows(after, i, s)
    && (forall j: SlotId :: j != i ==> after.slots[j] == st.slots[j])
    && after.log == st.log + more && Written(more) == answers
  }

  lemma {:induction false} BootWent(env: H.Env, st: H.State, h: Byte, command: Command, request: seq<Byte>)
    returns (more: seq<H.Event>)
    requires |st.slots| == SLOTS && (env.ok(|st.log|) ==> env.ok(|st.log| + 1))
    ensures var boots, o := env.ok(|st.log|), H.Boot(env, st, h, command, request, []);
            && o.Next? && o.st.log == st.log + more && |more| == 2 && !more[0].Wrote? && more[1].Wrote?
            && more[1].bytes == [h] + InitialHeader(command, if boots then 0 else env.code(|st.log|), boots)
            && o.st.slots == if boots then st.slots[DataOf(h) := H.Slot(true, st.machines, false, false)] else st.slots
  {
    var boots := env.ok(|st.log|);
    var answer := [h] + InitialHeader(command, if boots then 0 else env.code(|st.log|), boots);
    more := [H.Booted(DataOf(h), st.machines, command, request, boots), H.Wrote(answer, st.needWait)];
    assert H.Boot(env, st, h, command, request, []).st.log == st.log + more;
  }

  lemma {:induction false} OpenTaken(env: H.Env, st: H.State, f: Frame, s: Server, life: nat, boots: bool)
    returns (more: seq<H.Event>)
    requires |st.slots| == SLOTS && f.OpenFrame? && f.Legal() && Obliging(env, st, f, boots)
    requires ServerShows(st, f.slot, s) && Served(ServerReceives(s, Open, life, boots).fate)
    ensures var o := F.Apply(env, st, f);
            o.Next? && ServerWent(st, o.st, f.slot, ServerReceives(s, Open, life, boots).next,
                                  more, Answers(env, st, f, s, boots))
  {
    HeadOf(f);
    var seen := st.Emit(H.Dispatched(f.Head())).Ungated();
    var booted := BootWent(env, seen, f.Head(), f.command, f.request);
    more := [H.Dispatched(f.Head())] + booted;
    assert more == [H.Dispatched(f.Head()), booted[0], booted[1]];
    WrittenOfThree(H.Dispatched(f.Head()), booted[0], booted[1]);
    assert F.Apply(env, st, f).st.log == st.log + [H.Dispatched(f.Head())] + booted == st.log + more;
  }

  lemma {:induction false} DataTaken(env: H.Env, st: H.State, f: Frame, s: Server, life: nat, boots: bool)
    returns (more: seq<H.Event>)
    requires |st.slots| == SLOTS && f.DataFrame? && f.Legal() && Obliging(env, st, f, boots)
    requires ServerShows(st, f.slot, s) && Served(ServerReceives(s, Data, life, boots).fate)
    ensures var o := F.Apply(env, st, f);
            o.Next? && ServerWent(st, o.st, f.slot, ServerReceives(s, Data, life, boots).next, more, [])
  {
    var ticked := H.Ticked(f.slot, st.slots[f.slot].machine, f.marker, Take(f.payload, |f.payload|), true);
    more := [H.Dispatched(f.Head()), ticked];
    WrittenOfTwo(H.Dispatched(f.Head()), ticked);
    assert F.Apply(env, st, f).st.log == st.log + more;
  }

  lemma {:induction false} CloseWent(env: H.Env, st: H.State, i: SlotId, h: Byte) returns (more: seq<H.Event>)
    requires |st.slots| == SLOTS && DataOf(h) == i && st.slots[i].started && !st.slots[i].closed
    requires env.ok(|st.log|) && env.ok(|st.log| + 1)
    ensures var o := H.Close(env, st, h, []);
            && o.Next? && o.st.log == st.log + more && |more| == 2 && !more[0].Wrote?
            && more[1].Wrote? && more[1].bytes == [HeaderByte(COMPLETED, i)]
            && o.st.slots == st.slots[i := st.slots[i].(closed := true, fsmClosed := true)]
  {
    var open := st.Ungated();
    more := [H.MachineClosed(st.slots[i].machine, open.needWait), H.Wrote([HeaderByte(COMPLETED, i)], open.needWait)];
    var o := H.Close(env, st, h, []);
    assert o.st.log == st.log + more;
    assert o.st.slots == st.slots[i := st.slots[i].(closed := true, fsmClosed := true)];
  }

  lemma {:induction false} CloseTaken(env: H.Env, st: H.State, f: Frame, s: Server, life: nat, boots: bool)
    returns (more: seq<H.Event>)
    requires |st.slots| == SLOTS && f.CloseFrame? && Obliging(env, st, f, boots)
    requires ServerShows(st, f.slot, s) && Served(ServerReceives(s, Close, life, boots).fate)
    ensures var o := F.Apply(env, st, f);
            o.Next? && ServerWent(st, o.st, f.slot, ServerReceives(s, Close, life, boots).next,
                                  more, Answers(env, st, f, s, boots))
  {
    var first, seen := H.Dispatched(f.Head()), st.Emit(H.Dispatched(f.Head()));
    HeadOf(f);
    if s.closed {
      more := [first];
      assert [first][1..] == [] && Written(more) == [];
    } else {
      var closed := CloseWent(env, seen, f.slot, f.Head());
      more := [first] + closed;
      assert more == [first, closed[0], closed[1]];
      WrittenOfThree(first, closed[0], closed[1]);
      assert st.log + [first] + closed == st.log + more;
    }
  }

  lemma {:induction false} ReleaseWent(env: H.Env, st: H.State, i: SlotId, h: Byte)
    requires |st.slots| == SLOTS && DataOf(h) == i && st.slots[i].started && st.slots[i].fsmClosed
    requires env.ok(|st.log|)
    ensures var o := H.Completed(env, st, h, []);
            && o.Next? && o.st.log == st.log + [H.MachineReleased(st.slots[i].machine, st.Ungated().needWait)]
            && o.st.slots == st.slots[i := st.slots[i].(started := false)]
  {
  }

  lemma {:induction false} CompletedTaken(env: H.Env, st: H.State, f: Frame, s: Server, life: nat, boots: bool)
    returns (more: seq<H.Event>)
    requires |st.slots| == SLOTS && f.CompletedFrame? && Obliging(env, st, f, boots)
    requires ServerShows(st, f.slot, s) && Served(ServerReceives(s, Completed, life, boots).fate)
    ensures var o := F.Apply(env, st, f);
            o.Next? && ServerWent(st, o.st, f.slot, ServerReceives(s, Completed, life, boots).next, more, [])
  {
    var first, seen := H.Dispatched(f.Head()), st.Emit(H.Dispatched(f.Head()));
    HeadOf(f);
    ReleaseWent(env, seen, f.slot, f.Head());
    var released := H.MachineReleased(st.slots[f.slot].machine, seen.Ungated().needWait);
    more := [first, released];
    WrittenOfTwo(first, released);
    assert st.log + [first] + [released] == st.log + more;
  }

  /**
   * A frame that the server's slot takes in the step system, as one of its session or of another, is
   * accepted by the server's loop: it fits, the connection goes on, the slot has the bits the step
   * system gives it, no other slot changes, and what is written is what the step system sends (the
   * answer to Close being sent when the machine's Close has returned).
   */
  lemma {:induction false} ServerTakesFrame(env: H.Env, st: H.State, f: Frame, s: Server, life: nat, boots: bool)
    returns (more: seq<H.Event>)
    requires |st.slots| == SLOTS && Upward(f) && f.Legal() && Obliging(env, st, f, boots)
    requires ServerShows(st, f.slot, s) && Served(ServerReceives(s, UpKind(f), life, boots).fate)
    ensures F.Fits(st, f) && F.Left(env, f) == [] && F.Apply(env, st, f).Next?
    ensures ServerWent(st, F.Apply(env, st, f).st, f.slot, ServerReceives(s, UpKind(f), life, boots).next,
                       more, Answers(env, st, f, s, boots))
  {
    match f
    case OpenFrame(_, _, _) => more := OpenTaken(env, st, f, s, life, boots);
    case DataFrame(_, _, _) => more := DataTaken(env, st, f, s, life, boots);
    case CloseFrame(_) => more := CloseTaken(env, st, f, s, life, boots);
    case CompletedFrame(_) => more := CompletedTaken(env, st, f, s, life, boots);
  }

  /** A frame that the server's slot refuses in the step system ends the server's loop. */
  lemma {:induction false} ServerRefusesFrame(env: H.Env, st: H.State, f: Frame, s: Server, life: nat, boots: bool,
                                              rest: seq<Byte>)
    requires |st.slots| == SLOTS && Upward(f) && f.Legal() && ServerShows(st, f.slot, s)
    requires ServerReceives(s, UpKind(f), life, boots).fate.Refuses?
    ensures H.Step(env, st, f.Head(), f.Tail() + rest).Halt?
  {
    HeadOf(f);
    var input := f.Tail() + rest;
    match f
    case OpenFrame(_, _, _) =>
      F.TickStep(env, st, f.Head(), input[..2], input[2..]);
      assert input == input[..2] + input[2..];
    case DataFrame(_, _, _) =>
      F.TickStep(env, st, f.Head(), input[..2], input[2..]);
      assert input == input[..2] + input[2..];
    case CloseFrame(_) =>
    case CompletedFrame(_) =>
  }

  lemma {:induction false} Pieces(length: nat)
    requires length <= STREAM_MAX_LENGTH
    ensures length / 256 / 16 == length / 4096 && length / 256 % 8 * 256 + length % 256 == length % 2048
  {
    var high, low := length / 256, length % 256;
    var part := high % 8 * 256 + low;
    assert length == 2048 * (high / 8) + part && part < 2048;
    assert high / 8 == length / 2048 && part == length % 2048;
    assert high / 16 == high / 8 / 2 && length / 4096 == length / 2048 / 2;
  }

  lemma {:induction false} BitsOf(marker: Marker, high: nat)
    requires high < 32
    ensures (marker * 32 + high) / 16 == marker * 2 + high / 16 && (marker * 32 + high) % 8 == high % 8
  {
  }

  /** What a data sub-header says when it is read as that of an opening frame. */
  lemma {:induction false} DataReadAsOpening(marker: Marker, length: nat)
    requires length <= STREAM_MAX_LENGTH
    ensures var hd := StreamHeader(marker, length);
            InitialCommand(hd[0]) == marker * 2 + length / 4096 && InitialDataOf(hd[0], hd[1]) == length % 2048
  {
    Pieces(length);
    BitsOf(marker, length / 256);
  }

  /**
   * A data frame at a free slot, which the step system counts as misread, is to the server's loop a
   * request for a command that marker and length happen to spell.
   */
  lemma {:induction false} ServerMisreadsData(env: H.Env, st: H.State, f: Frame, s: Server, life: nat, boots: bool,
                                              rest: seq<Byte>)
    requires |st.slots| == SLOTS && f.DataFrame? && f.Legal() && ServerShows(st, f.slot, s) && !s.running
    ensures ServerReceives(s, Data, life, boots).fate.Misreads?
    ensures var seen, hd := st.Emit(H.Dispatched(f.Head())), StreamHeader(f.marker, |f.payload|);
            && H.Step(env, st, f.Head(), f.Tail() + rest)
               == H.Regated(H.Reinit(env, seen.Ungated(), f.Head(), hd + f.payload + rest))
            && InitialCommand(hd[0]) == f.marker * 2 + |f.payload| / 4096
            && InitialDataOf(hd[0], hd[1]) == |f.payload| % 2048
  {
    HeadOf(f);
    DataReadAsOpening(f.marker, |f.payload|);
    F.OpeningStep(env, st, f.Head(), f.Tail() + rest);
  }

  /** A data frame of another session is handed to the machine that the slot has now. */
  lemma {:induction false} ServerHandsOver(env: H.Env, st: H.State, f: Frame, s: Server, life: nat, boots: bool)
    requires |st.slots| == SLOTS && f.DataFrame? && f.Legal() && ServerShows(st, f.slot, s)
    requires s.running && !s.closed && life != s.life
    ensures ServerReceives(s, Data, life, boots).fate.Crosses?
    ensures F.Fits(st, f) && F.Left(env, f) == []
    ensures F.Apply(env, st, f).st.log
            == st.log + [H.Dispatched(f.Head()),
                         H.Ticked(f.slot, st.slots[f.slot].machine, f.marker, f.payload, env.ok(|st.log| + 1))]
  {
    assert Take(f.payload, |f.payload|) == f.payload;
  }

  // ---------- All that the server takes in an orderly run ----------

  /** The messages the server takes in a run, and how the boots among them come out. */
  ghost function TakenUp(w: World, run: seq<Action>): seq<(Msg, bool)>
    requires Runs(w, run)
    decreases |run|
  {
    if run == [] then [] else
    (if run[0].ServerTakes? then [(w.up[0], run[0].boots)] else []) + TakenUp(Act(w, run[0]), run[1..])
  }

  /**
   * `fs` are the frames of the messages `taken`, with control frames anywhere in between, and
   * machines and transport do their part in serving them.
   */
  ghost predicate Follows(env: H.Env, st: H.State, fs: seq<Frame>, taken: seq<(Msg, bool)>)
    requires |st.slots| == SLOTS
    decreases |fs|
  {
    if fs == [] then taken == []
    else if !fs[0].Legal() then false
    else if fs[0].ControlFrame? then
      Obliging(env, st, fs[0], false) && Follows(env, F.Apply(env, st, fs[0]).st, fs[1..], taken)
    else
      taken != [] && Upward(fs[0]) && fs[0].slot == taken[0].0.slot && UpKind(fs[0]) == taken[0].0.kind
      && Obliging(env, st, fs[0], taken[0].1) && Follows(env, F.Apply(env, st, fs[0]).st, fs[1..], taken[1..])
  }

  /** Every slot of the server has the bits it has in the step system. */
  ghost predicate ServersShow(st: H.State, w: World) {
    |st.slots| == |w.servers| == SLOTS && forall i: SlotId :: ServerShows(st, i, w.servers[i])
  }

  /** A step in which the server takes nothing shows on none of its slots. */
  lemma {:induction false} OtherStepsShow(st: H.State, w: World, a: Action)
    requires ServersShow(st, w) && Enabled(w, a) && !a.ServerTakes?
    ensures ServersShow(st, Act(w, a))
  {
  }

  lemma {:induction false} ControlAccepted(env: H.Env, st: H.State, f: Frame)
    requires |st.slots| == SLOTS && f.ControlFrame? && f.Legal() && Obliging(env, st, f, false)
    ensures F.Fits(st, f) && F.Left(env, f) == [] && F.Apply(env, st, f).Next?
    ensures F.Apply(env, st, f).st.slots == st.slots
  {
  }

  /** In order, a frame meets the server's slot as it was meant. */
  lemma {:induction false} ServerMeets(w: World, boots: bool)
    requires Inv(w) && Enabled(w, ServerTakes(boots))
    ensures var m := w.up[0];
            var r := ServerReceives(w.servers[m.slot], m.kind, m.life, boots);
            r.fate.Takes? && Act(w, ServerTakes(boots)).servers == w.servers[m.slot := r.next]
  {
    ServerTakesInv(w, boots);
    assert Act(w, ServerTakes(boots)).Unharmed();
  }

  lemma {:induction false} OneServerShows(st: H.State, after: H.State, w: World, w': World, i: SlotId, s: Server)
    requires ServersShow(st, w) && |after.slots| == SLOTS && ServerShows(after, i, s)
    requires forall j: SlotId :: j != i ==> after.slots[j] == st.slots[j]
    requires w'.servers == w.servers[i := s]
    ensures ServersShow(after, w')
  {
    forall j: SlotId ensures ServerShows(after, j, w'.servers[j]) {
      assert ServerShows(st, j, w.servers[j]);
    }
  }

  /** The server takes a frame in both models, and their slots still agree. */
  lemma {:induction false} TakenStepShows(env: H.Env, st: H.State, w: World, f: Frame, boots: bool)
    requires Inv(w) && ServersShow(st, w) && Enabled(w, ServerTakes(boots))
    requires Upward(f) && f.Legal() && f.slot == w.up[0].slot && UpKind(f) == w.up[0].kind
    requires Obliging(env, st, f, boots)
    ensures F.Fits(st, f) && F.Left(env, f) == [] && F.Apply(env, st, f).Next?
    ensures ServersShow(F.Apply(env, st, f).st, Act(w, ServerTakes(boots)))
  {
    var s := w.servers[f.slot];
    var r := ServerReceives(s, UpKind(f), w.up[0].life, boots);
    ServerMeets(w, boots);
    var _ := ServerTakesFrame(env, st, f, s, w.up[0].life, boots);
    OneServerShows(st, F.Apply(env, st, f).st, w, Act(w, ServerTakes(boots)), f.slot, r.next);
  }

  lemma {:induction false} OrderlyFramesAccepted(env: H.Env, st: H.State, fs: seq<Frame>, w: World, run: seq<Action>)
    requires Inv(w) && Runs(w, run) && OrderlyRun(w, run) && ServersShow(st, w)
    requires Follows(env, st, fs, TakenUp(w, run))
    ensures F.Accepted(env, st, fs)
    decreases |fs| + |run|
  {
    if fs == [] {
    } else if fs[0].ControlFrame? {
      ControlAccepted(env, st, fs[0]);
      OrderlyFramesAccepted(env, F.Apply(env, st, fs[0]).st, fs[1..], w, run);
    } else {
      var a, taken := run[0], TakenUp(Act(w, run[0]), run[1..]);
      ActKeepsInv(w, a);
      if a.ServerTakes? {
        assert TakenUp(w, run)[0] == (w.up[0], a.boots) && TakenUp(w, run)[1..] == taken;
        TakenStepShows(env, st, w, fs[0], a.boots);
        OrderlyFramesAccepted(env, F.Apply(env, st, fs[0]).st, fs[1..], Act(w, a), run[1..]);
      } else {
        assert TakenUp(w, run) == taken;
        OtherStepsShow(st, w, a);
        OrderlyFramesAccepted(env, st, fs, Act(w, a), run[1..]);
      }
    }
  }

  /**
   * Whatever an orderly run of all 64 slots brings the server, refused openings included, its loop
   * accepts all of it.
   */
  lemma {:induction false} ServerAcceptsOrderlyRun(env: H.Env, fs: seq<Frame>, run: seq<Action>)
    requires Runs(Start(SLOTS), run) && OrderlyRun(Start(SLOTS), run)
    requires Follows(env, H.Initial(), fs, TakenUp(Start(SLOTS), run))
    ensures F.Accepted(env, H.Initial(), fs)
  {
    StartInv(SLOTS);
    OrderlyFramesAccepted(env, H.Initial(), fs, Start(SLOTS), run);
  }

  // ---------- One frame at the client ----------

  predicate Downward(f: Frame) {
    f.AnswerFrame? || f.DataFrame? || f.CloseFrame? || f.CompletedFrame?
  }

  function DownKind(f: Frame): Kind
    requires Downward(f)
  {
    match f
    case AnswerFrame(_, _, success, _) => if success then Booted else Refused
    case DataFrame(_, _, _) => Data
    case CloseFrame(_) => Close
    case CompletedFrame(_) => Completed
  }

  predicate ClientShows(st: C.State, i: SlotId, c: Client)
    requires |st.slots| == SLOTS
  {
    st.slots[i].running == c.running
    && (c.running ==> st.slots[i].initializing == c.initializing && st.slots[i].shuttingDown == c.shuttingDown)
  }

  /** `after` is `st` with slot `i` of `c` and the events `more`. */
  ghost predicate ClientWent(st: C.State, after: C.State, i: SlotId, c: Client, more: seq<C.Event>) {
    && |st.slots| == |after.slots| == SLOTS && ClientShows(after, i, c)
    && (forall j: SlotId :: j != i ==> after.slots[j] == st.slots[j])
    && after.log == st.log + more && after.lastEcho == st.lastEcho
  }

  lemma {:induction false} InitializeWent(env: C.Env, st: C.State, i: SlotId, b0: Byte, b1: Byte, c: Client)
    requires |st.slots| == SLOTS && env.ok(|st.log|) && ClientShows(st, i, c)
    requires c.running && c.initializing && !c.shuttingDown
    ensures var o := C.Initialize(env, st, i, b0, b1, []);
            o.Next? && ClientWent(st, o.st, i, if InitialSuccess(b0) then c.(initializing := false) else c.Cleared(),
                                  [C.Initialized(i, InitialSuccess(b0), InitialDataOf(b0, b1), true)])
  {
  }

  lemma {:induction false} AnswerTaken(env: C.Env, st: C.State, f: Frame, c: Client, life: nat)
    requires |st.slots| == SLOTS && f.AnswerFrame? && env.ok(|st.log|)
    requires ClientShows(st, f.slot, c) && Served(ClientReceives(c, DownKind(f), life).fate)
    ensures CF.Fits(st, f) && CF.Apply(env, st, f).Next?
    ensures ClientWent(st, CF.Apply(env, st, f).st, f.slot, ClientReceives(c, DownKind(f), life).next,
                       [C.Initialized(f.slot, f.success, f.data, true)])
  {
    var hd := InitialHeader(f.command, f.data, f.success);
    AnswerHeader(f);
    InitializeWent(env, st, f.slot, hd[0], hd[1], c);
  }

  /** What the client's loop does with a frame on a slot: the calls and sends the log records. */
  function ClientEvents(f: Frame): seq<C.Event>
    requires Downward(f)
  {
    match f
    case AnswerFrame(i, _, success, data) => [C.Initialized(i, success, data, true)]
    case DataFrame(i, marker, payload) => [C.Ticked(i, marker, payload, true)]
    case CloseFrame(i) => [C.Closed(i), C.Acknowledged(i)]
    case CompletedFrame(i) => [C.Ended(i)]
  }

  /** The command does its part in serving this frame. */
  predicate Willing(env: C.Env, st: C.State, f: Frame) {
    f.AnswerFrame? || f.DataFrame? ==> env.ok(|st.log|)
  }

  /**
   * A frame that the client's slot takes in the step system is accepted by the client's loop, with
   * the same bits of the slot afterwards and no other slot changed; Close is acknowledged.
   */
  lemma {:induction false} ClientTakesFrame(env: C.Env, st: C.State, f: Frame, c: Client, life: nat)
    requires |st.slots| == SLOTS && Downward(f) && f.Legal() && Willing(env, st, f)
    requires ClientShows(st, f.slot, c) && Served(ClientReceives(c, DownKind(f), life).fate)
    ensures CF.Fits(st, f) && CF.Apply(env, st, f).Next?
    ensures ClientWent(st, CF.Apply(env, st, f).st, f.slot, ClientReceives(c, DownKind(f), life).next, ClientEvents(f))
  {
    match f
    case AnswerFrame(_, _, _, _) => AnswerTaken(env, st, f, c, life);
    case DataFrame(_, _, payload) => assert Take(payload, |payload|) == payload;
    case CloseFrame(i) => assert st.log + [C.Closed(i)] + [C.Acknowledged(i)] == st.log + ClientEvents(f);
    case CompletedFrame(_) =>
  }

  /** A frame that the client's slot refuses in the step system ends the client's loop. */
  lemma {:induction false} ClientRefusesFrame(env: C.Env, st: C.State, f: Frame, c: Client, life: nat, rest: seq<Byte>)
    requires |st.slots| == SLOTS && Downward(f) && f.Legal() && ClientShows(st, f.slot, c)
    requires ClientReceives(c, DownKind(f), life).fate.Refuses?
    ensures C.Step(env, st, f.Head(), f.Tail() + rest).Halt?
  {
    HeadOf(f);
  }

  // ---------- All that the client takes in an orderly run ----------

  /** Every slot of the client has the bits it has in the step system. */
  ghost predicate ClientsShow(st: C.State, w: World) {
    |st.slots| == |w.clients| == SLOTS && forall i: SlotId :: ClientShows(st, i, w.clients[i])
  }

  /**
   * The loop keeps step with a run: `mid` is its state and `todo` what the user still asks for
   * before frame `k`. Requests are those of the run, on the slots the run takes; `fs` are the frames
   * of the messages the client takes, with echo answers in between; and commands do their part.
   */
  ghost predicate KeepsStep(env: C.Env, w: World, run: seq<Action>, mid: C.State, todo: seq<C.Request>, k: nat,
                            fs: seq<Frame>)
    requires Runs(w, run) && |mid.slots| == SLOTS
    decreases |run| + |fs|
  {
    if fs != [] && fs[0].ControlFrame? && C.AskAll(mid, todo) == mid then
      && fs[0].Legal() && fs[0].message[0] == CONTROL_ECHO
      && KeepsStep(env, w, run, C.Echo(env, CF.Apply(env, mid, fs[0]).st, k + 1), env.requests(k + 1), k + 1, fs[1..])
    else if run == [] then fs == []
    else
      var next := Act(w, run[0]);
      match run[0]
      case Request(i, sends) =>
        todo != [] && i == C.FirstIdle(mid.slots, 0) && sends == todo[0].Sends()
        && KeepsStep(env, next, run[1..], C.Ask(mid, todo[0]), todo[1..], k, fs)
      case ClientTakes =>
        && C.AskAll(mid, todo) == mid && fs != [] && Downward(fs[0]) && fs[0].Legal()
        && fs[0].slot == w.down[0].slot && DownKind(fs[0]) == w.down[0].kind && Willing(env, mid, fs[0])
        && KeepsStep(env, next, run[1..], C.Echo(env, CF.Apply(env, mid, fs[0]).st, k + 1), env.requests(k + 1),
                     k + 1, fs[1..])
      case _ => KeepsStep(env, next, run[1..], mid, todo, k, fs)
  }

  lemma {:induction false} OtherActsShow(st: C.State, w: World, a: Action)
    requires ClientsShow(st, w) && Enabled(w, a) && !a.ClientTakes? && !a.Request?
    ensures ClientsShow(st, Act(w, a))
  {
  }

  lemma {:induction false} RequestShows(st: C.State, w: World, i: nat, sends: bool, r: C.Request)
    requires ClientsShow(st, w) && Enabled(w, Request(i, sends)) && i == C.FirstIdle(st.slots, 0)
    ensures ClientsShow(C.Ask(st, r), Act(w, Request(i, sends)))
  {
  }

  lemma {:induction false} EchoShows(env: C.Env, st: C.State, k: nat, w: World)
    requires ClientsShow(st, w)
    ensures ClientsShow(C.Echo(env, st, k), w)
  {
  }

  lemma {:induction false} EchoAccepted(env: C.Env, st: C.State, f: Frame, k: nat, w: World)
    requires ClientsShow(st, w) && f.ControlFrame? && f.Legal() && f.message[0] == CONTROL_ECHO
    ensures CF.Fits(st, f) && CF.Apply(env, st, f).Next?
    ensures ClientsShow(C.Echo(env, CF.Apply(env, st, f).st, k + 1), w)
  {
    var next := CF.Apply(env, st, f).st;
    assert next.slots == st.slots;
    EchoShows(env, next, k + 1, w);
  }

  /** In order, a frame meets the client's slot as it was meant. */
  lemma {:induction false} ClientMeets(w: World)
    requires Inv(w) && Enabled(w, ClientTakes)
    ensures var m := w.down[0];
            var r := ClientReceives(w.clients[m.slot], m.kind, m.life);
            r.fate.Takes? && Act(w, ClientTakes).clients == w.clients[m.slot := r.next]
  {
    ClientTakesInv(w);
    assert Act(w, ClientTakes).Unharmed();
  }

  lemma {:induction false} OneClientShows(st: C.State, after: C.State, w: World, w': World, i: SlotId, c: Client)
    requires ClientsShow(st, w) && |after.slots| == SLOTS && ClientShows(after, i, c)
    requires forall j: SlotId :: j != i ==> after.slots[j] == st.slots[j]
    requires w'.clients == w.clients[i := c]
    ensures ClientsShow(after, w')
  {
    forall j: SlotId ensures ClientShows(after, j, w'.clients[j]) {
      assert ClientShows(st, j, w.clients[j]);
    }
  }

  /** The client takes a frame in both models, and their slots still agree. */
  lemma {:induction false} TakenFrameShows(env: C.Env, st: C.State, w: World, f: Frame, k: nat)
    requires Inv(w) && ClientsShow(st, w) && Enabled(w, ClientTakes)
    requires Downward(f) && f.Legal() && f.slot == w.down[0].slot && DownKind(f) == w.down[0].kind
    requires Willing(env, st, f)
    ensures CF.Fits(st, f) && CF.Apply(env, st, f).Next?
    ensures ClientsShow(C.Echo(env, CF.Apply(env, st, f).st, k + 1), Act(w, ClientTakes))
  {
    var c := w.clients[f.slot];
    var r := ClientReceives(c, DownKind(f), w.down[0].life);
    ClientMeets(w);
    ClientTakesFrame(env, st, f, c, w.down[0].life);
    OneClientShows(st, CF.Apply(env, st, f).st, w, Act(w, ClientTakes), f.slot, r.next);
    EchoShows(env, CF.Apply(env, st, f).st, k + 1, Act(w, ClientTakes));
  }

  lemma {:induction false} OrderlyAnswersAccepted(env: C.Env, w: World, run: seq<Action>, mid: C.State,
                                                  todo: seq<C.Request>, k: nat, fs: seq<Frame>)
    requires Inv(w) && Runs(w, run) && OrderlyRun(w, run) && ClientsShow(mid, w)
    requires KeepsStep(env, w, run, mid, todo, k, fs)
    ensures fs != [] ==> CF.AcceptedReady(env, C.AskAll(mid, todo), k, fs)
    decreases |run| + |fs|
  {
    if fs == [] {
    } else if fs[0].ControlFrame? && C.AskAll(mid, todo) == mid {
      EchoAccepted(env, mid, fs[0], k, w);
      var next := C.Echo(env, CF.Apply(env, mid, fs[0]).st, k + 1);
      OrderlyAnswersAccepted(env, w, run, next, env.requests(k + 1), k + 1, fs[1..]);
    } else {
      var a := run[0];
      ActKeepsInv(w, a);
      if a.Request? {
        RequestShows(mid, w, a.i, a.sends, todo[0]);
        OrderlyAnswersAccepted(env, Act(w, a), run[1..], C.Ask(mid, todo[0]), todo[1..], k, fs);
      } else if a.ClientTakes? {
        TakenFrameShows(env, mid, w, fs[0], k);
        var next := C.Echo(env, CF.Apply(env, mid, fs[0]).st, k + 1);
        OrderlyAnswersAccepted(env, Act(w, a), run[1..], next, env.requests(k + 1), k + 1, fs[1..]);
      } else {
        OtherActsShow(mid, w, a);
        OrderlyAnswersAccepted(env, Act(w, a), run[1..], mid, todo, k, fs);
      }
    }
  }

  /** Whatever an orderly run of all 64 slots brings the client, its loop accepts all of it. */
  lemma {:induction false} ClientAcceptsOrderlyRun(env: C.Env, fs: seq<Frame>, run: seq<Action>)
    requires Runs(Start(SLOTS), run) && OrderlyRun(Start(SLOTS), run)
    requires KeepsStep(env, Start(SLOTS), run, C.Echo(env, C.Initial(), 0), env.requests(0), 0, fs)
    ensures CF.Accepted(env, C.Initial(), 0, fs)
  {
    StartInv(SLOTS);
    EchoShows(env, C.Initial(), 0, Start(SLOTS));
    OrderlyAnswersAccepted(env, Start(SLOTS), run, C.Echo(env, C.Initial(), 0), env.requests(0), 0, fs);
  }

  // ---------- What can free a slot whose request was never sent ----------

  /** The answer to an undefined command: its length field is the error code. */
  function UndefinedAnswer(i: SlotId): seq<Byte> {
    [HeaderByte(STREAM, i)] + InitialHeader(0, 1, false)
  }

  lemma {:induction false} AnsweredAsUndefined(env: H.Env, st: H.State, f: Frame, rest: seq<Byte>)
    requires |st.slots| == SLOTS && f.DataFrame? && f.Legal() && !st.slots[f.slot].started
    requires forall c: Command :: c == f.marker * 2 + |f.payload| / 4096 ==> !env.registered(c)
    ensures var o := H.Step(env, st, f.Head(), f.Tail() + rest);
            && o.Next? && o.st.slots == st.slots
            && o.st.log == st.log + [H.Dispatched(f.Head()), H.Wrote(UndefinedAnswer(f.slot), st.Ungated().needWait)]
  {
    var hd := StreamHeader(f.marker, |f.payload|);
    HeadOf(f);
    DataReadAsOpening(f.marker, |f.payload|);
    F.OpeningStep(env, st, f.Head(), f.Tail() + rest);
    var input := f.Tail() + rest;
    assert input[0] == hd[0] && |input| >= 2;
    assert !env.registered(InitialCommand(hd[0]));
  }

  lemma {:induction false} RefusalFreesSlot(env: C.Env, st: C.State, i: SlotId)
    requires |st.slots| == SLOTS && env.ok(|st.log|)
    requires st.slots[i].running && st.slots[i].initializing && !st.slots[i].shuttingDown
    ensures var o := C.Step(env, st, UndefinedAnswer(i)[0], UndefinedAnswer(i)[1..]);
            o.Next? && o.rest == [] && o.st.slots == st.slots[i := C.IDLE]
  {
    var f := AnswerFrame(i, 0, false, 1);
    HeadOf(f);
    AnswerHeader(f);
    assert UndefinedAnswer(i)[1..] == InitialHeader(0, 1, false);
  }

  /**
   * A slot of the client whose request was never sent, and a segment of an earlier session that finds
   * the server's slot free: the server answers it as an opening frame of an undefined command, and the
   * client takes that for the answer to its own request, and frees the slot.
   */
  lemma {:induction false} LostSlotIsFreed(server: H.Env, st: H.State, client: C.Env, waiting: C.State, f: Frame,
                                           rest: seq<Byte>)
    requires |st.slots| == SLOTS && f.DataFrame? && f.Legal() && !st.slots[f.slot].started
    requires forall c: Command :: c == f.marker * 2 + |f.payload| / 4096 ==> !server.registered(c)
    requires |waiting.slots| == SLOTS && client.ok(|waiting.log|)
    requires var slot := waiting.slots[f.slot]; slot.running && slot.initializing && !slot.shuttingDown
    ensures var o, answer := H.Step(server, st, f.Head(), f.Tail() + rest), UndefinedAnswer(f.slot);
            && o.Next? && o.st.log == st.log + [H.Dispatched(f.Head()), H.Wrote(answer, st.Ungated().needWait)]
            && var o' := C.Step(client, waiting, answer[0], answer[1..]);
               o'.Next? && o'.rest == [] && o'.st.slots == waiting.slots[f.slot := C.IDLE]
  {
    AnsweredAsUndefined(server, st, f, rest);
    RefusalFreesSlot(client, waiting, f.slot);
  }
}
