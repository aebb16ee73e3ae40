/**
 * What the client's end of a connection does, as a function of the concatenated input bytes and
 * of what the user and the echo timer do between two frames: ui/stream/streams.js and stream.js.
 * The class in ClientStreams.dfy is proved to compute exactly this.
 */
module ClientSpec {
  import opened Bytes
  import opened Protocol

  /** Stream; `running` stands for a command that is not null. */
  datatype Slot = Slot(running: bool, initializing: bool, shuttingDown: bool)

  const IDLE := Slot(false, false, false)

  /** A user's request for a new stream; without data when its command throws instead of sending. */
  datatype Request = Request(command: Command, data: Option<seq<Byte>>)
  {
    /** The initial sender refuses data that the header cannot express. */
    predicate Sends() {
      data.Some? && |data.value| <= INITIAL_MAX_DATA
    }
  }

  datatype Event =
    | Requested(slot: SlotId, request: Request)
    | Unsent(slot: SlotId, request: Request)
    | Initialized(slot: SlotId, success: bool, data: InitialData, ok: bool)
    | Ticked(slot: SlotId, marker: Marker, payload: seq<Byte>, ok: bool)
    | Closed(slot: SlotId)
    | Acknowledged(slot: SlotId)
    | Ended(slot: SlotId)
    | EchoAwaited(sent: seq<Byte>)
    | EchoMatched
    | EchoFailed

  /**
   * Everything the code does not decide itself: whether the command call recorded as the k-th
   * event succeeds, the echo whose send was resolved before the k-th frame, and the requests that
   * were made before it.
   */
  datatype Env = Env(ok: nat -> bool, echo: nat -> Option<seq<Byte>>, requests: nat -> seq<Request>)

  datatype State = State(slots: seq<Slot>, lastEcho: Option<seq<Byte>>, log: seq<Event>)
  {
    function Emit(e: Event): State {
      this.(log := log + [e])
    }

    function WithSlot(i: SlotId, s: Slot): State
      requires |slots| == SLOTS
    {
      this.(slots := slots[i := s])
    }
  }

  function Initial(): State {
    State(seq(SLOTS, i => IDLE), None, [])
  }

  ghost predicate KeepsShape(o: Outcome<State>, input: seq<Byte>) {
    |o.st.slots| == SLOTS && (o.Next? ==> |o.rest| <= |input|)
  }

  /** The first slot from `i` on without a command. */
  function FirstIdle(slots: seq<Slot>, i: nat): (r: nat)
    requires |slots| == SLOTS && i <= SLOTS
    ensures i <= r <= SLOTS && (forall k :: i <= k < r ==> slots[k].running)
    ensures r < SLOTS ==> !slots[r].running
    decreases SLOTS - i
  {
    if i == SLOTS || !slots[i].running then i else FirstIdle(slots, i + 1)
  }

  /** Streams.request; a command that throws keeps its slot. */
  function Ask(st: State, r: Request): (out: State)
    requires |st.slots| == SLOTS
    ensures |out.slots| == SLOTS
  {
    var i := FirstIdle(st.slots, 0);
    if i == SLOTS then st
    else st.WithSlot(i, Slot(true, true, false)).Emit(if r.Sends() then Requested(i, r) else Unsent(i, r))
  }

  function AskAll(st: State, rs: seq<Request>): (out: State)
    requires |st.slots| == SLOTS
    ensures |out.slots| == SLOTS
    decreases |rs|
  {
    if rs == [] then st else AskAll(Ask(st, rs[0]), rs[1..])
  }

  /** sendEcho, once its send is resolved: an echo still unanswered counts as failed. */
  function EchoResolved(st: State, data: seq<Byte>): State {
    (if st.lastEcho.Some? then st.Emit(EchoFailed) else st).Emit(EchoAwaited(data)).(lastEcho := Some(data))
  }

  /** The echo that is answered for from before the k-th frame on. */
  function Echo(env: Env, st: State, k: nat): (out: State)
    requires |st.slots| == SLOTS
    ensures |out.slots| == SLOTS
  {
    match env.echo(k) case Some(data) => EchoResolved(st, data) case None => st
  }

  /** What comes before the k-th frame. */
  function Prepare(env: Env, st: State, k: nat): (out: State)
    requires |st.slots| == SLOTS
    ensures |out.slots| == SLOTS
  {
    AskAll(Echo(env, st, k), env.requests(k))
  }

  /** An answer of another length is ignored; a wrong one of the right length ends the wait. */
  function EchoAnswer(st: State, answer: seq<Byte>): State {
    if st.lastEcho.None? || |st.lastEcho.value| != |answer| then st
    else st.Emit(if st.lastEcho.value == answer then EchoMatched else EchoFailed).(lastEcho := None)
  }

  function Control(st: State, d: SlotId, input: seq<Byte>): (o: Outcome<State>)
    requires |st.slots| == SLOTS
    ensures KeepsShape(o, input)
  {
    if d == 0 || |input| < d || input[0] != CONTROL_ECHO then Halt(st)
    else Next(EchoAnswer(st, input[1..d]), input[d..])
  }

  /** Stream.initialize */
  function Initialize(env: Env, st: State, i: SlotId, b0: Byte, b1: Byte, rest: seq<Byte>): (o: Outcome<State>)
    requires |st.slots| == SLOTS
    ensures KeepsShape(o, rest)
  {
    if st.slots[i].shuttingDown then Halt(st) else
    var ok, success := env.ok(|st.log|), InitialSuccess(b0);
    var told := st.Emit(Initialized(i, success, InitialDataOf(b0, b1), ok));
    if !ok then Halt(told)
    else Next(told.WithSlot(i, if success then st.slots[i].(initializing := false) else IDLE), rest)
  }

  /** Stream.tick, and reading what the command left unread */
  function Tick(env: Env, st: State, i: SlotId, marker: Marker, n: nat, input: seq<Byte>): (o: Outcome<State>)
    requires |st.slots| == SLOTS
    ensures KeepsShape(o, input)
  {
    if st.slots[i].shuttingDown then Halt(st) else
    var ok := env.ok(|st.log|);
    var ticked := st.Emit(Ticked(i, marker, Take(input, n), ok));
    if ok && n <= |input| then Next(ticked, input[n..]) else Halt(ticked)
  }

  function Stream(env: Env, st: State, i: SlotId, input: seq<Byte>): (o: Outcome<State>)
    requires |st.slots| == SLOTS
    ensures KeepsShape(o, input)
  {
    if !st.slots[i].running || |input| < 2 then Halt(st)
    else if st.slots[i].initializing then Initialize(env, st, i, input[0], input[1], input[2..])
    else Tick(env, st, i, StreamMarker(input[0]), StreamLength(input[0], input[1]), input[2..])
  }

  /** Stream.close */
  function CloseStream(st: State, i: SlotId): (out: State)
    requires |st.slots| == SLOTS
    ensures |out.slots| == SLOTS
  {
    st.WithSlot(i, st.slots[i].(shuttingDown := true)).Emit(Closed(i))
  }

  /** Stream.completed */
  function EndStream(st: State, i: SlotId): (out: State)
    requires |st.slots| == SLOTS
    ensures |out.slots| == SLOTS
  {
    st.Emit(Ended(i)).WithSlot(i, IDLE)
  }

  function Close(st: State, i: SlotId, input: seq<Byte>): (o: Outcome<State>)
    requires |st.slots| == SLOTS
    ensures KeepsShape(o, input)
  {
    if !st.slots[i].running || st.slots[i].shuttingDown then Halt(st)
    else Next(CloseStream(st, i).Emit(Acknowledged(i)), input)
  }

  function Completed(st: State, i: SlotId, input: seq<Byte>): (o: Outcome<State>)
    requires |st.slots| == SLOTS
    ensures KeepsShape(o, input)
  {
    if !st.slots[i].running || !st.slots[i].shuttingDown then Halt(st)
    else Next(EndStream(st, i), input)
  }

  /** One iteration of the loop, on the header byte `h` and the bytes after it. */
  function Step(env: Env, st: State, h: Byte, input: seq<Byte>): (o: Outcome<State>)
    requires |st.slots| == SLOTS
    ensures KeepsShape(o, input)
  {
    if TypeOf(h) == CONTROL then Control(st, DataOf(h), input)
    else if TypeOf(h) == STREAM then Stream(env, st, DataOf(h), input)
    else if TypeOf(h) == CLOSE then Close(st, DataOf(h), input)
    else Completed(st, DataOf(h), input)
  }

  /** The loop from frame `k` on, up to the first error or the end of the input. */
  function Loop(env: Env, st: State, k: nat, input: seq<Byte>): (out: State)
    requires |st.slots| == SLOTS
    ensures |out.slots| == SLOTS
    decreases |input|
  {
    var ready := Prepare(env, st, k);
    if input == [] then ready else
    match Step(env, ready, input[0], input[1..])
    case Next(next, rest) => Loop(env, next, k + 1, rest)
    case Halt(last) => last
  }

  /** Streams.clear, from slot `i` on */
  function ClearFrom(st: State, i: nat): (out: State)
    requires |st.slots| == SLOTS && i <= SLOTS
    ensures |out.slots| == SLOTS
    decreases SLOTS - i
  {
    if i == SLOTS then st
    else if !st.slots[i].running then ClearFrom(st, i + 1)
    else
      var closed := if st.slots[i].shuttingDown then st else CloseStream(st, i);
      ClearFrom(EndStream(closed, i), i + 1)
  }

  /** A whole connection. */
  function Run(env: Env, input: seq<Byte>): State {
    ClearFrom(Loop(env, Initial(), 0, input), 0)
  }
}
