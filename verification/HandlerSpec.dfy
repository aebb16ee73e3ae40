/**
 * What one server connection does, as a function of the concatenated input bytes:
 * application/command/handler.go, streams.go and fsm.go. The class in Handler.dfy is
 * proved to compute exactly this, however its input is cut into chunks.
 */
module HandlerSpec {
  import opened Bytes
  import opened Protocol

  /** stream and its FSM: `started` is a non-nil state, `machine` numbers the booted machine. */
  datatype Slot = Slot(started: bool, machine: nat, fsmClosed: bool, closed: bool)

  const EMPTY_SLOT := Slot(false, 0, false, false)

  /**
   * What the handler goroutine did, in order. `waits` on a write and `gateShut` on a machine
   * call record whether ordinary writes were suspended at that moment.
   */
  datatype Event =
    | Dispatched(h: Byte)
    | Wrote(bytes: seq<Byte>, waits: bool)
    | Booted(slot: SlotId, machine: nat, command: Command, payload: seq<Byte>, ok: bool)
    | Ticked(slot: SlotId, machine: nat, marker: Marker, payload: seq<Byte>, ok: bool)
    | MachineClosed(machine: nat, gateShut: bool)
    | MachineReleased(machine: nat, gateShut: bool)

  /**
   * Everything the code does not decide itself: which commands are registered, and, for the
   * k-th event, whether the call behind it succeeds and which error code a failed boot gives.
   */
  datatype Env = Env(registered: Command -> bool, ok: nat -> bool, code: nat -> InitialData)

  datatype State = State(
    slots: seq<Slot>,
    senderPaused: bool,
    needWait: bool,
    machines: nat,
    log: seq<Event>)
  {
    function Emit(e: Event): State {
      this.(log := log + [e])
    }

    function WithSlot(i: SlotId, s: Slot): State
      requires |slots| == SLOTS
    {
      this.(slots := slots[i := s])
    }

    /** Suspension lifted for one request while paused (`resume` with a deferred `pause`). */
    function Ungated(): State {
      if senderPaused then this.(needWait := false) else this
    }

    function Regated(): State {
      if senderPaused then this.(needWait := true) else this
    }
  }

  /** The end of a request while paused (the deferred `pause`), however it came out. */
  function Regated(o: Outcome<State>): Outcome<State> {
    match o
    case Next(st, rest) => Next(st.Regated(), rest)
    case Halt(st) => Halt(st.Regated())
  }

  /** newHandler */
  function Initial(): State {
    State(seq(SLOTS, i => EMPTY_SLOT), false, false, 0, [])
  }

  /** Slots stay 64 in number, and a request never gives input back. */
  ghost predicate KeepsShape(o: Outcome<State>, input: seq<Byte>) {
    |o.st.slots| == SLOTS && (o.Next? ==> |o.rest| <= |input|)
  }

  /** The state after a write, and whether the write succeeded. */
  function Write(env: Env, st: State, bytes: seq<Byte>, bypass: bool): (State, bool) {
    (st.Emit(Wrote(bytes, st.needWait && !bypass)), env.ok(|st.log|))
  }

  /** Goes on at `rest` after an ordinary write that succeeded, else halts. */
  function WriteThen(env: Env, st: State, bytes: seq<Byte>, rest: seq<Byte>): Outcome<State> {
    var (written, ok) := Write(env, st, bytes, false);
    if ok then Next(written, rest) else Halt(written)
  }

  function Control(env: Env, st: State, d: SlotId, input: seq<Byte>): (o: Outcome<State>)
    requires |st.slots| == SLOTS
    ensures KeepsShape(o, input)
  {
    if |input| < d || d == 0 then Halt(st) else
    var rest := input[d..];
    if input[0] == CONTROL_ECHO then
      var (written, ok) := Write(env, st, [HeaderByte(CONTROL, d)] + input[..d], st.senderPaused);
      if ok then Next(written, rest) else Halt(written)
    else if input[0] == CONTROL_PAUSE && !st.senderPaused then
      Next(st.(needWait := true, senderPaused := true), rest)
    else if input[0] == CONTROL_RESUME && st.senderPaused then
      Next(st.(needWait := false, senderPaused := false), rest)
    else
      Next(st, rest)
  }

  /**
   * Outcome<State> of booting a registered command whose machine is offered `payload`; input goes on
   * at `rest`.
   */
  function Boot(env: Env, st: State, h: Byte, command: Command, payload: seq<Byte>, rest: seq<Byte>)
      : (o: Outcome<State>)
    requires |st.slots| == SLOTS
    ensures KeepsShape(o, rest) && (o.Next? ==> o.rest == rest)
  {
    var ok := env.ok(|st.log|);
    var booted := st.Emit(Booted(DataOf(h), st.machines, command, payload, ok))
                    .(machines := st.machines + 1);
    if ok then
      WriteThen(env, booted.WithSlot(DataOf(h), Slot(true, st.machines, false, false)),
                [h] + InitialHeader(command, 0, true), rest)
    else
      // A failed reply is ignored.
      Next(Write(env, booted, [h] + InitialHeader(command, env.code(|st.log|), false), false).0, rest)
  }

  /** stream.reinit */
  function Reinit(env: Env, st: State, h: Byte, input: seq<Byte>): (o: Outcome<State>)
    requires |st.slots| == SLOTS
    ensures KeepsShape(o, input)
  {
    if |input| < 2 then Halt(st)
    else if !env.registered(InitialCommand(input[0])) then
      // The payload stays in the stream, and a failed reply is ignored.
      Next(Write(env, st, [h] + InitialHeader(0, 1, false), false).0, input[2..])
    else
      var n := InitialDataOf(input[0], input[1]);
      Boot(env, st, h, InitialCommand(input[0]), Take(input[2..], n), Drop(input[2..], n))
  }

  /** FSM.tick */
  function TickOn(env: Env, st: State, i: SlotId, marker: Marker, payload: seq<Byte>, rest: seq<Byte>)
      : (o: Outcome<State>)
    requires |st.slots| == SLOTS
    ensures KeepsShape(o, rest) && (o.Next? ==> o.rest == rest)
  {
    if st.slots[i].fsmClosed then Halt(st) else
    var ok := env.ok(|st.log|);
    var ticked := st.Emit(Ticked(i, st.slots[i].machine, marker, payload, ok));
    if ok then Next(ticked, rest) else Halt(ticked)
  }

  /** The machine is ticked with the next `n` bytes. */
  function TickMachine(env: Env, st: State, i: SlotId, marker: Marker, n: nat, input: seq<Byte>): (o: Outcome<State>)
    requires |st.slots| == SLOTS
    ensures KeepsShape(o, input)
  {
    TickOn(env, st, i, marker, Take(input, n), Drop(input, n))
  }

  /** stream.tick */
  function Tick(env: Env, st: State, h: Byte, input: seq<Byte>): (o: Outcome<State>)
    requires |st.slots| == SLOTS
    ensures KeepsShape(o, input)
  {
    if |input| < 2 then Halt(st)
    else TickMachine(env, st, DataOf(h), StreamMarker(input[0]), StreamLength(input[0], input[1]), input[2..])
  }

  function Stream(env: Env, st: State, h: Byte, input: seq<Byte>): (o: Outcome<State>)
    requires |st.slots| == SLOTS
    ensures KeepsShape(o, input)
  {
    if st.slots[DataOf(h)].started then Tick(env, st, h, input)
    else Regated(Reinit(env, st.Ungated(), h, input))
  }

  /** FSM.close */
  function CloseMachine(env: Env, st: State, i: SlotId): (r: (State, bool))
    requires |st.slots| == SLOTS
    ensures |r.0.slots| == SLOTS
  {
    (st.WithSlot(i, st.slots[i].(fsmClosed := true))
       .Emit(MachineClosed(st.slots[i].machine, st.needWait)),
     env.ok(|st.log|))
  }

  /** stream.close, for a started stream not closed before */
  function CloseStream(env: Env, st: State, i: SlotId): (r: (State, bool))
    requires |st.slots| == SLOTS
    ensures |r.0.slots| == SLOTS
  {
    CloseMachine(env, st.WithSlot(i, st.slots[i].(closed := true)), i)
  }

  /** FSM.release */
  function ReleaseStream(env: Env, st: State, i: SlotId): (r: (State, bool))
    requires |st.slots| == SLOTS
    ensures |r.0.slots| == SLOTS
  {
    var stopped := st.WithSlot(i, st.slots[i].(started := false));
    var closed := if st.slots[i].fsmClosed then stopped else CloseMachine(env, stopped, i).0;
    (closed.Emit(MachineReleased(closed.slots[i].machine, closed.needWait)), env.ok(|closed.log|))
  }

  function Close(env: Env, st: State, h: Byte, input: seq<Byte>): (o: Outcome<State>)
    requires |st.slots| == SLOTS
    ensures KeepsShape(o, input)
  {
    var slot := st.slots[DataOf(h)];
    if slot.started && slot.closed then Next(st, input)
    else if !slot.started then Halt(st.Ungated().Regated())
    else
      var (closed, ok) := CloseStream(env, st.Ungated(), DataOf(h));
      if !ok then Halt(closed.Regated())
      else Regated(WriteThen(env, closed, [HeaderByte(COMPLETED, DataOf(h))], input))
  }

  function Completed(env: Env, st: State, h: Byte, input: seq<Byte>): (o: Outcome<State>)
    requires |st.slots| == SLOTS
    ensures KeepsShape(o, input)
  {
    if !st.slots[DataOf(h)].started then Halt(st.Ungated().Regated())
    else
      var (released, ok) := ReleaseStream(env, st.Ungated(), DataOf(h));
      Regated(if ok then Next(released, input) else Halt(released))
  }

  /** One iteration of the dispatch loop, on the header byte `h` and the bytes after it. */
  function Step(env: Env, st: State, h: Byte, input: seq<Byte>): (o: Outcome<State>)
    requires |st.slots| == SLOTS
    ensures KeepsShape(o, input)
  {
    var seen := st.Emit(Dispatched(h));
    if TypeOf(h) == CONTROL then Control(env, seen, DataOf(h), input)
    else if TypeOf(h) == STREAM then Stream(env, seen, h, input)
    else if TypeOf(h) == CLOSE then Close(env, seen, h, input)
    else Completed(env, seen, h, input)
  }

  /** The dispatch loop, up to the first error or the end of the input. */
  function Loop(env: Env, st: State, input: seq<Byte>): (out: State)
    requires |st.slots| == SLOTS
    ensures |out.slots| == SLOTS
    decreases |input|
  {
    if input == [] then st else
    match Step(env, st, input[0], input[1..])
    case Next(next, rest) => Loop(env, next, rest)
    case Halt(last) => last
  }

  /** streams.shutdown, from slot `i` on */
  function ShutdownFrom(env: Env, st: State, i: nat): (out: State)
    requires |st.slots| == SLOTS && i <= SLOTS
    ensures |out.slots| == SLOTS
    decreases SLOTS - i
  {
    if i == SLOTS then st
    else if !st.slots[i].started then ShutdownFrom(env, st, i + 1)
    else
      var closed := if st.slots[i].closed then st else CloseStream(env, st, i).0;
      ShutdownFrom(env, ReleaseStream(env, closed, i).0, i + 1)
  }

  /** The deferred half of Handle: lift the pause, then shut every stream down. */
  function Finish(env: Env, st: State): (out: State)
    requires |st.slots| == SLOTS
    ensures |out.slots| == SLOTS
  {
    ShutdownFrom(env, if st.senderPaused then st.(needWait := false, senderPaused := false) else st, 0)
  }

  /** A whole connection. */
  function Run(env: Env, input: seq<Byte>): State {
    Finish(env, Loop(env, Initial(), input))
  }
}
