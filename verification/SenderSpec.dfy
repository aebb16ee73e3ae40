/**
 * The coalescing sender of ui/stream/sender.js as a step system. A step is what the source does
 * between two awaits; promises, timers and the transport act in any order between steps.
 */
module SenderSpec {
  import opened Bytes

  /** What travels through the channel: a send, a flush (`answer`: of a promise), or the end. */
  datatype Item = Send(id: nat, data: seq<Byte>) | Flush(answer: bool) | Stop

  /** Where the `sending` loop resumes when the transport is done with a segment. */
  datatype Resume = AfterFlush(answer: bool) | AfterFull(id: nat, rest: seq<Byte>)

  /** The `sending` loop: at its subscription, inside a transport call, or ended by an exception. */
  datatype Loop = Subscribed | Transmitting(segment: seq<Byte>, resume: Resume) | Ended

  /** A segment handed to the transport, and whether the transport took it. */
  datatype Segment = Segment(bytes: seq<Byte>, ok: bool)

  datatype Config = Config(maxSegSize: nat, maxBufferedRequests: nat)

  datatype State = State(
    queue: seq<Item>,
    buffer: seq<Byte>,
    bufferedRequests: nat,
    timer: bool,
    closed: bool,
    loop: Loop,
    callbacks: seq<nat>,
    flushAnswered: bool,
    // The record of what happened: all data passed to `send`, all segments, all promises settled.
    accepted: seq<seq<Byte>>,
    segments: seq<Segment>,
    settled: map<nat, bool>)

  const START := State([], [], 0, false, false, Subscribed, [], false, [], [], map[])

  /** `send`, on a sender that is not closed */
  function SendData(cfg: Config, st: State, data: seq<Byte>): State {
    var sent := st.(queue := st.queue + [Send(|st.accepted|, data)], accepted := st.accepted + [data]);
    if st.bufferedRequests + 1 >= cfg.maxBufferedRequests then
      sent.(timer := false, bufferedRequests := 0, queue := sent.queue + [Flush(false)])
    else
      sent.(timer := true, bufferedRequests := st.bufferedRequests + 1)
  }

  /** The flush timer fires. */
  function Fire(st: State): State {
    st.(timer := false, bufferedRequests := 0, queue := st.queue + [Flush(false)])
  }

  /** `close`, up to the await of its flush */
  function Close(st: State): State {
    if st.closed then st else st.(closed := true, timer := false, queue := st.queue + [Flush(true)])
  }

  /** `close`, after its flush was answered */
  function Closed(st: State): State {
    st.(buffer := [], bufferedRequests := 0, queue := st.queue + [Stop])
  }

  /** One round of the loop that copies a send into the buffer. */
  function Fill(cfg: Config, st: State, id: nat, data: seq<Byte>): State {
    if data == [] then st.(loop := Subscribed) else
    var n := Min(|data|, if |st.buffer| < cfg.maxSegSize then cfg.maxSegSize - |st.buffer| else 0);
    var full := st.buffer + data[..n];
    if |full| < cfg.maxSegSize then st.(buffer := full, loop := Subscribed)
    else st.(buffer := [], bufferedRequests := 0, loop := Transmitting(full, AfterFull(id, data[n..])))
  }

  /** The `sending` loop takes the next item of the channel and runs to its next await. */
  function TakeItem(cfg: Config, st: State): State
    requires st.loop.Subscribed? && st.queue != []
  {
    var taken := st.(queue := st.queue[1..]);
    match st.queue[0]
    case Flush(answer) =>
      if st.buffer == [] then taken.(flushAnswered := st.flushAnswered || answer)
      else taken.(buffer := [], bufferedRequests := 0, loop := Transmitting(st.buffer, AfterFlush(answer)))
    case Send(id, data) => Fill(cfg, taken.(callbacks := st.callbacks + [id]), id, data)
    case Stop => taken.(loop := Ended)
  }

  /** Settling a promise that is settled already has no effect. */
  function Settle(settled: map<nat, bool>, ids: seq<nat>, how: bool): map<nat, bool> {
    map k | k in settled.Keys + (set i | i in ids) :: if k in settled then settled[k] else how
  }

  /** The segment went out, or not, and all promises are settled. */
  function AllSettled(st: State, ok: bool): State
    requires st.loop.Transmitting?
  {
    st.(segments := st.segments + [Segment(st.loop.segment, ok)],
        settled := Settle(st.settled, st.callbacks, ok), callbacks := [], loop := Subscribed)
  }

  /** The same when send `id` still has bytes to go: a success does not settle it yet. */
  function MostSettled(st: State, ok: bool, id: nat): State
    requires st.loop.Transmitting?
  {
    var due := if ok && st.callbacks != [] then st.callbacks[..|st.callbacks| - 1] else st.callbacks;
    st.(segments := st.segments + [Segment(st.loop.segment, ok)],
        settled := Settle(st.settled, due, ok), callbacks := [id])
  }

  /** The transport is done with the segment: promises are settled and the loop goes on. */
  function Transmitted(cfg: Config, st: State, ok: bool): State
    requires st.loop.Transmitting?
  {
    match st.loop.resume
    case AfterFlush(answer) => AllSettled(st, ok).(flushAnswered := st.flushAnswered || answer)
    case AfterFull(id, rest) =>
      if rest == [] then AllSettled(st, ok) else Fill(cfg, MostSettled(st, ok, id), id, rest)
  }

  datatype Action = DoSend(data: seq<Byte>) | DoFire | DoClose | DoClosed | DoTake | DoTransmitted(ok: bool)

  predicate Enabled(st: State, a: Action) {
    match a
    case DoSend(data) => !st.closed && data != []
    case DoFire => st.timer
    case DoClose => true
    case DoClosed => st.closed && st.flushAnswered && Stop !in st.queue && !st.loop.Ended?
    case DoTake => st.loop.Subscribed? && st.queue != []
    case DoTransmitted(_) => st.loop.Transmitting?
  }

  function Act(cfg: Config, st: State, a: Action): State
    requires Enabled(st, a)
  {
    match a
    case DoSend(data) => SendData(cfg, st, data)
    case DoFire => Fire(st)
    case DoClose => Close(st)
    case DoClosed => Closed(st)
    case DoTake => TakeItem(cfg, st)
    case DoTransmitted(ok) => Transmitted(cfg, st, ok)
  }
}
