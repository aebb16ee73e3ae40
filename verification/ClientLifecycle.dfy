/**
 * Every command a client starts runs its course: answered at most once, ticked only between a
 * good answer and its close, closed once, then ended once, on every connection however it ends.
 */
module ClientLifecycle {
  import opened Bytes
  import opened Protocol
  import opened ClientSpec

  /** Where the latest command of a slot stands; `Broken`: something came out of order. */
  datatype Phase = Idle | Opening | Talking | Closing | Broken

  function After(p: Phase, e: Event, i: SlotId): Phase {
    match e
    case Requested(s, _) => if s != i then p else if p.Idle? then Opening else Broken
    case Unsent(s, _) => if s != i then p else if p.Idle? then Opening else Broken
    case Initialized(s, success, _, ok) =>
      if s != i then p
      else if !p.Opening? then Broken
      else if !ok then Opening
      else if success then Talking else Idle
    case Ticked(s, _, _, _) => if s != i || p.Talking? then p else Broken
    case Closed(s) => if s != i then p else if p.Opening? || p.Talking? then Closing else Broken
    case Acknowledged(s) => if s != i || p.Closing? then p else Broken
    case Ended(s) => if s != i then p else if p.Closing? then Idle else Broken
    case _ => p
  }

  function PhaseIn(log: seq<Event>, i: SlotId): Phase {
    if log == [] then Idle else After(PhaseIn(log[..|log| - 1], i), log[|log| - 1], i)
  }

  function PhaseOf(s: Slot): Phase {
    if !s.running then Idle else if s.shuttingDown then Closing else if s.initializing then Opening else Talking
  }

  /** The bits of every slot say where its command stands. */
  ghost predicate Tracks(st: State) {
    |st.slots| == SLOTS && forall i: SlotId :: PhaseIn(st.log, i) == PhaseOf(st.slots[i])
  }

  lemma {:induction false} PhaseSnoc(log: seq<Event>, e: Event, i: SlotId)
    ensures PhaseIn(log + [e], i) == After(PhaseIn(log, i), e, i)
  {
    assert (log + [e])[..|log|] == log;
  }

  /** A slot and the log move together, one event at a time. */
  lemma {:induction false} Moves(st: State, e: Event, i: SlotId, s: Slot)
    requires Tracks(st) && After(PhaseOf(st.slots[i]), e, i) == PhaseOf(s)
    requires forall j: SlotId, p :: j != i ==> After(p, e, j) == p
    ensures Tracks(st.WithSlot(i, s).Emit(e))
  {
    forall j: SlotId ensures PhaseIn(st.log + [e], j) == PhaseOf(st.slots[i := s][j]) {
      PhaseSnoc(st.log, e, j);
    }
  }

  lemma {:induction false} Stays(st: State, e: Event)
    requires Tracks(st) && forall j: SlotId :: After(PhaseOf(st.slots[j]), e, j) == PhaseOf(st.slots[j])
    ensures Tracks(st.Emit(e))
  {
    forall j: SlotId ensures PhaseIn(st.log + [e], j) == PhaseOf(st.slots[j]) {
      PhaseSnoc(st.log, e, j);
    }
  }

  lemma {:induction false} AskTracks(st: State, r: Request)
    requires Tracks(st)
    ensures Tracks(Ask(st, r))
  {
    var i := FirstIdle(st.slots, 0);
    if i < SLOTS {
      Moves(st, if r.Sends() then Requested(i, r) else Unsent(i, r), i, Slot(true, true, false));
    }
  }

  /**
   * A request takes the first idle slot for a command that waits for its answer; it is sent unless the
   * command throws, or its data is longer than eleven bits can say. With no slot idle nothing happens.
   */
  lemma {:induction false} RequestTakesFirstIdle(st: State, r: Request, i: nat)
    requires |st.slots| == SLOTS && i <= SLOTS && forall j :: 0 <= j < i ==> st.slots[j].running
    requires i < SLOTS ==> !st.slots[i].running
    ensures i == SLOTS ==> Ask(st, r) == st
    ensures i < SLOTS ==>
              var sent := r.data.Some? && |r.data.value| < 2048;
              Ask(st, r) == st.(slots := st.slots[i := Slot(true, true, false)],
                                log := st.log + [if sent then Requested(i, r) else Unsent(i, r)])
  {
    assert FirstIdle(st.slots, 0) == i;
  }

  lemma {:induction false} AskAllTracks(st: State, rs: seq<Request>)
    requires Tracks(st)
    ensures Tracks(AskAll(st, rs))
    decreases |rs|
  {
    if rs == [] {
    } else {
      AskTracks(st, rs[0]);
      AskAllTracks(Ask(st, rs[0]), rs[1..]);
    }
  }

  lemma {:induction false} EchoTracks(st: State, data: seq<Byte>)
    requires Tracks(st)
    ensures Tracks(EchoResolved(st, data))
  {
    Stays(st, EchoFailed);
    Stays(if st.lastEcho.Some? then st.Emit(EchoFailed) else st, EchoAwaited(data));
  }

  lemma {:induction false} PrepareTracks(env: Env, st: State, k: nat)
    requires Tracks(st)
    ensures Tracks(Prepare(env, st, k))
  {
    match env.echo(k)
    case Some(data) =>
      EchoTracks(st, data);
      AskAllTracks(EchoResolved(st, data), env.requests(k));
    case None => AskAllTracks(st, env.requests(k));
  }

  lemma {:induction false} StreamTracks(env: Env, st: State, i: SlotId, input: seq<Byte>)
    requires Tracks(st)
    ensures Tracks(Stream(env, st, i, input).st)
  {
    var slot := st.slots[i];
    if slot.running && |input| >= 2 && !slot.shuttingDown {
      var ok := env.ok(|st.log|);
      if slot.initializing {
        var success, data := InitialSuccess(input[0]), InitialDataOf(input[0], input[1]);
        var next := if !ok then slot else if success then slot.(initializing := false) else IDLE;
        Moves(st, Initialized(i, success, data, ok), i, next);
        assert st.slots[i := slot] == st.slots;
      } else {
        var n := StreamLength(input[0], input[1]);
        Stays(st, Ticked(i, StreamMarker(input[0]), Take(input[2..], n), ok));
      }
    }
  }

  lemma {:induction false} CloseStreamTracks(st: State, i: SlotId)
    requires Tracks(st) && st.slots[i].running && !st.slots[i].shuttingDown
    ensures Tracks(CloseStream(st, i))
  {
    Moves(st, Closed(i), i, st.slots[i].(shuttingDown := true));
  }

  lemma {:induction false} EndStreamTracks(st: State, i: SlotId)
    requires Tracks(st) && st.slots[i].running && st.slots[i].shuttingDown
    ensures Tracks(EndStream(st, i))
  {
    Moves(st, Ended(i), i, IDLE);
  }

  lemma {:induction false} ControlTracks(st: State, d: SlotId, input: seq<Byte>)
    requires Tracks(st)
    ensures Tracks(Control(st, d, input).st)
  {
    Stays(st, EchoMatched);
    Stays(st, EchoFailed);
  }

  lemma {:induction false} StepTracks(env: Env, st: State, h: Byte, input: seq<Byte>)
    requires Tracks(st)
    ensures Tracks(Step(env, st, h, input).st)
  {
    var i := DataOf(h);
    if TypeOf(h) == CONTROL {
      ControlTracks(st, i, input);
    } else if TypeOf(h) == STREAM {
      StreamTracks(env, st, i, input);
    } else if TypeOf(h) == CLOSE {
      if st.slots[i].running && !st.slots[i].shuttingDown {
        CloseStreamTracks(st, i);
        Stays(CloseStream(st, i), Acknowledged(i));
      }
    } else if st.slots[i].running && st.slots[i].shuttingDown {
      EndStreamTracks(st, i);
    }
  }

  lemma {:induction false} LoopSteps(env: Env, st: State, k: nat, input: seq<Byte>, o: Outcome<State>)
    requires |st.slots| == SLOTS && input != [] && o == Step(env, Prepare(env, st, k), input[0], input[1..])
    ensures Loop(env, st, k, input) == if o.Next? then Loop(env, o.st, k + 1, o.rest) else o.st
  {
  }

  lemma {:induction false} LoopTracks(env: Env, st: State, k: nat, input: seq<Byte>)
    requires Tracks(st)
    ensures Tracks(Loop(env, st, k, input))
    decreases |input|
  {
    var ready := Prepare(env, st, k);
    PrepareTracks(env, st, k);
    if input == [] {
    } else {
      var o := Step(env, ready, input[0], input[1..]);
      StepTracks(env, ready, input[0], input[1..]);
      LoopSteps(env, st, k, input, o);
      if o.Next? {
        LoopTracks(env, o.st, k + 1, o.rest);
      }
    }
  }

  lemma {:induction false} ClearTracks(st: State, i: nat)
    requires Tracks(st) && i <= SLOTS && forall j :: 0 <= j < i ==> !st.slots[j].running
    ensures Tracks(ClearFrom(st, i)) && forall j: SlotId :: !ClearFrom(st, i).slots[j].running
    decreases SLOTS - i
  {
    if i == SLOTS {
    } else {
      if !st.slots[i].running {
        ClearTracks(st, i + 1);
      } else {
        var closed := if st.slots[i].shuttingDown then st else CloseStream(st, i);
        if !st.slots[i].shuttingDown { CloseStreamTracks(st, i); }
        EndStreamTracks(closed, i);
        ClearTracks(EndStream(closed, i), i + 1);
      }
    }
  }

  /**
   * On every connection, whatever comes in and whatever users and commands do: at no moment does
   * a command see anything out of order, and when the connection is over none is left open.
   */
  lemma {:induction false} EveryCommandRunsItsCourse(env: Env, input: seq<Byte>, n: nat, i: SlotId)
    requires n <= |Run(env, input).log|
    ensures PhaseIn(Run(env, input).log[..n], i) != Broken
    ensures PhaseIn(Run(env, input).log, i) == Idle
  {
    assert Tracks(Initial());
    LoopTracks(env, Initial(), 0, input);
    ClearTracks(Loop(env, Initial(), 0, input), 0);
    if PhaseIn(Run(env, input).log[..n], i) == Broken {
      BrokenForGood(Run(env, input).log, n, i);
    }
  }

  lemma {:induction false} BrokenForGood(log: seq<Event>, n: nat, i: SlotId)
    requires n <= |log| && PhaseIn(log[..n], i) == Broken
    ensures PhaseIn(log, i) == Broken
  {
    if n < |log| {
      assert log[..|log| - 1][..n] == log[..n];
      BrokenForGood(log[..|log| - 1], n, i);
    } else {
      assert log[..n] == log;
    }
  }
}
