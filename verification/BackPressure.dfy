/**
 * When the client asks the server to pause and to go on: the accounting of Socket.get in
 * ui/socket.js over the messages its WebSocket brings.
 */
module BackPressure {
  import opened Bytes

  const RECEIVE_TO_PAUSE_FACTOR := 6
  const MIN_RECEIVED_TO_PAUSE := 1024 * 16

  /** Before the stream handler exists, while it does, and after it was cleared. */
  datatype Phase = Dialing | Serving | Over

  datatype Signal = Pause | Resume

  /** `waiting`: the sizes of the messages received and not converted yet, oldest first. */
  datatype State = State(received: nat, unpacked: nat, paused: bool, phase: Phase,
                         waiting: seq<nat>, sent: seq<Signal>)

  const START := State(0, 0, false, Dialing, [], [])

  predicate ShouldPause(received: nat, unpacked: nat) {
    received > MIN_RECEIVED_TO_PAUSE && received > unpacked * RECEIVE_TO_PAUSE_FACTOR
  }

  datatype Action = Inbound(size: nat) | Unpack | Establish | Clear

  predicate Enabled(st: State, a: Action) {
    match a
    case Inbound(_) => true
    case Unpack => st.waiting != []
    case Establish => st.phase.Dialing?
    case Clear => st.phase.Serving?
  }

  /** inboundUnpacked, for the oldest message */
  function Unpacked(st: State): State
    requires st.waiting != []
  {
    var total := st.unpacked + st.waiting[0];
    var counted := st.(waiting := st.waiting[1..],
                       received := if total >= st.received then 0 else st.received,
                       unpacked := if total >= st.received then 0 else total);
    var should := ShouldPause(counted.received, counted.unpacked);
    if !st.phase.Serving? || st.paused == should then counted
    else counted.(paused := should, sent := st.sent + [if should then Pause else Resume])
  }

  function Act(st: State, a: Action): State
    requires Enabled(st, a)
  {
    match a
    case Inbound(size) => st.(received := st.received + size, waiting := st.waiting + [size])
    case Unpack => Unpacked(st)
    case Establish => st.(phase := Serving)
    case Clear => st.(phase := Over)
  }

  /** The closures of Socket.get and the variables they share. */
  class Accounting {
    var currentReceived: nat
    var currentUnpacked: nat
    var streamPaused: bool
    var serving: bool
    var sent: seq<Signal>

    constructor ()
      ensures currentReceived == currentUnpacked == 0 && !streamPaused && !serving && sent == []
    {
      currentReceived, currentUnpacked, streamPaused, serving, sent := 0, 0, false, false, [];
    }

    /** The variables are those of `st`. */
    ghost predicate Is(st: State)
      reads this
    {
      currentReceived == st.received && currentUnpacked == st.unpacked && streamPaused == st.paused
      && serving == st.phase.Serving? && sent == st.sent
    }

    method Inbound(size: nat, ghost st: State)
      requires Is(st)
      modifies this
      ensures Is(Act(st, Action.Inbound(size)))
    {
      currentReceived := currentReceived + size;
    }

    method InboundUnpacked(length: nat, ghost st: State)
      requires Is(st) && st.waiting != [] && length == st.waiting[0]
      modifies this
      ensures Is(Act(st, Unpack))
    {
      currentUnpacked := currentUnpacked + length;
      if currentUnpacked >= currentReceived {
        currentUnpacked := 0;
        currentReceived := 0;
      }
      if serving {
        if streamPaused && !ShouldPause(currentReceived, currentUnpacked) {
          streamPaused := false;
          sent := sent + [Resume];
        } else if !streamPaused && ShouldPause(currentReceived, currentUnpacked) {
          streamPaused := true;
          sent := sent + [Pause];
        }
      }
    }
  }

  // ---------- All runs ----------

  function Sum(sizes: seq<nat>): nat {
    if sizes == [] then 0 else sizes[0] + Sum(sizes[1..])
  }

  lemma {:induction false} SumSnoc(sizes: seq<nat>, n: nat)
    ensures Sum(sizes + [n]) == Sum(sizes) + n
  {
    if sizes == [] {
      assert sizes + [n] == [n] && [n][1..] == [];
    } else {
      assert (sizes + [n])[1..] == sizes[1..] + [n];
      SumSnoc(sizes[1..], n);
    }
  }

  /** Signals alternate, the first being a pause; `paused` is what the last one asked for. */
  predicate Alternating(sent: seq<Signal>, paused: bool) {
    (forall k :: 0 <= k < |sent| ==> sent[k] == if k % 2 == 0 then Pause else Resume)
    && paused == (|sent| % 2 == 1)
  }

  predicate Inv(st: State) {
    && st.received == st.unpacked + Sum(st.waiting)
    && Alternating(st.sent, st.paused)
    && (st.phase.Dialing? ==> !st.paused)
    && (st.phase.Serving? && st.paused ==> ShouldPause(st.received, st.unpacked))
  }

  lemma {:induction false} ActKeepsInv(st: State, a: Action)
    requires Inv(st) && Enabled(st, a)
    ensures Inv(Act(st, a))
  {
    match a
    case Inbound(size) => SumSnoc(st.waiting, size);
    case _ =>
  }

  ghost predicate Runs(st: State, run: seq<Action>)
    decreases |run|
  {
    run == [] || (Enabled(st, run[0]) && Runs(Act(st, run[0]), run[1..]))
  }

  ghost function After(st: State, run: seq<Action>): State
    requires Runs(st, run)
    decreases |run|
  {
    if run == [] then st else After(Act(st, run[0]), run[1..])
  }

  lemma {:induction false} RunKeepsInv(st: State, run: seq<Action>)
    requires Inv(st) && Runs(st, run)
    ensures Inv(After(st, run))
    decreases |run|
  {
    if run == [] {
    } else {
      ActKeepsInv(st, run[0]);
      RunKeepsInv(Act(st, run[0]), run[1..]);
    }
  }

  /**
   * The two counters differ by exactly the bytes still to be converted, pauses and resumes
   * alternate, and while a pause is in force most of what was received still waits: so something
   * is left whose conversion will look at the pause again.
   */
  predicate Accounted(st: State) {
    && st.received - st.unpacked == Sum(st.waiting)
    && Alternating(st.sent, st.paused)
    && (st.phase.Serving? && st.paused ==>
          st.waiting != []
          && Sum(st.waiting) * RECEIVE_TO_PAUSE_FACTOR > st.received * (RECEIVE_TO_PAUSE_FACTOR - 1) > 0)
  }

  lemma {:induction false} InvAccounts(st: State)
    requires Inv(st)
    ensures Accounted(st)
  {
  }

  lemma {:induction false} EveryRunIsAccounted(run: seq<Action>)
    requires Runs(START, run)
    ensures Accounted(After(START, run))
  {
    RunKeepsInv(START, run);
    InvAccounts(After(START, run));
  }

  // ---------- When a pause must come ----------

  /** The sizes of all messages a run brings. */
  function Brought(run: seq<Action>): seq<nat> {
    if run == [] then []
    else Brought(run[..|run| - 1]) + if run[|run| - 1].Inbound? then [run[|run| - 1].size] else []
  }

  /** How many of them it converts, the oldest first. */
  function Conversions(run: seq<Action>): nat {
    if run == [] then 0 else Conversions(run[..|run| - 1]) + if run[|run| - 1].Unpack? then 1 else 0
  }

  /** The bytes a whole run receives, and those of them it converts. */
  function Received(run: seq<Action>): nat { Sum(Brought(run)) }

  function Converted(run: seq<Action>): nat { Sum(Brought(run)[..Min(Conversions(run), |Brought(run)|)]) }

  /** What was received when a conversion last caught up with it: both counters start over there. */
  function CaughtUp(run: seq<Action>): nat {
    if run == [] then 0
    else if run[|run| - 1].Unpack? && Converted(run) == Received(run) then Received(run)
    else CaughtUp(run[..|run| - 1])
  }

  /** There is a stream handler. */
  predicate Serves(run: seq<Action>) {
    Establish in run && Clear !in run
  }

  lemma {:induction false} SumAppend(a: seq<nat>, b: seq<nat>)
    ensures Sum(a + b) == Sum(a) + Sum(b)
    decreases |b|
  {
    if b == [] {
      assert a + b == a;
    } else {
      SumSnoc(a, b[0]);
      SumAppend(a + [b[0]], b[1..]);
      assert a + [b[0]] + b[1..] == a + b;
    }
  }

  lemma {:induction false} RunsSnoc(st: State, run: seq<Action>, a: Action)
    requires Runs(st, run + [a])
    ensures Runs(st, run) && Enabled(After(st, run), a)
    ensures After(st, run + [a]) == Act(After(st, run), a)
    decreases |run|
  {
    if run == [] {
      assert run + [a] == [a] && [a][1..] == [];
    } else {
      assert (run + [a])[0] == run[0] && (run + [a])[1..] == run[1..] + [a];
      RunsSnoc(Act(st, run[0]), run[1..], a);
    }
  }

  /** The variables in terms of the run. */
  predicate Counted(st: State, run: seq<Action>) {
    && Conversions(run) <= |Brought(run)| && st.waiting == Brought(run)[Conversions(run)..]
    && st.received == Received(run) - CaughtUp(run) && st.unpacked == Converted(run) - CaughtUp(run)
    && (st.phase.Serving? <==> Serves(run)) && (st.phase.Over? <==> Clear in run)
    && (st.phase.Dialing? ==> Establish !in run)
  }

  lemma {:induction false} LastOf(run: seq<Action>, a: Action)
    ensures (run + [a])[..|run|] == run && (run + [a])[|run|] == a
    ensures Serves(run + [a]) <==> (Establish in run || a.Establish?) && Clear !in run && !a.Clear?
    ensures Clear in run + [a] <==> Clear in run || a.Clear?
    ensures Establish in run + [a] <==> Establish in run || a.Establish?
  {
  }

  lemma {:induction false} InboundCounts(st: State, run: seq<Action>, n: nat)
    requires Counted(st, run)
    ensures Counted(Act(st, Inbound(n)), run + [Inbound(n)])
  {
    LastOf(run, Inbound(n));
    SumSnoc(Brought(run), n);
    var all, k := Brought(run), Conversions(run);
    assert (all + [n])[..k] == all[..k] && (all + [n])[k..] == all[k..] + [n];
  }

  lemma {:induction false} UnpackCounts(st: State, run: seq<Action>)
    requires Counted(st, run) && st.waiting != []
    ensures Counted(Unpacked(st), run + [Unpack])
    ensures Converted(run + [Unpack]) == Converted(run) + st.waiting[0] <= Received(run + [Unpack]) == Received(run)
  {
    LastOf(run, Unpack);
    var all, k := Brought(run), Conversions(run);
    assert Brought(run + [Unpack]) == all + [] == all;
    assert all[..k + 1] == all[..k] + [all[k]] && all == all[..k + 1] + all[k + 1..];
    SumSnoc(all[..k], all[k]);
    SumAppend(all[..k + 1], all[k + 1..]);
    assert st.waiting[1..] == all[k + 1..];
  }

  lemma {:induction false} ActCounts(st: State, run: seq<Action>, a: Action)
    requires Counted(st, run) && Enabled(st, a)
    ensures Counted(Act(st, a), run + [a])
  {
    match a
    case Inbound(n) => InboundCounts(st, run, n);
    case Unpack => UnpackCounts(st, run);
    case Establish => LastOf(run, a); assert Brought(run) + [] == Brought(run);
    case Clear => LastOf(run, a); assert Brought(run) + [] == Brought(run);
  }

  lemma {:induction false} RunCounts(run: seq<Action>)
    requires Runs(START, run)
    ensures Counted(After(START, run), run)
  {
    if run == [] {
    } else {
      var n := |run| - 1;
      assert run == run[..n] + [run[n]];
      RunsSnoc(START, run[..n], run[n]);
      RunCounts(run[..n]);
      ActCounts(After(START, run[..n]), run[..n], run[n]);
    }
  }

  /**
   * A pause comes when it is due, and only then. Let `r` be what a run received since a conversion last
   * caught up, and `u` what it converted since. A conversion under a stream handler leaves the client
   * paused if and only if `r` is more than 16 KiB and more than six times `u`; where that changes
   * anything, it sends one signal for it. No other step pauses, resumes or sends.
   */
  lemma {:induction false} PausesExactlyWhenDue(run: seq<Action>, a: Action)
    requires Runs(START, run + [a])
    ensures Runs(START, run)
    ensures var before, after := After(START, run), After(START, run + [a]);
            var r := Received(run + [a]) - CaughtUp(run + [a]);
            var u := Converted(run + [a]) - CaughtUp(run + [a]);
            var due := if a.Unpack? && Serves(run) then r > 16384 && r > 6 * u else before.paused;
            && after.paused == due
            && after.sent == before.sent + if due == before.paused then [] else if due then [Pause] else [Resume]
  {
    RunsSnoc(START, run, a);
    RunCounts(run);
    RunCounts(run + [a]);
    var before := After(START, run);
    assert before.sent + [] == before.sent;
    if a.Unpack? {
      UnpackedSignals(before);
    }
  }

  lemma {:induction false} UnpackedSignals(st: State)
    requires st.waiting != []
    ensures var after := Unpacked(st);
            var due := if st.phase.Serving? then after.received > 16384 && after.received > 6 * after.unpacked
                       else st.paused;
            && after.paused == due
            && after.sent == st.sent + if due == st.paused then [] else if due then [Pause] else [Resume]
  {
    assert st.sent + [] == st.sent;
  }

  /** Converts all that waits. */
  function Drained(st: State): State
    decreases |st.waiting|
  {
    if st.waiting == [] then st else Drained(Unpacked(st))
  }

  /** A pause never outlives the messages: converting what waits lifts it, with a resume as the last signal. */
  lemma {:induction false} DrainingResumes(st: State)
    requires Inv(st) && st.phase.Serving?
    ensures Drained(st).waiting == [] && Drained(st).phase.Serving? && Inv(Drained(st)) && !Drained(st).paused
    ensures st.paused ==> |Drained(st).sent| > |st.sent| && Drained(st).sent[|Drained(st).sent| - 1] == Resume
    decreases |st.waiting|
  {
    if st.waiting == [] {
    } else {
      ActKeepsInv(st, Unpack);
      DrainingResumes(Unpacked(st));
      SentGrows(Unpacked(st));
    }
  }

  lemma {:induction false} SentGrows(st: State)
    ensures st.sent <= Drained(st).sent
    decreases |st.waiting|
  {
    if st.waiting == [] {
    } else {
      SentGrows(Unpacked(st));
    }
  }
}
