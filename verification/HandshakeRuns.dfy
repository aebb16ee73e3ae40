/** Runs of the step system of CloseHandshake to the states that its lemmas about exceptions speak of. */
module HandshakeRuns {
  import opened Bytes
  import opened CloseHandshake

  /** An orderly run from `n` free slots ends in `w`. */
  ghost predicate Reached(n: nat, w: World) {
    exists run :: Runs(Start(n), run) && OrderlyRun(Start(n), run) && After(Start(n), run) == w
  }

  lemma {:induction false} RunGoesOn(w: World, run: seq<Action>, a: Action)
    requires Runs(w, run) && OrderlyRun(w, run) && Enabled(After(w, run), a) && Orderly(After(w, run), a)
    ensures Runs(w, run + [a]) && OrderlyRun(w, run + [a]) && After(w, run + [a]) == Act(After(w, run), a)
    decreases |run|
  {
    if run == [] {
      assert [] + [a] == [a] && [a][1..] == [];
    } else {
      assert (run + [a])[0] == run[0] && (run + [a])[1..] == run[1..] + [a];
      RunGoesOn(Act(w, run[0]), run[1..], a);
    }
  }

  lemma {:induction false} ReachesNext(n: nat, w: World, a: Action) returns (next: World)
    requires Reached(n, w) && Enabled(w, a) && Orderly(w, a)
    ensures next == Act(w, a) && Reached(n, next)
  {
    next := Act(w, a);
    var run :| Runs(Start(n), run) && OrderlyRun(Start(n), run) && After(Start(n), run) == w;
    RunGoesOn(Start(n), run, a);
  }

  /** One slot, its two ends, and what is under way. */
  function One(c: Client, s: Server, up: seq<Msg>, down: seq<Msg>, waiting: Option<nat>): World {
    World([c], [s], up, down, waiting, false, false, false)
  }

  /** The client's slot in session `life`, with segments still to send. */
  function Open(pending: nat, life: nat, leftover: nat): Client {
    Client(true, false, false, false, pending, life, leftover, false)
  }

  // ---------- A slot is opened ----------

  lemma {:induction false} Started() returns (w: World)
    ensures Reached(1, w) && w == One(FRESH, Server(false, false, false, 0), [], [], None)
  {
    w := Start(1);
    assert Runs(w, []) && OrderlyRun(w, []) && After(w, []) == w;
  }

  lemma {:induction false} Asked() returns (w: World)
    ensures Reached(1, w)
    ensures w == One(Open(0, 1, 0).(initializing := true), Server(false, false, false, 0),
                     [Msg(0, Kind.Open, 1)], [], None)
  {
    w := Started();
    w := ReachesNext(1, w, Request(0, true));
  }

  lemma {:induction false} Answered() returns (w: World)
    ensures Reached(1, w)
    ensures w == One(Open(0, 1, 0).(initializing := true), Server(true, false, true, 1),
                     [], [Msg(0, Booted, 1)], None)
  {
    w := Asked();
    w := ReachesNext(1, w, ServerTakes(true));
  }

  /** One slot, open at both ends. */
  lemma {:induction false} Opened() returns (w: World)
    ensures Reached(1, w) && w == One(Open(0, 1, 0), Server(true, false, true, 1), [], [], None)
  {
    w := Answered();
    w := ReachesNext(1, w, ClientTakes);
  }

  /** ... with a second segment of a `sendData` call still to send. */
  lemma {:induction false} MidCall() returns (w: World)
    ensures Reached(1, w)
    ensures w == One(Open(1, 1, 0), Server(true, false, true, 1), [Msg(0, Data, 1)], [], None)
  {
    w := Opened();
    w := ReachesNext(1, w, SendData(0, 1));
  }

  /** The user closes between two segments: the next one ends the connection. */
  lemma {:induction false} RefusalHappens() returns (w: World)
    ensures Reached(1, w) && Enabled(w, NextSegment(0)) && w.clients[0].senderClosed && !w.clients[0].shuttingDown
  {
    w := MidCall();
    w := ReachesNext(1, w, UserClose(0));
  }

  // ---------- The server closes between two segments ----------

  /** The client's slot after the Close of the machine. */
  function Closed(pending: nat): Client {
    Open(pending, 1, 0).(shuttingDown := true, senderClosed := true)
  }

  /** The machine ends. */
  lemma {:induction false} MachineEnded() returns (w: World)
    ensures Reached(1, w)
    ensures w == One(Open(1, 1, 0), Server(true, false, false, 1), [Msg(0, Data, 1)], [Msg(0, Close, 1)], None)
  {
    w := MidCall();
    w := ReachesNext(1, w, MachineExits(0));
  }

  /** The client answers the Close of the machine. */
  lemma {:induction false} ClosedByServer() returns (w: World)
    ensures Reached(1, w)
    ensures w == One(Closed(1), Server(true, false, false, 1),
                     [Msg(0, Data, 1), Msg(0, Close, 1), Msg(0, Completed, 1)], [], None)
  {
    w := MachineEnded();
    assert Msgs(0, [Close, Completed], 1) == [Msg(0, Close, 1), Msg(0, Completed, 1)];
    assert ClientReceives(Open(1, 1, 0), Close, 1) == Reaction(Closed(1), [Close, Completed], Takes);
    w := ReachesNext(1, w, ClientTakes);
  }

  /** The server takes the data ... */
  lemma {:induction false} DataServed() returns (w: World)
    ensures Reached(1, w)
    ensures w == One(Closed(1), Server(true, false, false, 1), [Msg(0, Close, 1), Msg(0, Completed, 1)], [], None)
  {
    w := ClosedByServer();
    w := ReachesNext(1, w, ServerTakes(false));
  }

  /** ... and the Close. */
  lemma {:induction false} ServerClosing() returns (w: World)
    ensures Reached(1, w)
    ensures w == One(Closed(1), Server(true, true, false, 1), [Msg(0, Completed, 1)], [], Some(0))
  {
    w := DataServed();
    w := ReachesNext(1, w, ServerTakes(false));
  }

  lemma {:induction false} ServerClosed() returns (w: World)
    ensures Reached(1, w)
    ensures w == One(Closed(1), Server(true, true, false, 1), [Msg(0, Completed, 1)], [Msg(0, Completed, 1)], None)
  {
    w := ServerClosing();
    w := ReachesNext(1, w, CloseReturns);
  }

  /** By the next segment, the server's slot is free. */
  lemma {:induction false} MisreadingHappens() returns (w: World)
    ensures Reached(1, w) && Enabled(w, NextSegment(0)) && w.clients[0].shuttingDown && !w.servers[0].running
    ensures w == One(Closed(1), Server(false, true, false, 1), [], [Msg(0, Completed, 1)], None)
  {
    w := ServerClosed();
    w := ReachesNext(1, w, ServerTakes(false));
  }

  // ---------- A segment that outlives its session ----------

  /** Or the session is over before the segment is sent, and the segment finds the slot free. */
  lemma {:induction false} LeftoverHappens() returns (w: World)
    ensures Reached(1, w) && Enabled(w, StaleSegment(0)) && !w.clients[0].running && !w.servers[0].running
    ensures w == One(Client(false, false, false, true, 0, 1, 1, false), Server(false, true, false, 1), [], [], None)
  {
    w := MisreadingHappens();
    w := ReachesNext(1, w, ClientTakes);
  }

  lemma {:induction false} AskedAgain() returns (w: World)
    ensures Reached(1, w)
    ensures w == One(Open(0, 2, 1).(initializing := true), Server(false, true, false, 1),
                     [Msg(0, Kind.Open, 2)], [], None)
  {
    w := LeftoverHappens();
    w := ReachesNext(1, w, Request(0, true));
  }

  lemma {:induction false} AnsweredAgain() returns (w: World)
    ensures Reached(1, w)
    ensures w == One(Open(0, 2, 1).(initializing := true), Server(true, false, true, 2),
                     [], [Msg(0, Booted, 2)], None)
  {
    w := AskedAgain();
    w := ReachesNext(1, w, ServerTakes(true));
  }

  /** The slot is open again, with the segment of the first session still to send. */
  lemma {:induction false} Reopened() returns (w: World)
    ensures Reached(1, w) && w == One(Open(0, 2, 1), Server(true, false, true, 2), [], [], None)
  {
    w := AnsweredAgain();
    w := ReachesNext(1, w, ClientTakes);
  }

  /** Then the machine of the second session gets the bytes of the first. */
  lemma {:induction false} CrossingHappens() returns (w: World)
    ensures Reached(1, w) && Enabled(w, StaleSegment(0))
    ensures w.servers == [Server(true, false, true, 2)] && Enabled(Act(w, StaleSegment(0)), ServerTakes(false))
    ensures var e := Act(Act(w, StaleSegment(0)), ServerTakes(false));
            e.crossed && !e.rejected && !e.misread && e.servers == w.servers
  {
    w := Reopened();
    assert Act(w, StaleSegment(0)).up == [Msg(0, Data, NO_LIFE)];
  }

  /** Or the user has closed it again by then, and the segment ends the connection. */
  lemma {:induction false} StaleRefusalHappens() returns (w: World)
    ensures Reached(1, w) && Enabled(w, StaleSegment(0))
    ensures w.clients[0].running && !w.clients[0].initializing && !w.clients[0].unsent
    ensures w.clients[0].senderClosed && !w.clients[0].shuttingDown
  {
    w := Reopened();
    w := ReachesNext(1, w, UserClose(0));
  }

  // ---------- A request that was never sent ----------

  /** The command throws, and its slot is lost. */
  lemma {:induction false} LossHappens() returns (w: World)
    ensures Reached(1, w) && Lost(w, 0, 1)
  {
    w := Started();
    w := ReachesNext(1, w, Request(0, false));
  }

  /** A lost slot, a segment of an earlier session still to send, and the server's slot free. */
  lemma {:induction false} LossWithLeftoverHappens() returns (w: World)
    ensures Reached(1, w) && Lost(w, 0, 2) && Enabled(w, StaleSegment(0)) && !w.servers[0].running
  {
    w := LeftoverHappens();
    w := ReachesNext(1, w, Request(0, false));
  }

  // ---------- A Close before the answer ----------

  /** When the machine then does not boot, the Close meets a free slot and ends the connection. */
  lemma {:induction false} EarlyCloseIsRefused() returns (w: World)
    ensures Reached(1, w) && Enabled(w, UserClose(0)) && w.clients[0].initializing
    ensures var closed := Act(w, UserClose(0));
            && Enabled(closed, ServerTakes(false)) && Enabled(Act(closed, ServerTakes(false)), ServerTakes(false))
            && Act(Act(closed, ServerTakes(false)), ServerTakes(false)).rejected
  {
    w := Asked();
    var closed := Act(w, UserClose(0));
    assert closed.up == [Msg(0, Kind.Open, 1), Msg(0, Close, 1)];
    assert Act(closed, ServerTakes(false)).up == [Msg(0, Close, 1)];
  }
}
