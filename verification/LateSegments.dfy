/**
 * What becomes of a segment that `sendData` sends after the Close frame of its session, or when the
 * session is over, and of a Close that is sent before the answer to the request. The server's loop and
 * the machines it waits for act alone until that frame, sent last of all, has arrived.
 */
module LateSegments {
  import opened Bytes
  import opened CloseHandshake

  /** Nobody acts but the server's loop and the machines it waits for. */
  ghost predicate ServerOnly(run: seq<Action>) {
    forall a <- run :: a.ServerTakes? || a.MachineExits? || a.CloseReturns?
  }

  /** What the next segment of a running `sendData` call meets. */
  function SegmentFate(c: Client): Fate {
    if !c.senderClosed then Takes else if c.shuttingDown then Misreads else Refuses
  }

  /** What a segment can meet whose session is over, by the state of the client's slot. */
  predicate StaleFate(c: Client, f: Fate) {
    if !c.running || c.unsent || c.shuttingDown then f.Misreads?
    else if c.initializing then f.Crosses? || f.Misreads?
    else if c.senderClosed then f.Refuses?
    else f.Crosses?
  }

  /** What a Close can meet that is sent before the answer. */
  predicate EarlyFate(c: Client, f: Fate) {
    f.Refuses? || (f.Takes? && !c.unsent)
  }

  predicate CanMeet(c: Client, m: Msg, f: Fate) {
    if m.kind == Close then EarlyFate(c, f)
    else if m.life == NO_LIFE then StaleFate(c, f)
    else f == SegmentFate(c)
  }

  /** The same by the state of the server's slot when the frame `m` gets there. */
  predicate MetAt(s: Server, m: Msg, f: Fate) {
    if m.kind == Close then f == if s.running then Takes else Refuses
    else
      && (f.Misreads? <==> !s.running)
      && (f.Refuses? <==> s.running && s.closed)
      && (f.Crosses? <==> s.running && !s.closed && s.life != m.life)
  }

  predicate Fated(w: World, f: Fate) {
    w.rejected == f.Refuses? && w.misread == f.Misreads? && w.crossed == f.Crosses?
  }

  /** `m` is a segment of a slot, of its present session or of none, or a Close before the answer. */
  ghost predicate Trailing(v: World, m: Msg) {
    && Inv(v) && m.slot < |v.clients|
    && var c := v.clients[m.slot];
       if m.kind == Close then c.running && c.initializing && m.life == c.life
       else m.kind == Data && (m.life != NO_LIFE ==> c.running && !c.initializing && m.life == c.life)
  }

  /** The client has sent `m`; its slot is `c` now. */
  function With(v: World, m: Msg, c: Client): World
    requires m.slot < |v.clients|
  {
    v.(clients := v.clients[m.slot := c], up := v.up + [m])
  }

  /** Until the server comes to the last frame, all goes as if it were not there. */
  lemma {:induction false} BeforeLast(v: World, m: Msg, c: Client, a: Action)
    requires Trailing(v, m) && Enabled(With(v, m, c), a)
    requires a.MachineExits? || a.CloseReturns? || (a.ServerTakes? && v.up != [])
    ensures Enabled(v, a) && Act(v, a).clients == v.clients
    ensures Act(With(v, m, c), a) == With(Act(v, a), m, c) && Trailing(Act(v, a), m)
  {
    if a.ServerTakes? {
      assert (v.up + [m])[1..] == v.up[1..] + [m] && (v.up + [m])[0] == v.up[0];
    }
    ActKeepsInv(v, a);
  }

  /** What the server makes of the last frame when all before it are gone. */
  lemma {:induction false} AtLast(v: World, m: Msg, c: Client, boots: bool) returns (f: Fate)
    requires Trailing(v, m) && v.up == [] && v.waiting.None?
    ensures Enabled(With(v, m, c), ServerTakes(boots))
    ensures var w := Act(With(v, m, c), ServerTakes(boots));
            w.up == [] && Fated(w, f) && m.slot < |w.servers| && MetAt(w.servers[m.slot], m, f)
    ensures CanMeet(v.clients[m.slot], m, f)
  {
    f := ServerReceives(v.servers[m.slot], m.kind, m.life, boots).fate;
    assert With(v, m, c).up[0] == m;
    assert SlotOk(v.clients[m.slot], v.servers[m.slot], Of([], m.slot), Of(v.down, m.slot), v.waiting == Some(m.slot));
  }

  /** With nothing under way to the server, the server alone changes no fate. */
  lemma {:induction false} ServerDrained(w: World, run: seq<Action>, m: Msg, f: Fate)
    requires w.up == [] && ServerOnly(run) && Runs(w, run) && Fated(w, f)
    requires m.slot < |w.servers| && MetAt(w.servers[m.slot], m, f)
    ensures var e := After(w, run);
            e.up == [] && Fated(e, f) && m.slot < |e.servers| && MetAt(e.servers[m.slot], m, f)
    decreases |run|
  {
    if run == [] {
    } else {
      assert run[0] in run && forall b <- run[1..] :: b in run;
      ServerDrained(Act(w, run[0]), run[1..], m, f);
    }
  }

  /** On every run of the server, as soon as the frame is there, it has met one of its fates. */
  lemma {:induction false} EveryArrival(v: World, m: Msg, c: Client, run: seq<Action>) returns (f: Fate)
    requires Trailing(v, m) && ServerOnly(run) && Runs(With(v, m, c), run)
    ensures var e := After(With(v, m, c), run);
            if e.up != [] then e.Unharmed()
            else Fated(e, f) && CanMeet(v.clients[m.slot], m, f)
                 && m.slot < |e.servers| && MetAt(e.servers[m.slot], m, f)
    decreases |run|
  {
    if run == [] {
      f := Takes;
    } else {
      var a, w := run[0], With(v, m, c);
      assert a in run && forall b <- run[1..] :: b in run;
      if a.ServerTakes? && v.up == [] {
        f := AtLast(v, m, c, a.boots);
        ServerDrained(Act(w, a), run[1..], m, f);
      } else {
        BeforeLast(v, m, c, a);
        f := EveryArrival(Act(v, a), m, c, run[1..]);
      }
    }
  }

  /** How far the server is from the last frame. */
  function ToGo(v: World): nat {
    3 * |v.up| + if v.waiting.None? || v.waiting.value >= |v.servers| then 0
                 else if v.servers[v.waiting.value].remote then 2 else 1
  }

  /** As long as frames or a Close call come before it, there is a step the server can take. */
  lemma {:induction false} ServerStep(v: World, m: Msg, c: Client) returns (a: Action)
    requires Trailing(v, m) && (v.up != [] || v.waiting.Some?)
    ensures a.MachineExits? || a.CloseReturns? || (a.ServerTakes? && v.up != [])
    ensures Enabled(With(v, m, c), a) && Enabled(v, a) && ToGo(Act(v, a)) < ToGo(v)
  {
    if v.waiting.Some? {
      WaitingRuns(v, v.waiting.value);
      a := if v.servers[v.waiting.value].remote then MachineExits(v.waiting.value) else CloseReturns;
    } else {
      assert With(v, m, c).up[0] == v.up[0] && v.up[0] in v.up;
      a := ServerTakes(false);
    }
  }

  /** The server alone does come to the last frame. */
  lemma {:induction false} Arrives(v: World, m: Msg, c: Client) returns (run: seq<Action>)
    requires Trailing(v, m)
    ensures ServerOnly(run) && Runs(With(v, m, c), run) && After(With(v, m, c), run).up == []
    decreases ToGo(v)
  {
    if v.waiting.None? && v.up == [] {
      var _ := AtLast(v, m, c, false);
      run := [ServerTakes(false)];
      assert run[1..] == [];
    } else {
      var a := ServerStep(v, m, c);
      BeforeLast(v, m, c, a);
      var rest := Arrives(Act(v, a), m, c);
      run := [a] + rest;
      assert run[1..] == rest;
    }
  }

  // ---------- A segment of a call that was running when its sender was closed ----------

  /** The server alone, from `w` on, ends the connection. */
  ghost predicate ServerEnds(w: World) {
    exists run :: ServerOnly(run) && Runs(w, run) && After(w, run).rejected
  }

  /** The server alone, from `w` on, takes a frame for one of another kind. */
  ghost predicate ServerMisreads(w: World) {
    exists run :: ServerOnly(run) && Runs(w, run) && After(w, run).misread
  }

  lemma {:induction false} FewerPending(w: World, i: nat)
    requires Inv(w) && i < |w.clients| && w.clients[i].running && w.clients[i].pending > 0
    ensures Inv(w.(clients := w.clients[i := w.clients[i].(pending := w.clients[i].pending - 1)]))
    ensures !w.clients[i].initializing
  {
    var v := w.(clients := w.clients[i := w.clients[i].(pending := w.clients[i].pending - 1)]);
    forall j | 0 <= j < |v.clients|
      ensures SlotOk(v.clients[j], v.servers[j], Of(v.up, j), Of(v.down, j), v.waiting == Some(j))
    {
      assert SlotOk(w.clients[j], w.servers[j], Of(w.up, j), Of(w.down, j), w.waiting == Some(j));
    }
  }

  /** The segment is the last frame of a system that is in order without it. */
  lemma {:induction false} NextTrails(w: World, i: nat) returns (v: World, m: Msg)
    requires Inv(w) && Enabled(w, NextSegment(i))
    ensures m == Msg(i, Data, w.clients[i].life) && m.life != NO_LIFE
    ensures Trailing(v, m) && Act(w, NextSegment(i)) == With(v, m, v.clients[i])
    ensures SegmentFate(v.clients[i]) == SegmentFate(w.clients[i])
  {
    var c := w.clients[i];
    m := Msg(i, Data, c.life);
    v := w.(clients := w.clients[i := c.(pending := c.pending - 1)]);
    assert SlotOk(c, w.servers[i], Of(w.up, i), Of(w.down, i), w.waiting == Some(i));
    FewerPending(w, i);
    assert v.clients[i := v.clients[i]] == v.clients;
  }

  /** Whatever the server does until it has the segment, it makes of it what the client's bits say. */
  lemma {:induction false} NextMeets(w: World, i: nat, run: seq<Action>)
    requires Inv(w) && Enabled(w, NextSegment(i)) && ServerOnly(run) && Runs(Act(w, NextSegment(i)), run)
    ensures var e := After(Act(w, NextSegment(i)), run);
            if e.up != [] then e.Unharmed() else Fated(e, SegmentFate(w.clients[i]))
  {
    var v, m := NextTrails(w, i);
    var _ := EveryArrival(v, m, v.clients[i], run);
  }

  /**
   * `sendData` looks at `closed` only when it is called. With nobody but the server acting, the
   * next segment of a running call leads it to end the connection if and only if the sender was
   * closed in between and the server did not ask for it, and to read the segment as an opening frame
   * if and only if the server asked first. Each of the two then happens on every run.
   */
  lemma {:induction false} SegmentFateIsKnown(w: World, i: nat)
    requires Inv(w) && Enabled(w, NextSegment(i))
    ensures ServerEnds(Act(w, NextSegment(i))) <==> w.clients[i].senderClosed && !w.clients[i].shuttingDown
    ensures ServerMisreads(Act(w, NextSegment(i))) <==> w.clients[i].shuttingDown
    ensures forall run :: ServerOnly(run) && Runs(Act(w, NextSegment(i)), run) ==>
              var e := After(Act(w, NextSegment(i)), run);
              e.up == [] ==> Fated(e, SegmentFate(w.clients[i]))
  {
    var v, m := NextTrails(w, i);
    assert SlotOk(w.clients[i], w.servers[i], Of(w.up, i), Of(w.down, i), w.waiting == Some(i));
    var arrival := Arrives(v, m, v.clients[i]);
    NextMeets(w, i, arrival);
    forall run | ServerOnly(run) && Runs(Act(w, NextSegment(i)), run)
      ensures var e := After(Act(w, NextSegment(i)), run);
              if e.up != [] then e.Unharmed() else Fated(e, SegmentFate(w.clients[i]))
    {
      NextMeets(w, i, run);
    }
  }

  // ---------- A segment of a call whose session is over ----------

  /** The segment that arrived in `w` met its slot as it stands there. */
  predicate Astray(w: World, i: nat)
    requires i < |w.servers|
  {
    var s := w.servers[i];
    && (w.misread <==> !s.running)
    && (w.rejected <==> s.running && s.closed)
    && (w.crossed <==> s.running && !s.closed)
  }

  lemma {:induction false} StaleTrails(w: World, i: nat) returns (v: World, m: Msg)
    requires Inv(w) && Enabled(w, StaleSegment(i))
    ensures m == Msg(i, Data, NO_LIFE) && Trailing(v, m) && Act(w, StaleSegment(i)) == With(v, m, v.clients[i])
    ensures forall f :: StaleFate(v.clients[i], f) <==> StaleFate(w.clients[i], f)
  {
    var c := w.clients[i];
    m := Msg(i, Data, NO_LIFE);
    v := w.(clients := w.clients[i := c.(leftover := c.leftover - 1)]);
    forall j | 0 <= j < |v.clients|
      ensures SlotOk(v.clients[j], v.servers[j], Of(v.up, j), Of(v.down, j), v.waiting == Some(j))
    {
      assert SlotOk(w.clients[j], w.servers[j], Of(w.up, j), Of(w.down, j), w.waiting == Some(j));
    }
    assert v.clients[i := v.clients[i]] == v.clients;
  }

  lemma {:induction false} StaleMeets(w: World, i: nat, run: seq<Action>)
    requires Inv(w) && Enabled(w, StaleSegment(i)) && ServerOnly(run) && Runs(Act(w, StaleSegment(i)), run)
    ensures var e := After(Act(w, StaleSegment(i)), run);
            if e.up != [] then e.Unharmed()
            else i < |e.servers| && Astray(e, i) && exists f :: StaleFate(w.clients[i], f) && Fated(e, f)
  {
    var v, m := StaleTrails(w, i);
    var f := EveryArrival(v, m, v.clients[i], run);
    var e := After(With(v, m, v.clients[i]), run);
    if e.up == [] {
      assert StaleFate(w.clients[i], f) && Fated(e, f);
    }
  }

  /**
   * The wire has no session numbers. On every run of the server, a segment of a session that is over
   * is read as an opening frame if and only if its slot is free when it arrives, refused if and only
   * if the slot is closed, and handed to the machine of another session if and only if one is open.
   * Which of these it is the client's slot tells beforehand, but for one that awaits its answer.
   */
  lemma {:induction false} StaleSegmentGoesAstray(w: World, i: nat)
    requires Inv(w) && Enabled(w, StaleSegment(i))
    ensures exists run :: ServerOnly(run) && Runs(Act(w, StaleSegment(i)), run)
                          && After(Act(w, StaleSegment(i)), run).up == []
    ensures forall run :: ServerOnly(run) && Runs(Act(w, StaleSegment(i)), run) ==>
              var e := After(Act(w, StaleSegment(i)), run);
              e.up == [] ==>
                i < |e.servers| && Astray(e, i) && exists f :: StaleFate(w.clients[i], f) && Fated(e, f)
  {
    var v, m := StaleTrails(w, i);
    var arrival := Arrives(v, m, v.clients[i]);
    forall run | ServerOnly(run) && Runs(Act(w, StaleSegment(i)), run)
      ensures var e := After(Act(w, StaleSegment(i)), run);
              e.up == [] ==>
                i < |e.servers| && Astray(e, i) && exists f :: StaleFate(w.clients[i], f) && Fated(e, f)
    {
      StaleMeets(w, i, run);
    }
  }

  // ---------- A Close before the answer ----------

  lemma {:induction false} EarlyTrails(w: World, i: nat) returns (m: Msg, c: Client)
    requires Inv(w) && Enabled(w, UserClose(i)) && w.clients[i].initializing
    ensures m == Msg(i, Close, w.clients[i].life) && c == w.clients[i].(senderClosed := true)
    ensures Trailing(w, m) && Act(w, UserClose(i)) == With(w, m, c)
  {
    m, c := Msg(i, Close, w.clients[i].life), w.clients[i].(senderClosed := true);
    assert SlotOk(w.clients[i], w.servers[i], Of(w.up, i), Of(w.down, i), w.waiting == Some(i));
  }

  lemma {:induction false} EarlyMeets(w: World, i: nat, run: seq<Action>)
    requires Inv(w) && Enabled(w, UserClose(i)) && w.clients[i].initializing
    requires ServerOnly(run) && Runs(Act(w, UserClose(i)), run)
    ensures var e := After(Act(w, UserClose(i)), run);
            e.up == [] ==>
              && i < |e.servers| && !e.misread && !e.crossed && (e.rejected <==> !e.servers[i].running)
              && (w.clients[i].unsent ==> e.rejected)
  {
    var m, c := EarlyTrails(w, i);
    var _ := EveryArrival(w, m, c, run);
  }

  /**
   * `Sender.close` does not ask whether the request was answered. On every run of the server, a Close
   * that is sent before the answer ends the connection if and only if its slot is free when it
   * arrives, that is, when the machine did not boot, or the request was never sent; else it closes the
   * machine as any other Close does.
   */
  lemma {:induction false} EarlyCloseIsFatalIff(w: World, i: nat)
    requires Inv(w) && Enabled(w, UserClose(i)) && w.clients[i].initializing
    ensures exists run :: ServerOnly(run) && Runs(Act(w, UserClose(i)), run)
                          && After(Act(w, UserClose(i)), run).up == []
    ensures forall run :: ServerOnly(run) && Runs(Act(w, UserClose(i)), run) ==>
              var e := After(Act(w, UserClose(i)), run);
              e.up == [] ==>
                && i < |e.servers| && !e.misread && !e.crossed && (e.rejected <==> !e.servers[i].running)
                && (w.clients[i].unsent ==> e.rejected)
  {
    var m, c := EarlyTrails(w, i);
    var arrival := Arrives(w, m, c);
    forall run | ServerOnly(run) && Runs(Act(w, UserClose(i)), run)
      ensures var e := After(Act(w, UserClose(i)), run);
              e.up == [] ==>
                && i < |e.servers| && !e.misread && !e.crossed && (e.rejected <==> !e.servers[i].running)
                && (w.clients[i].unsent ==> e.rejected)
    {
      EarlyMeets(w, i, run);
    }
  }
}
