/**
 * Left alone, the handshake of CloseHandshake comes to rest: without new calls of the user, finitely
 * many frames are exchanged, and then no slot is half closed.
 */
module HandshakeRest {
  import opened Bytes
  import opened CloseHandshake

  /** No new call of the user, and nothing new from a machine but its end. */
  predicate Internal(a: Action) {
    a.ClientTakes? || a.ServerTakes? || a.MachineExits? || a.CloseReturns?
  }

  /** How many further steps a frame can bring about at most, itself included. */
  function UpWeight(k: Kind): nat {
    match k
    case Open => 8
    case Close => 3
    case _ => 1
  }

  function DownWeight(k: Kind): nat {
    if k == Close then 5 else 1
  }

  function UpWeights(q: seq<Msg>): nat {
    if q == [] then 0 else UpWeight(q[0].kind) + UpWeights(q[1..])
  }

  function DownWeights(q: seq<Msg>): nat {
    if q == [] then 0 else DownWeight(q[0].kind) + DownWeights(q[1..])
  }

  /** A machine that still runs can end, with a Close. */
  function RemoteWeight(s: Server): nat {
    if s.remote then 6 else 0
  }

  function RemoteWeights(servers: seq<Server>): nat {
    if servers == [] then 0 else RemoteWeight(servers[0]) + RemoteWeights(servers[1..])
  }

  function Weight(w: World): nat {
    UpWeights(w.up) + DownWeights(w.down) + RemoteWeights(w.servers) + if w.waiting.Some? then 2 else 0
  }

  lemma {:induction false} UpWeightsAppend(a: seq<Msg>, b: seq<Msg>)
    ensures UpWeights(a + b) == UpWeights(a) + UpWeights(b)
  {
    if a == [] {
      assert a + b == b;
    } else {
      assert (a + b)[1..] == a[1..] + b;
      UpWeightsAppend(a[1..], b);
    }
  }

  lemma {:induction false} DownWeightsAppend(a: seq<Msg>, b: seq<Msg>)
    ensures DownWeights(a + b) == DownWeights(a) + DownWeights(b)
  {
    if a == [] {
      assert a + b == b;
    } else {
      assert (a + b)[1..] == a[1..] + b;
      DownWeightsAppend(a[1..], b);
    }
  }

  lemma {:induction false} RemoteWeightsUpdate(servers: seq<Server>, i: nat, s: Server)
    requires i < |servers|
    ensures RemoteWeights(servers[i := s]) + RemoteWeight(servers[i]) == RemoteWeights(servers) + RemoteWeight(s)
  {
    if i == 0 {
      assert servers[i := s][1..] == servers[1..];
    } else {
      assert servers[i := s][1..] == servers[1..][i - 1 := s];
      RemoteWeightsUpdate(servers[1..], i - 1, s);
    }
  }

  /** What a reaction sends weighs less than what it answers. */
  lemma {:induction false} SentWeighs(i: nat, sent: seq<Kind>, life: nat)
    requires sent in {[], [Booted], [Refused], [Completed], [Close, Completed]}
    ensures UpWeights(Msgs(i, sent, life)) == if |sent| == 2 then 4 else |sent|
    ensures |sent| < 2 ==> DownWeights(Msgs(i, sent, life)) == |sent|
  {
    if |sent| == 1 {
      assert sent[1..] == [] && Msgs(i, sent, life) == [Msg(i, sent[0], life)];
    } else if |sent| == 2 {
      assert Msgs(i, [Completed], life) == [Msg(i, Completed, life)] by {
        assert [Completed][1..] == [];
      }
      assert sent[1..] == [Completed] && Msgs(i, sent, life) == [Msg(i, Close, life)] + Msgs(i, [Completed], life);
      assert Msgs(i, sent, life)[1..] == [Msg(i, Completed, life)] && Msgs(i, sent, life)[0].kind == Close;
      assert [Msg(i, Completed, life)][1..] == [] && UpWeights([Msg(i, Completed, life)]) == 1;
    }
  }

  lemma {:induction false} ClientTakesFalls(w: World)
    requires Enabled(w, ClientTakes)
    ensures Weight(Act(w, ClientTakes)) < Weight(w)
  {
    var m := w.down[0];
    var r := ClientReceives(w.clients[m.slot], m.kind, m.life);
    assert [] + [Completed] == [Completed] && [Close] + [Completed] == [Close, Completed];
    SentWeighs(m.slot, r.sent, m.life);
    UpWeightsAppend(w.up, Msgs(m.slot, r.sent, m.life));
  }

  lemma {:induction false} ServerTakesFalls(w: World, boots: bool)
    requires Enabled(w, ServerTakes(boots))
    ensures Weight(Act(w, ServerTakes(boots))) < Weight(w)
  {
    var m := w.up[0];
    var r := ServerReceives(w.servers[m.slot], m.kind, m.life, boots);
    SentWeighs(m.slot, r.sent, m.life);
    DownWeightsAppend(w.down, Msgs(m.slot, r.sent, m.life));
    RemoteWeightsUpdate(w.servers, m.slot, r.next);
  }

  lemma {:induction false} InternalFalls(w: World, a: Action)
    requires Enabled(w, a) && Internal(a)
    ensures Weight(Act(w, a)) < Weight(w)
  {
    match a
    case ClientTakes => ClientTakesFalls(w);
    case ServerTakes(boots) => ServerTakesFalls(w, boots);
    case MachineExits(i) =>
      DownWeightsAppend(w.down, [Msg(i, Close, w.servers[i].life)]);
      RemoteWeightsUpdate(w.servers, i, w.servers[i].(remote := false));
    case CloseReturns =>
      var i := w.waiting.value;
      DownWeightsAppend(w.down, [Msg(i, Completed, w.servers[i].life)]);
  }

  /** Left alone, both ends take finitely many steps. */
  lemma {:induction false} InternalRunsEnd(w: World, run: seq<Action>)
    requires Runs(w, run) && forall a <- run :: Internal(a)
    ensures |run| <= Weight(w)
    decreases |run|
  {
    if run == [] {
    } else {
      InternalFalls(w, run[0]);
      assert forall a <- run[1..] :: a in run;
      InternalRunsEnd(Act(w, run[0]), run[1..]);
    }
  }

  /** No frame is left to take, and no Close call of a machine whose remote side can end. */
  ghost predicate AtRest(w: World) {
    && !Enabled(w, ClientTakes) && !Enabled(w, ServerTakes(true)) && !Enabled(w, CloseReturns)
    && (w.waiting.Some? ==> !Enabled(w, MachineExits(w.waiting.value)))
  }

  lemma {:induction false} NextInRange(w: World)
    requires Inv(w)
    ensures w.up != [] ==> w.up[0].slot < |w.servers|
    ensures w.down != [] ==> w.down[0].slot < |w.clients|
  {
    assert w.up != [] ==> w.up[0] in w.up;
    assert w.down != [] ==> w.down[0] in w.down;
  }

  lemma {:induction false} RestIsQuiet(w: World)
    requires Inv(w) && AtRest(w)
    ensures w.up == [] && w.down == [] && w.waiting.None?
  {
    NextInRange(w);
    if w.waiting.Some? {
      WaitingRuns(w, w.waiting.value);
      assert false;
    }
  }

  /**
   * At rest every slot is free at both ends, or open at both ends, or its request was never sent. If
   * the machines were left to end, too, none is open.
   */
  lemma {:induction false} AtRestNothingIsHalfClosed(w: World, i: nat)
    requires Inv(w) && AtRest(w) && i < |w.clients|
    ensures var c, s := w.clients[i], w.servers[i];
            && (!c.running ==> !s.running)
            && (c.running && !c.unsent ==>
                  !c.initializing && !c.shuttingDown && !c.senderClosed
                  && s.running && !s.closed && s.remote && c.life == s.life)
            && (c.running && c.unsent ==> c.initializing && !s.running)
    ensures !Enabled(w, MachineExits(i)) ==> !w.servers[i].running && (w.clients[i].running ==> w.clients[i].unsent)
  {
    RestIsQuiet(w);
    NoHalfClosedSlot(w, i);
  }

  /** A step that some frame or some Close call waits for. */
  lemma {:induction false} NotAtRest(w: World) returns (a: Action)
    requires Inv(w) && !AtRest(w)
    ensures Internal(a) && Enabled(w, a) && Orderly(w, a)
  {
    a := if Enabled(w, ClientTakes) then ClientTakes
         else if Enabled(w, ServerTakes(true)) then ServerTakes(true)
         else if Enabled(w, CloseReturns) then CloseReturns
         else MachineExits(w.waiting.value);
  }

  /** From every state that an orderly run reaches, the handshake comes to rest by itself. */
  lemma {:induction false} ComesToRest(w: World) returns (run: seq<Action>)
    requires Inv(w)
    ensures (forall a <- run :: Internal(a)) && Runs(w, run) && OrderlyRun(w, run)
    ensures AtRest(After(w, run)) && Inv(After(w, run))
    decreases Weight(w)
  {
    if AtRest(w) {
      run := [];
    } else {
      var a := NotAtRest(w);
      InternalFalls(w, a);
      ActKeepsInv(w, a);
      var rest := ComesToRest(Act(w, a));
      run := [a] + rest;
      assert run[1..] == rest;
    }
  }
}
