/**
 * Opening, closing and reusing stream slots, as a step system of both ends: the slot states of
 * ui/stream/stream.js and ui/stream/streams.js, those of application/command/streams.go and
 * handler.go, and one FIFO queue of frames in each direction, shared by all slots.
 *
 * A frame carries the number of the session (`life`) it was sent in. The wire has no such
 * number; it is there to state that no frame reaches another session of the same slot.
 */
module CloseHandshake {
  import opened Bytes

  datatype Kind = Open | Booted | Refused | Data | Close | Completed

  datatype Msg = Msg(slot: nat, kind: Kind, life: nat)

  /**
   * A client slot. `senderClosed` is the `closed` bit of its stream sender; `pending` counts the
   * segments a running `sendData` call still has to send, and `leftover` those of calls that
   * outlived their session. `unsent`: the command threw before its opening frame was sent.
   */
  datatype Client = Client(
    running: bool,
    initializing: bool,
    shuttingDown: bool,
    senderClosed: bool,
    pending: nat,
    life: nat,
    leftover: nat,
    unsent: bool)
  {
    function Cleared(): Client {
      this.(running := false, initializing := false, shuttingDown := false, pending := 0,
            leftover := leftover + pending)
    }
  }

  /** Nothing ever happened on the slot. */
  const FRESH := Client(false, false, false, false, 0, 0, 0, false)

  /** Server slot. `remote`: the machine's remote side runs, its Close header is not sent yet. */
  datatype Server = Server(running: bool, closed: bool, remote: bool, life: nat)

  /**
   * `waiting`: the handler sits in the Close call of that slot's machine. `rejected`: a receiver
   * ended the connection; `misread`: one took a frame for another kind of frame; `crossed`: one took
   * a frame of another session for its own. What follows one of these is not part of the system.
   */
  datatype World = World(
    clients: seq<Client>,
    servers: seq<Server>,
    up: seq<Msg>,
    down: seq<Msg>,
    waiting: Option<nat>,
    rejected: bool,
    misread: bool,
    crossed: bool)
  {
    /** Every frame so far was taken as it was meant. */
    predicate Unharmed() { !rejected && !misread && !crossed }
  }

  /**
   * What a frame meets: it is taken as it was meant; it is taken for a frame of another session of
   * the slot, which no receiver can tell; it is taken for a frame of another kind; or the receiver
   * ends the connection.
   */
  datatype Fate = Takes | Crosses | Misreads | Refuses

  /** A receiver's reaction: its new state, the frames it sends, and what became of the frame. */
  datatype Reaction<T> = Reaction(next: T, sent: seq<Kind>, fate: Fate)

  function Meant(same: bool): Fate {
    if same then Takes else Crosses
  }

  /** Streams.handleStream, handleClose and handleCompleted on one slot. */
  function ClientReceives(c: Client, k: Kind, life: nat): Reaction<Client> {
    if !c.running || k == Open then Reaction(c, [], Refuses) else
    match k
    case Booted =>
      // The two bytes after the header byte are read by the state of the slot alone.
      if c.shuttingDown then Reaction(c, [], Refuses)
      else Reaction(c.(initializing := false), [], if c.initializing then Meant(life == c.life) else Misreads)
    case Refused =>
      if c.shuttingDown then Reaction(c, [], Refuses)
      else Reaction(c.Cleared(), [], if c.initializing then Meant(life == c.life) else Misreads)
    case Data =>
      if c.shuttingDown then Reaction(c, [], Refuses)
      else Reaction(c, [], if c.initializing then Misreads else Meant(life == c.life))
    case Close =>
      if c.shuttingDown then Reaction(c, [], Refuses)
      else Reaction(c.(shuttingDown := true, senderClosed := true),
                    (if c.senderClosed then [] else [Close]) + [Completed], Meant(life == c.life))
    case Completed =>
      if c.shuttingDown then Reaction(c.Cleared(), [], Meant(life == c.life)) else Reaction(c, [], Refuses)
  }

  /** Handler.handleStream, handleClose and handleCompleted on one slot; `boots` is the machine's. */
  function ServerReceives(s: Server, k: Kind, life: nat, boots: bool): Reaction<Server> {
    match k
    case Open =>
      // On a running slot it is read as data, which a closed machine refuses.
      if s.running then Reaction(s, [], if s.closed then Refuses else Misreads)
      else if boots then Reaction(Server(true, false, true, life), [Booted], Takes)
      else Reaction(s, [Refused], Takes)
    case Data =>
      // On a free slot it is read as an opening frame.
      Reaction(s, [], if !s.running then Misreads else if s.closed then Refuses else Meant(life == s.life))
    case Close =>
      if s.running then Reaction(s.(closed := true), [], Meant(life == s.life)) else Reaction(s, [], Refuses)
    case Completed =>
      // Without a Close before it, the server closes the machine on its own account.
      if s.running then Reaction(s.(running := false), [], if s.closed then Meant(life == s.life) else Misreads)
      else Reaction(s, [], Refuses)
    case _ => Reaction(s, [], Refuses)
  }

  datatype Action =
    | Request(i: nat, sends: bool)   // Streams.request: take an idle slot, send the opening frame
    | SendData(i: nat, more: nat)    // sendData: first segment out, `more` to follow
    | NextSegment(i: nat)            // sendData, resumed: one more segment, with no look at `closed`
    | StaleSegment(i: nat)           // the same, of a call whose session is over
    | UserClose(i: nat)              // Sender.close called by the user
    | ClientTakes                    // the client's loop takes a frame
    | ServerTakes(boots: bool)       // the server's loop takes a frame
    | MachineSends(i: nat)           // a machine's remote side sends data
    | MachineExits(i: nat)           // ... or ends, its last act being the Close header
    | CloseReturns                   // the machine's Close returns and the handler answers

  ghost predicate Enabled(w: World, a: Action) {
    && |w.clients| == |w.servers| && w.Unharmed()
    && match a
       case Request(i, _) => i < |w.clients| && !w.clients[i].running
       case SendData(i, _) =>
         i < |w.clients| && w.clients[i].running && !w.clients[i].initializing
         && !w.clients[i].senderClosed && w.clients[i].pending == 0
       case NextSegment(i) => i < |w.clients| && w.clients[i].running && w.clients[i].pending > 0
       case StaleSegment(i) => i < |w.clients| && w.clients[i].leftover > 0
       case UserClose(i) => i < |w.clients| && w.clients[i].running
       case ClientTakes => w.down != [] && w.down[0].slot < |w.clients|
       case ServerTakes(_) => w.up != [] && w.up[0].slot < |w.servers| && w.waiting.None?
       case MachineSends(i) => i < |w.servers| && w.servers[i].running && w.servers[i].remote
       case MachineExits(i) => i < |w.servers| && w.servers[i].running && w.servers[i].remote
       case CloseReturns =>
         w.waiting.Some? && w.waiting.value < |w.servers| && !w.servers[w.waiting.value].remote
  }

  function Msgs(i: nat, ks: seq<Kind>, life: nat): seq<Msg> {
    if ks == [] then [] else [Msg(i, ks[0], life)] + Msgs(i, ks[1..], life)
  }

  /** No session has this number: a segment that outlived its session belongs to none. */
  const NO_LIFE := 0

  function Act(w: World, a: Action): World
    requires Enabled(w, a)
  {
    match a
    case Request(i, sends) =>
      var c := Client(true, true, false, false, 0, w.clients[i].life + 1, w.clients[i].leftover, !sends);
      w.(clients := w.clients[i := c], up := w.up + if sends then [Msg(i, Open, c.life)] else [])
    case SendData(i, more) =>
      var c := w.clients[i];
      w.(clients := w.clients[i := c.(pending := more)], up := w.up + [Msg(i, Data, c.life)])
    case NextSegment(i) =>
      var c := w.clients[i];
      w.(clients := w.clients[i := c.(pending := c.pending - 1)], up := w.up + [Msg(i, Data, c.life)])
    case StaleSegment(i) =>
      var c := w.clients[i];
      w.(clients := w.clients[i := c.(leftover := c.leftover - 1)], up := w.up + [Msg(i, Data, NO_LIFE)])
    case UserClose(i) =>
      var c := w.clients[i];
      if c.senderClosed then w
      else w.(clients := w.clients[i := c.(senderClosed := true)], up := w.up + [Msg(i, Close, c.life)])
    case ClientTakes =>
      var m := w.down[0];
      var r := ClientReceives(w.clients[m.slot], m.kind, m.life);
      w.(clients := w.clients[m.slot := r.next],
         up := w.up + Msgs(m.slot, r.sent, m.life),
         down := w.down[1..],
         rejected := r.fate.Refuses?,
         misread := r.fate.Misreads?,
         crossed := r.fate.Crosses?)
    case ServerTakes(boots) =>
      var m := w.up[0];
      var s := w.servers[m.slot];
      var r := ServerReceives(s, m.kind, m.life, boots);
      w.(servers := w.servers[m.slot := r.next],
         up := w.up[1..],
         down := w.down + Msgs(m.slot, r.sent, m.life),
         waiting := if m.kind == Close && s.running && !s.closed then Some(m.slot) else None,
         rejected := r.fate.Refuses?,
         misread := r.fate.Misreads?,
         crossed := r.fate.Crosses?)
    case MachineSends(i) =>
      w.(down := w.down + [Msg(i, Data, w.servers[i].life)])
    case MachineExits(i) =>
      w.(servers := w.servers[i := w.servers[i].(remote := false)],
         down := w.down + [Msg(i, Close, w.servers[i].life)])
    case CloseReturns =>
      var i := w.waiting.value;
      w.(waiting := None, down := w.down + [Msg(i, Completed, w.servers[i].life)])
  }

  // ---------- One slot ----------

  function Of(q: seq<Msg>, i: nat): seq<Msg> {
    if q == [] then [] else (if q[0].slot == i then [q[0]] else []) + Of(q[1..], i)
  }

  lemma {:induction false} OfAppend(a: seq<Msg>, b: seq<Msg>, i: nat)
    ensures Of(a + b, i) == Of(a, i) + Of(b, i)
  {
    if a == [] {
      assert a + b == b;
    } else {
      var first := if a[0].slot == i then [a[0]] else [];
      assert (a + b)[0] == a[0] && (a + b)[1..] == a[1..] + b;
      OfAppend(a[1..], b, i);
      assert first + (Of(a[1..], i) + Of(b, i)) == first + Of(a[1..], i) + Of(b, i);
    }
  }

  lemma {:induction false} OfMsgs(i: nat, ks: seq<Kind>, life: nat, j: nat)
    ensures Of(Msgs(i, ks, life), j) == if i == j then Msgs(i, ks, life) else []
    ensures forall m <- Msgs(i, ks, life) :: m.slot == i
  {
    if ks == [] {
    } else {
      OfMsgs(i, ks[1..], life, j);
    }
  }

  /** Frames of one session: any number of data frames, then exactly `tail`. */
  predicate Word(q: seq<Msg>, life: nat, tail: seq<Kind>) {
    |tail| <= |q| &&
    forall k :: 0 <= k < |q| ==>
      q[k].life == life && q[k].kind == if k < |q| - |tail| then Data else tail[k - (|q| - |tail|)]
  }

  /** `Word` without data frames. */
  predicate Exactly(q: seq<Msg>, life: nat, tail: seq<Kind>) {
    |q| == |tail| && Word(q, life, tail)
  }

  predicate Idle(c: Client, s: Server, up: seq<Msg>, down: seq<Msg>, waiting: bool) {
    && !c.running && !waiting && down == []
    && if !s.running then up == []
       else s.closed && !s.remote && s.life == c.life && Exactly(up, c.life, [Completed])
  }

  predicate Opening(c: Client, s: Server, up: seq<Msg>, down: seq<Msg>, waiting: bool) {
    && c.running && c.initializing && !c.shuttingDown && !c.senderClosed && c.pending == 0 && !c.unsent && !waiting
    && if !s.running then
         (Exactly(up, c.life, [Open]) && down == []) || (up == [] && Exactly(down, c.life, [Refused]))
       else if s.closed then
         !s.remote && s.life + 1 == c.life && down == []
         && |up| == 2 && up[0].kind == Completed && up[0].life == s.life && up[1].kind == Open && up[1].life == c.life
       else
         s.life == c.life && up == []
         && down != [] && down[0].kind == Booted && down[0].life == c.life
         && Word(down[1..], c.life, if s.remote then [] else [Close])
  }

  /** The opening frame was never sent, so no answer will come. */
  predicate Stuck(c: Client, s: Server, up: seq<Msg>, down: seq<Msg>, waiting: bool) {
    && c.running && c.initializing && !c.shuttingDown && !c.senderClosed && c.pending == 0 && c.unsent && !waiting
    && down == []
    && if !s.running then up == []
       else s.closed && !s.remote && s.life + 1 == c.life && Exactly(up, s.life, [Completed])
  }

  predicate Talking(c: Client, s: Server, up: seq<Msg>, down: seq<Msg>, waiting: bool) {
    && c.running && !c.initializing && !c.shuttingDown && !c.senderClosed && !c.unsent && !waiting
    && s.running && !s.closed && s.life == c.life
    && Word(up, c.life, []) && Word(down, c.life, if s.remote then [] else [Close])
  }

  predicate Closing(c: Client, s: Server, up: seq<Msg>, down: seq<Msg>, waiting: bool) {
    && c.running && !c.initializing && !c.shuttingDown && c.senderClosed && !c.unsent
    && s.running && s.life == c.life
    && if !s.closed then !waiting && Word(up, c.life, [Close]) && Word(down, c.life, if s.remote then [] else [Close])
       else if waiting then up == [] && Word(down, c.life, if s.remote then [] else [Close])
       else !s.remote && up == [] && Word(down, c.life, [Close, Completed])
  }

  predicate ShuttingDown(c: Client, s: Server, up: seq<Msg>, down: seq<Msg>, waiting: bool) {
    && c.running && !c.initializing && c.shuttingDown && c.senderClosed && !c.unsent
    && if !s.running then !waiting && up == [] && Exactly(down, c.life, [Completed])
       else
         s.life == c.life && !s.remote &&
         if !s.closed then !waiting && Word(up, c.life, [Close, Completed]) && down == []
         else Exactly(up, c.life, [Completed])
              && if waiting then down == [] else Exactly(down, c.life, [Completed])
  }

  /** Where the two ends of one slot can stand to each other, with what is under way. */
  predicate SlotOk(c: Client, s: Server, up: seq<Msg>, down: seq<Msg>, waiting: bool) {
    && (c.running ==> c.life > NO_LIFE) && (s.running ==> s.life > NO_LIFE)
    && (|| Idle(c, s, up, down, waiting)
        || Opening(c, s, up, down, waiting)
        || Stuck(c, s, up, down, waiting)
        || Talking(c, s, up, down, waiting)
        || Closing(c, s, up, down, waiting)
        || ShuttingDown(c, s, up, down, waiting))
  }

  ghost predicate Inv(w: World) {
    && |w.clients| == |w.servers| && w.Unharmed()
    && (forall m <- w.up :: m.slot < |w.clients|)
    && (forall m <- w.down :: m.slot < |w.clients|)
    && (w.waiting.Some? ==> w.waiting.value < |w.servers|)
    && forall i :: 0 <= i < |w.clients| ==>
         SlotOk(w.clients[i], w.servers[i], Of(w.up, i), Of(w.down, i), w.waiting == Some(i))
  }

  /** A frame other than Close: the client sends nothing in answer. */
  lemma {:induction false} ClientTakesQuietly(c: Client, s: Server, up: seq<Msg>, down: seq<Msg>, waiting: bool)
    requires SlotOk(c, s, up, down, waiting) && down != [] && down[0].kind != Close
    ensures var r := ClientReceives(c, down[0].kind, down[0].life);
            r.fate.Takes? && r.sent == [] && SlotOk(r.next, s, up, down[1..], waiting)
  {
  }

  lemma {:induction false} ClientTakesClose(c: Client, s: Server, up: seq<Msg>, down: seq<Msg>, waiting: bool,
                                            slot: nat)
    requires SlotOk(c, s, up, down, waiting) && down != [] && down[0].kind == Close
    ensures var r := ClientReceives(c, Close, down[0].life);
            r.fate.Takes? && SlotOk(r.next, s, up + Msgs(slot, r.sent, down[0].life), down[1..], waiting)
  {
    assert Msgs(slot, [Completed], c.life) == [Msg(slot, Completed, c.life)];
    assert Msgs(slot, [Close, Completed], c.life) == [Msg(slot, Close, c.life), Msg(slot, Completed, c.life)];
  }

  lemma {:induction false} ClientTakesOk(c: Client, s: Server, up: seq<Msg>, down: seq<Msg>, waiting: bool, slot: nat)
    requires SlotOk(c, s, up, down, waiting) && down != []
    ensures var r := ClientReceives(c, down[0].kind, down[0].life);
            r.fate.Takes? && SlotOk(r.next, s, up + Msgs(slot, r.sent, down[0].life), down[1..], waiting)
  {
    if down[0].kind == Close {
      ClientTakesClose(c, s, up, down, waiting, slot);
    } else {
      ClientTakesQuietly(c, s, up, down, waiting);
      assert up + [] == up;
    }
  }

  lemma {:induction false} ServerTakesOk(c: Client, s: Server, up: seq<Msg>, down: seq<Msg>, slot: nat, boots: bool)
    requires SlotOk(c, s, up, down, false) && up != []
    ensures var r := ServerReceives(s, up[0].kind, up[0].life, boots);
            r.fate.Takes? && SlotOk(c, r.next, up[1..], down + Msgs(slot, r.sent, up[0].life),
                              up[0].kind == Close && s.running && !s.closed)
  {
    assert Msgs(slot, [Booted], up[0].life) == [Msg(slot, Booted, up[0].life)];
    assert Msgs(slot, [Refused], up[0].life) == [Msg(slot, Refused, up[0].life)];
  }

  // ---------- All slots, all runs ----------

  /** No segment is sent after the Close frame of its session, and no Close before the answer. */
  ghost predicate Orderly(w: World, a: Action)
    requires Enabled(w, a)
  {
    (a.NextSegment? ==> !w.clients[a.i].senderClosed) && !a.StaleSegment?
    && (a.UserClose? ==> !w.clients[a.i].initializing)
  }

  /** `w'` is `w` with `fromUp` and `fromDown` frames of slot `i` taken and the given ones added. */
  ghost predicate OnlySlot(w: World, w': World, i: nat, taken: nat, received: nat, up: seq<Msg>, down: seq<Msg>) {
    && |w.clients| == |w.servers| && i < |w.clients| && taken <= |w.up| && received <= |w.down|
    && |w'.clients| == |w.clients| && |w'.servers| == |w.servers|
    && w'.clients == w.clients[i := w'.clients[i]] && w'.servers == w.servers[i := w'.servers[i]]
    && (forall m <- w.up[..taken] + w.down[..received] + up + down :: m.slot == i)
    && w'.up == w.up[taken..] + up && w'.down == w.down[received..] + down
  }

  ghost predicate SameFor(w: World, w': World, j: nat) {
    j < |w.clients| && j < |w.servers| && j < |w'.clients| && j < |w'.servers|
    && w'.clients[j] == w.clients[j] && w'.servers[j] == w.servers[j]
    && Of(w'.up, j) == Of(w.up, j) && Of(w'.down, j) == Of(w.down, j)
  }

  lemma {:induction false} OfOther(q: seq<Msg>, j: nat)
    requires forall m <- q :: m.slot != j
    ensures Of(q, j) == []
  {
    if q == [] {
    } else {
      OfOther(q[1..], j);
    }
  }

  lemma {:induction false} OfOwn(q: seq<Msg>, i: nat)
    requires forall m <- q :: m.slot == i
    ensures Of(q, i) == q
  {
    if q == [] {
    } else {
      OfOwn(q[1..], i);
    }
  }

  /** Taking frames of slot `i` from one end of a queue and adding others, seen per slot. */
  lemma {:induction false} QueueMoves(q: seq<Msg>, n: nat, add: seq<Msg>, i: nat, j: nat)
    requires n <= |q| && forall m <- q[..n] + add :: m.slot == i
    ensures j != i ==> Of(q[n..] + add, j) == Of(q, j)
    ensures j == i ==> n <= |Of(q, i)| && Of(q, i)[..n] == q[..n] && Of(q[n..] + add, i) == Of(q, i)[n..] + add
  {
    assert q == q[..n] + q[n..];
    OfAppend(q[..n], q[n..], j);
    OfAppend(q[n..], add, j);
    assert forall m <- q[..n] :: m in q[..n] + add;
    assert forall m <- add :: m in q[..n] + add;
    if j == i {
      OfOwn(q[..n], i);
      OfOwn(add, i);
    } else {
      OfOther(q[..n], j);
      OfOther(add, j);
    }
  }

  lemma {:induction false} OthersSame(w: World, w': World, i: nat, taken: nat, received: nat, up: seq<Msg>,
                                      down: seq<Msg>)
    requires OnlySlot(w, w', i, taken, received, up, down)
    ensures forall j: nat :: j != i && j < |w.clients| ==> SameFor(w, w', j)
    ensures taken <= |Of(w.up, i)| && Of(w.up, i)[..taken] == w.up[..taken]
    ensures received <= |Of(w.down, i)| && Of(w.down, i)[..received] == w.down[..received]
    ensures Of(w'.up, i) == Of(w.up, i)[taken..] + up && Of(w'.down, i) == Of(w.down, i)[received..] + down
  {
    var all := w.up[..taken] + w.down[..received] + up + down;
    assert forall m <- w.up[..taken] + up :: m in all;
    assert forall m <- w.down[..received] + down :: m in all;
    forall j: nat | j != i && j < |w.clients| ensures SameFor(w, w', j) {
      QueueMoves(w.up, taken, up, i, j);
      QueueMoves(w.down, received, down, i, j);
    }
    QueueMoves(w.up, taken, up, i, i);
    QueueMoves(w.down, received, down, i, i);
  }

  /** An action confined to slot `i` keeps the invariant when it keeps it for that slot. */
  lemma {:induction false} Lift(w: World, w': World, i: nat, taken: nat, received: nat, up: seq<Msg>, down: seq<Msg>)
    requires Inv(w) && OnlySlot(w, w', i, taken, received, up, down) && w'.Unharmed()
    requires forall j: nat :: j != i ==> (w'.waiting == Some(j)) == (w.waiting == Some(j))
    requires taken <= |Of(w.up, i)| && received <= |Of(w.down, i)|
    requires SlotOk(w'.clients[i], w'.servers[i], Of(w.up, i)[taken..] + up, Of(w.down, i)[received..] + down,
                    w'.waiting == Some(i))
    ensures Inv(w')
  {
    OthersSame(w, w', i, taken, received, up, down);
    assert forall m <- up :: m in w.up[..taken] + w.down[..received] + up + down;
    assert forall m <- down :: m in w.up[..taken] + w.down[..received] + up + down;
    assert w'.waiting.Some? && w'.waiting.value != i ==> w.waiting == Some(w'.waiting.value);
    forall j: nat | j < |w.clients|
      ensures SlotOk(w'.clients[j], w'.servers[j], Of(w'.up, j), Of(w'.down, j), w'.waiting == Some(j))
    {
      assert j != i ==> SameFor(w, w', j);
    }
  }

  lemma {:induction false} ClientTakesInv(w: World)
    requires Inv(w) && Enabled(w, ClientTakes)
    ensures Inv(Act(w, ClientTakes))
  {
    var m := w.down[0];
    var r := ClientReceives(w.clients[m.slot], m.kind, m.life);
    var sent := Msgs(m.slot, r.sent, m.life);
    OfMsgs(m.slot, r.sent, m.life, m.slot);
    var w' := Act(w, ClientTakes);
    assert w'.down == w.down[1..] + [];
    OthersSame(w, w', m.slot, 0, 1, sent, []);
    assert Of(w.down, m.slot)[..1][0] == w.down[..1][0];
    ClientTakesOk(w.clients[m.slot], w.servers[m.slot], Of(w.up, m.slot), Of(w.down, m.slot),
                  w.waiting == Some(m.slot), m.slot);
    Lift(w, w', m.slot, 0, 1, sent, []);
  }

  lemma {:induction false} ServerTakesInv(w: World, boots: bool)
    requires Inv(w) && Enabled(w, ServerTakes(boots))
    ensures Inv(Act(w, ServerTakes(boots)))
  {
    var m := w.up[0];
    var r := ServerReceives(w.servers[m.slot], m.kind, m.life, boots);
    var sent := Msgs(m.slot, r.sent, m.life);
    OfMsgs(m.slot, r.sent, m.life, m.slot);
    var w' := Act(w, ServerTakes(boots));
    assert w'.up == w.up[1..] + [];
    OthersSame(w, w', m.slot, 1, 0, [], sent);
    assert Of(w.up, m.slot)[..1][0] == w.up[..1][0];
    ServerTakesOk(w.clients[m.slot], w.servers[m.slot], Of(w.up, m.slot), Of(w.down, m.slot), m.slot, boots);
    Lift(w, w', m.slot, 1, 0, [], sent);
  }

  /** One slot under the client's own acts. */
  lemma {:induction false} ClientActsOk(c: Client, s: Server, up: seq<Msg>, down: seq<Msg>, waiting: bool,
                                        sent: seq<Msg>)
    requires SlotOk(c, s, up, down, waiting)
    ensures !c.running && sent == [] ==>
              SlotOk(Client(true, true, false, false, 0, c.life + 1, c.leftover, true), s, up + sent, down, waiting)
    ensures !c.running && |sent| == 1 && sent[0].kind == Open && sent[0].life == c.life + 1 ==>
              SlotOk(Client(true, true, false, false, 0, c.life + 1, c.leftover, false), s, up + sent, down, waiting)
    ensures c.running && !c.initializing && !c.senderClosed && |sent| == 1 && sent[0].life == c.life ==>
              && (sent[0].kind == Data ==> forall n: nat :: SlotOk(c.(pending := n), s, up + sent, down, waiting))
              && (sent[0].kind == Close ==> SlotOk(c.(senderClosed := true), s, up + sent, down, waiting))
  {
    assert up + [] == up;
  }

  /** An act of the client on its own slot, in which it sends `sent`. */
  lemma {:induction false} ClientActsInv(w: World, w': World, i: nat, c: Client, sent: seq<Msg>)
    requires Inv(w) && i < |w.clients|
    requires w' == w.(clients := w.clients[i := c], up := w.up + sent) && forall m <- sent :: m.slot == i
    requires SlotOk(c, w.servers[i], Of(w.up, i) + sent, Of(w.down, i), w.waiting == Some(i))
    ensures Inv(w')
  {
    assert w'.up == w.up[0..] + sent && w'.down == w.down[0..] + [] && Of(w.down, i)[0..] + [] == Of(w.down, i);
    assert w.up[..0] + w.down[..0] + sent + [] == sent && Of(w.up, i)[0..] == Of(w.up, i);
    Lift(w, w', i, 0, 0, sent, []);
  }

  lemma {:induction false} RequestInv(w: World, i: nat, sends: bool)
    requires Inv(w) && Enabled(w, Request(i, sends))
    ensures Inv(Act(w, Request(i, sends)))
  {
    var w' := Act(w, Request(i, sends));
    var sent := if sends then [Msg(i, Open, w.clients[i].life + 1)] else [];
    ClientActsOk(w.clients[i], w.servers[i], Of(w.up, i), Of(w.down, i), w.waiting == Some(i), sent);
    ClientActsInv(w, w', i, w'.clients[i], sent);
  }

  lemma {:induction false} SegmentInv(w: World, i: nat, pending: nat)
    requires Inv(w) && i < |w.clients| && w.clients[i].running && !w.clients[i].initializing
    requires !w.clients[i].senderClosed
    ensures var c := w.clients[i];
            Inv(w.(clients := w.clients[i := c.(pending := pending)], up := w.up + [Msg(i, Data, c.life)]))
  {
    var c, sent := w.clients[i], [Msg(i, Data, w.clients[i].life)];
    var w' := w.(clients := w.clients[i := c.(pending := pending)], up := w.up + sent);
    ClientActsOk(c, w.servers[i], Of(w.up, i), Of(w.down, i), w.waiting == Some(i), sent);
    ClientActsInv(w, w', i, c.(pending := pending), sent);
  }

  lemma {:induction false} SendDataInv(w: World, i: nat, more: nat)
    requires Inv(w) && Enabled(w, SendData(i, more))
    ensures Inv(Act(w, SendData(i, more)))
  {
    SegmentInv(w, i, more);
  }

  lemma {:induction false} UserCloseInv(w: World, i: nat)
    requires Inv(w) && Enabled(w, UserClose(i)) && Orderly(w, UserClose(i)) && !w.clients[i].senderClosed
    ensures Inv(Act(w, UserClose(i)))
  {
    var c, sent := w.clients[i], [Msg(i, Close, w.clients[i].life)];
    ClientActsOk(c, w.servers[i], Of(w.up, i), Of(w.down, i), w.waiting == Some(i), sent);
    ClientActsInv(w, Act(w, UserClose(i)), i, c.(senderClosed := true), sent);
  }

  lemma {:induction false} NextSegmentInv(w: World, i: nat)
    requires Inv(w) && Enabled(w, NextSegment(i)) && Orderly(w, NextSegment(i))
    ensures Inv(Act(w, NextSegment(i)))
  {
    assert SlotOk(w.clients[i], w.servers[i], Of(w.up, i), Of(w.down, i), w.waiting == Some(i));
    SegmentInv(w, i, w.clients[i].pending - 1);
  }

  lemma {:induction false} MachineActsOk(c: Client, s: Server, up: seq<Msg>, down: seq<Msg>, waiting: bool, m: Msg)
    requires SlotOk(c, s, up, down, waiting) && s.running && s.remote && m.life == s.life
    ensures m.kind == Data ==> SlotOk(c, s, up, down + [m], waiting)
    ensures m.kind == Close ==> SlotOk(c, s.(remote := false), up, down + [m], waiting)
  {
    if down != [] { assert (down + [m])[1..] == down[1..] + [m]; }
  }

  lemma {:induction false} CloseReturnsOk(c: Client, s: Server, up: seq<Msg>, down: seq<Msg>, m: Msg)
    requires SlotOk(c, s, up, down, true) && !s.remote && m.life == s.life && m.kind == Completed
    ensures SlotOk(c, s, up, down + [m], false)
  {
  }

  lemma {:induction false} ServerActsInv(w: World, a: Action)
    requires Inv(w) && Enabled(w, a) && (a.MachineSends? || a.MachineExits? || a.CloseReturns?)
    ensures Inv(Act(w, a))
  {
    var w' := Act(w, a);
    var m := w'.down[|w.down|];
    var i := m.slot;
    var up, down := Of(w.up, i), Of(w.down, i);
    assert w'.up == w.up[0..] + [] && w'.down == w.down[0..] + [m];
    assert up == up[0..] + [] && down == down[0..];
    if a.CloseReturns? {
      CloseReturnsOk(w.clients[i], w.servers[i], up, down, m);
    } else {
      MachineActsOk(w.clients[i], w.servers[i], up, down, w.waiting == Some(i), m);
    }
    Lift(w, w', i, 0, 0, [], [m]);
  }

  lemma {:induction false} ActKeepsInv(w: World, a: Action)
    requires Inv(w) && Enabled(w, a) && Orderly(w, a)
    ensures Inv(Act(w, a))
  {
    match a
    case ClientTakes => ClientTakesInv(w);
    case ServerTakes(boots) => ServerTakesInv(w, boots);
    case UserClose(i) => if !w.clients[i].senderClosed { UserCloseInv(w, i); }
    case Request(i, sends) => RequestInv(w, i, sends);
    case SendData(i, more) => SendDataInv(w, i, more);
    case NextSegment(i) => NextSegmentInv(w, i);
    case MachineSends(_) => ServerActsInv(w, a);
    case MachineExits(_) => ServerActsInv(w, a);
    case CloseReturns => ServerActsInv(w, a);
  }

  /** Both ends before anything happened, with `n` slots. */
  function Start(n: nat): World {
    World(seq(n, i => FRESH), seq(n, i => Server(false, false, false, 0)), [], [], None, false, false, false)
  }

  /** The actions can be taken one after another. */
  ghost predicate Runs(w: World, run: seq<Action>)
    decreases |run|
  {
    run == [] || (Enabled(w, run[0]) && Runs(Act(w, run[0]), run[1..]))
  }

  ghost function After(w: World, run: seq<Action>): World
    requires Runs(w, run)
    decreases |run|
  {
    if run == [] then w else After(Act(w, run[0]), run[1..])
  }

  /** ... and no frame is sent out of order. */
  ghost predicate OrderlyRun(w: World, run: seq<Action>)
    requires Runs(w, run)
    decreases |run|
  {
    run == [] || (Orderly(w, run[0]) && OrderlyRun(Act(w, run[0]), run[1..]))
  }

  lemma {:induction false} RunKeepsInv(w: World, run: seq<Action>)
    requires Inv(w) && Runs(w, run) && OrderlyRun(w, run)
    ensures Inv(After(w, run))
    decreases |run|
  {
    if run == [] {
    } else {
      ActKeepsInv(w, run[0]);
      RunKeepsInv(Act(w, run[0]), run[1..]);
    }
  }

  /**
   * Handshake safety: with any number of slots, of frames under way, of closes by either or both
   * ends, of requests that throw, and of reuses of a slot, no frame is refused, taken for a frame of
   * another kind, or taken by another session; and a slot whose server side is free has nothing
   * of an earlier session left on the way up but what precedes its opening.
   */
  lemma {:induction false} NothingIsRejected(n: nat, run: seq<Action>)
    requires Runs(Start(n), run) && OrderlyRun(Start(n), run)
    ensures After(Start(n), run).Unharmed()
    ensures var w := After(Start(n), run);
            forall i :: 0 <= i < n && i < |w.servers| && !w.servers[i].running ==>
              var q := Of(w.up, i); q == [] || (|q| == 1 && q[0].kind == Open)
  {
    StartInv(n);
    RunKeepsInv(Start(n), run);
  }

  lemma {:induction false} StartInv(n: nat)
    ensures Inv(Start(n))
  {
    forall i | 0 <= i < n
      ensures SlotOk(Start(n).clients[i], Start(n).servers[i], Of([], i), Of([], i), false) {}
  }

  /**
   * The handshake never gets stuck half way: when nothing is under way any more and no machine is
   * being closed, every slot is free at both ends, or open at both ends with its machine running,
   * or the client waits for an answer to a request that was never sent. The last is so exactly when
   * the command threw while it was started.
   */
  lemma {:induction false} NoHalfClosedSlot(w: World, i: nat)
    requires Inv(w) && i < |w.clients| && w.up == [] && w.down == [] && w.waiting.None?
    ensures var c, s := w.clients[i], w.servers[i];
            && (!c.running ==> !s.running)
            && (c.running && !c.unsent ==>
                  !c.initializing && !c.shuttingDown && !c.senderClosed
                  && s.running && !s.closed && s.remote && c.life == s.life)
            && (c.running && c.unsent ==> c.initializing && !s.running)
  {
    assert SlotOk(w.clients[i], w.servers[i], Of([], i), Of([], i), false);
  }

  /** The handler waits for a machine that runs. */
  lemma {:induction false} WaitingRuns(v: World, j: nat)
    requires Inv(v) && v.waiting == Some(j)
    ensures v.servers[j].running
  {
    assert SlotOk(v.clients[j], v.servers[j], Of(v.up, j), Of(v.down, j), true);
  }

  // ---------- A request that was never sent ----------

  /** The slot is taken, and no answer will come. */
  predicate Lost(w: World, i: nat, life: nat) {
    i < |w.clients| && w.clients[i].running && w.clients[i].unsent && w.clients[i].life == life
  }

  lemma {:induction false} StaysLost(w: World, a: Action, i: nat, life: nat)
    requires Inv(w) && Enabled(w, a) && Orderly(w, a) && Lost(w, i, life)
    ensures Lost(Act(w, a), i, life)
  {
    assert SlotOk(w.clients[i], w.servers[i], Of(w.up, i), Of(w.down, i), w.waiting == Some(i));
    if a.ClientTakes? {
      assert w.down[0].slot != i;
    }
  }

  /** A slot whose opening frame was never sent stays taken over every orderly run. */
  lemma {:induction false} UnsentSlotIsLost(w: World, run: seq<Action>, i: nat, life: nat)
    requires Inv(w) && Runs(w, run) && OrderlyRun(w, run) && Lost(w, i, life)
    ensures Lost(After(w, run), i, life)
    decreases |run|
  {
    if run == [] {
    } else {
      StaysLost(w, run[0], i, life);
      ActKeepsInv(w, run[0]);
      UnsentSlotIsLost(Act(w, run[0]), run[1..], i, life);
    }
  }
}
