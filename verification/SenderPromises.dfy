/** When the coalescing sender settles the promises it gave out, and that it always does. */
module SenderPromises {
  import opened Bytes
  import opened SenderSpec
  import opened SenderConservation

  /** Where the data of send `k` begins in the byte stream; that of send `k - 1` ends there. */
  function Start(accepted: seq<seq<Byte>>, k: nat): nat {
    if k == 0 then 0
    else if k > |accepted| then Start(accepted, k - 1)
    else Start(accepted, k - 1) + |accepted[k - 1]|
  }

  /** Where segment `j` begins in the same stream. */
  function From(segments: seq<Segment>, j: nat): nat {
    if j == 0 then 0
    else if j > |segments| then From(segments, j - 1)
    else From(segments, j - 1) + |segments[j - 1].bytes|
  }

  function Handed(st: State): nat {
    From(st.segments, |st.segments|)
  }

  function Sends(queue: seq<Item>): nat {
    if queue == [] then 0 else (if queue[0].Send? then 1 else 0) + Sends(queue[1..])
  }

  /** The sends in the channel are those from `next` on, each with its data. */
  predicate InOrder(queue: seq<Item>, next: nat, accepted: seq<seq<Byte>>) {
    if queue == [] then next == |accepted|
    else if queue[0].Send? then
      next < |accepted| && queue[0].id == next && queue[0].data == accepted[next]
      && InOrder(queue[1..], next + 1, accepted)
    else InOrder(queue[1..], next, accepted)
  }

  /** Segment `j` carries a byte of send `k`. */
  predicate Carries(segments: seq<Segment>, j: nat, accepted: seq<seq<Byte>>, k: nat) {
    From(segments, j) < Start(accepted, k + 1) && Start(accepted, k) < From(segments, j + 1)
  }

  /** Every segment with a byte of send `k` in it was taken by the transport. */
  ghost predicate AllTaken(segments: seq<Segment>, accepted: seq<seq<Byte>>, k: nat) {
    forall j: nat :: j < |segments| && Carries(segments, j, accepted, k) ==> segments[j].ok
  }

  /**
   * `lo` sends are handed over to the end, `hi` were read from the channel; the callbacks kept by
   * the loop are those in between.
   */
  ghost predicate Window(st: State, lo: nat, hi: nat) {
    && lo <= hi <= |st.accepted|
    && NoneEmpty(st.accepted) && Consecutive(st.callbacks, lo, hi) && InOrder(st.queue, hi, st.accepted)
    && Between(st.accepted, Handed(st), |Held(st)|, lo, hi) && Resuming(st.loop, st.accepted, lo, hi)
  }

  predicate NoneEmpty(accepted: seq<seq<Byte>>) {
    forall d <- accepted :: d != []
  }

  predicate Consecutive(callbacks: seq<nat>, lo: nat, hi: nat) {
    lo + |callbacks| == hi && forall j :: 0 <= j < |callbacks| ==> callbacks[j] == lo + j
  }

  /** What is handed over ends within send `lo`, and what is held ends with send `hi - 1`. */
  predicate Between(accepted: seq<seq<Byte>>, handed: nat, held: nat, lo: nat, hi: nat) {
    && Start(accepted, hi) == handed + held && Start(accepted, lo) <= handed
    && (lo < hi ==> handed < Start(accepted, lo + 1))
  }

  /** A send that is cut by a full segment is the last one read. */
  predicate Resuming(loop: Loop, accepted: seq<seq<Byte>>, lo: nat, hi: nat)
    requires hi <= |accepted|
  {
    loop.Transmitting? && loop.resume.AfterFull? ==>
      lo < hi && loop.resume.id == hi - 1 && |loop.resume.rest| < |accepted[hi - 1]|
  }

  /** A promise is broken exactly when a segment with a byte of the send in it did not go through. */
  ghost predicate Kept(segments: seq<Segment>, accepted: seq<seq<Byte>>, settled: map<nat, bool>, lo: nat, hi: nat) {
    && (forall k :: k in settled ==> k < hi)
    && (forall k :: 0 <= k < lo ==> k in settled)
    && (forall k :: k in settled && settled[k] ==> k < lo)
    && (forall k: nat :: k < hi && (k in settled ==> settled[k]) ==> AllTaken(segments, accepted, k))
    && (forall k: nat :: k in settled && !settled[k] ==> !AllTaken(segments, accepted, k))
  }

  ghost predicate Promises(st: State, lo: nat, hi: nat) {
    Window(st, lo, hi) && Kept(st.segments, st.accepted, st.settled, lo, hi)
  }

  lemma {:induction false} StartMonotone(accepted: seq<seq<Byte>>, a: nat, b: nat)
    requires a <= b
    ensures Start(accepted, a) <= Start(accepted, b)
    decreases b - a
  {
    if a == b {
    } else {
      StartMonotone(accepted, a, b - 1);
    }
  }

  lemma {:induction false} StartSnoc(accepted: seq<seq<Byte>>, d: seq<Byte>, k: nat)
    requires k <= |accepted|
    ensures Start(accepted + [d], k) == Start(accepted, k)
  {
    if k == 0 {
    } else {
      StartSnoc(accepted, d, k - 1);
    }
  }

  lemma {:induction false} FromSnoc(segments: seq<Segment>, s: Segment, j: nat)
    requires j <= |segments|
    ensures From(segments + [s], j) == From(segments, j)
  {
    if j == 0 {
    } else {
      FromSnoc(segments, s, j - 1);
    }
  }

  lemma {:induction false} FromMonotone(segments: seq<Segment>, a: nat, b: nat)
    requires a <= b
    ensures From(segments, a) <= From(segments, b)
    decreases b - a
  {
    if a == b {
    } else {
      FromMonotone(segments, a, b - 1);
    }
  }

  lemma {:induction false} InOrderAppend(queue: seq<Item>, next: nat, accepted: seq<seq<Byte>>, token: Item)
    requires InOrder(queue, next, accepted) && !token.Send?
    ensures InOrder(queue + [token], next, accepted)
    decreases |queue|
  {
    if queue != [] {
      assert (queue + [token])[1..] == queue[1..] + [token];
      InOrderAppend(queue[1..], if queue[0].Send? then next + 1 else next, accepted, token);
    } else {
      assert (queue + [token])[1..] == [];
    }
  }

  lemma {:induction false} InOrderSend(queue: seq<Item>, next: nat, accepted: seq<seq<Byte>>, data: seq<Byte>)
    requires InOrder(queue, next, accepted)
    ensures InOrder(queue + [Send(|accepted|, data)], next, accepted + [data])
    decreases |queue|
  {
    var item := Send(|accepted|, data);
    if queue != [] {
      assert (queue + [item])[1..] == queue[1..] + [item];
      InOrderSend(queue[1..], if queue[0].Send? then next + 1 else next, accepted, data);
    } else {
      assert (queue + [item])[1..] == [];
    }
  }

  // ---------- Each step ----------

  lemma {:induction false} TokenPromises(st: State, after: State, token: Item, lo: nat, hi: nat)
    requires Promises(st, lo, hi) && !token.Send?
    requires after == st.(queue := st.queue + [token], timer := after.timer, closed := after.closed,
                          bufferedRequests := after.bufferedRequests)
    ensures Promises(after, lo, hi)
  {
    InOrderAppend(st.queue, hi, st.accepted, token);
  }

  lemma {:induction false} QueueWindow(st: State, after: State, data: seq<Byte>, lo: nat, hi: nat)
    requires Window(st, lo, hi) && data != []
    requires after == st.(queue := st.queue + [Send(|st.accepted|, data)], accepted := st.accepted + [data],
                          timer := after.timer, bufferedRequests := after.bufferedRequests)
    ensures Window(after, lo, hi)
  {
    InOrderSend(st.queue, hi, st.accepted, data);
    StartSnoc(st.accepted, data, hi);
    StartSnoc(st.accepted, data, lo);
    if lo < hi { StartSnoc(st.accepted, data, lo + 1); }
  }

  lemma {:induction false} SameCarriers(segments: seq<Segment>, accepted: seq<seq<Byte>>, data: seq<Byte>, k: nat)
    requires k < |accepted|
    ensures AllTaken(segments, accepted + [data], k) <==> AllTaken(segments, accepted, k)
  {
    StartSnoc(accepted, data, k);
    StartSnoc(accepted, data, k + 1);
    assert forall j: nat :: Carries(segments, j, accepted + [data], k) == Carries(segments, j, accepted, k);
  }

  lemma {:induction false} SendPromises(cfg: Config, st: State, data: seq<Byte>, lo: nat, hi: nat)
    requires Promises(st, lo, hi) && data != []
    ensures Promises(SendData(cfg, st, data), lo, hi)
  {
    var queued := st.(queue := st.queue + [Send(|st.accepted|, data)], accepted := st.accepted + [data]);
    QueueWindow(st, queued, data, lo, hi);
    forall k: nat | k < hi
      ensures AllTaken(st.segments, st.accepted + [data], k) <==> AllTaken(st.segments, st.accepted, k)
    {
      SameCarriers(st.segments, st.accepted, data, k);
    }
    if st.bufferedRequests + 1 >= cfg.maxBufferedRequests {
      TokenPromises(queued, SendData(cfg, st, data), Flush(false), lo, hi);
    }
  }

  lemma {:induction false} SameWindow(st: State, after: State, lo: nat, hi: nat)
    requires Window(st, lo, hi) && after.accepted == st.accepted && after.callbacks == st.callbacks
    requires after.queue == st.queue && after.segments == st.segments && |Held(after)| == |Held(st)|
    requires Resuming(after.loop, st.accepted, lo, hi)
    ensures Window(after, lo, hi)
  {
  }

  /** A full segment of the data leaves the loop with less than the whole send to go. */
  lemma {:induction false} FillResumes(cfg: Config, st: State, lo: nat, hi: nat, data: seq<Byte>)
    requires |st.buffer| < cfg.maxSegSize && data != [] && lo < hi <= |st.accepted|
    requires |data| <= |st.accepted[hi - 1]|
    ensures Resuming(Fill(cfg, st, hi - 1, data).loop, st.accepted, lo, hi)
  {
  }

  lemma {:induction false} FillHolds(cfg: Config, st: State, id: nat, data: seq<Byte>)
    requires |st.buffer| < cfg.maxSegSize
    ensures var after := Fill(cfg, st, id, data);
            && |Held(after)| == |Held(st.(loop := Subscribed, buffer := st.buffer + data))|
            && after.accepted == st.accepted && after.callbacks == st.callbacks && after.queue == st.queue
            && after.segments == st.segments && after.settled == st.settled
  {
    FillBytes(cfg, st, id, data);
  }

  /** Reading a send: it joins the callbacks, and nothing is handed over yet. */
  lemma {:induction false} FillWindow(cfg: Config, st: State, lo: nat, hi: nat, data: seq<Byte>)
    requires |st.buffer| < cfg.maxSegSize && data != [] && lo < hi
    requires Window(st.(loop := Subscribed, buffer := st.buffer + data), lo, hi) && |data| <= |st.accepted[hi - 1]|
    ensures Window(Fill(cfg, st, hi - 1, data), lo, hi)
  {
    var copied := st.(loop := Subscribed, buffer := st.buffer + data);
    FillHolds(cfg, st, hi - 1, data);
    FillResumes(cfg, st, lo, hi, data);
    SameWindow(copied, Fill(cfg, st, hi - 1, data), lo, hi);
  }

  lemma {:induction false} NotCarriedYet(st: State, k: nat)
    requires Handed(st) <= Start(st.accepted, k)
    ensures AllTaken(st.segments, st.accepted, k)
  {
    forall j: nat | j < |st.segments| ensures !Carries(st.segments, j, st.accepted, k) {
      FromMonotone(st.segments, j + 1, |st.segments|);
    }
  }

  lemma {:induction false} ReadSend(st: State, lo: nat, hi: nat)
    requires Window(st, lo, hi) && st.loop.Subscribed? && st.queue != [] && st.queue[0].Send?
    ensures hi < |st.accepted| && st.queue[0].id == hi && st.queue[0].data == st.accepted[hi] != []
    ensures InOrder(st.queue[1..], hi + 1, st.accepted)
    ensures Start(st.accepted, hi) == Handed(st) + |st.buffer|
  {
    assert st.accepted[hi] in st.accepted && Held(st) == st.buffer;
  }

  /** A send read from the channel and copied into a buffer without bounds. */
  lemma {:induction false} ReadWindow(st: State, lo: nat, hi: nat)
    requires Window(st, lo, hi) && st.loop.Subscribed? && hi < |st.accepted| && st.accepted[hi] != []
    requires Start(st.accepted, hi) == Handed(st) + |st.buffer|
    requires st.queue != [] && InOrder(st.queue[1..], hi + 1, st.accepted)
    ensures Window(st.(queue := st.queue[1..], callbacks := st.callbacks + [hi],
                       buffer := st.buffer + st.accepted[hi]), lo, hi + 1)
  {
    var after := st.(queue := st.queue[1..], callbacks := st.callbacks + [hi], buffer := st.buffer + st.accepted[hi]);
    assert Held(after) == after.buffer && Handed(after) == Handed(st);
    assert Start(st.accepted, hi + 1) == Start(st.accepted, hi) + |st.accepted[hi]|;
  }

  lemma {:induction false} TakeSendWindow(cfg: Config, st: State, lo: nat, hi: nat)
    requires Shape(cfg, st) && Window(st, lo, hi) && st.loop.Subscribed? && st.queue != [] && st.queue[0].Send?
    ensures Window(TakeItem(cfg, st), lo, hi + 1) && Handed(st) <= Start(st.accepted, hi)
  {
    ReadSend(st, lo, hi);
    ReadWindow(st, lo, hi);
    FillWindow(cfg, st.(queue := st.queue[1..], callbacks := st.callbacks + [hi]), lo, hi + 1, st.accepted[hi]);
  }

  lemma {:induction false} TakeTokenWindow(cfg: Config, st: State, lo: nat, hi: nat)
    requires Shape(cfg, st) && Window(st, lo, hi) && st.loop.Subscribed? && st.queue != [] && !st.queue[0].Send?
    ensures Window(TakeItem(cfg, st), lo, hi)
  {
    var after := TakeItem(cfg, st);
    assert |Held(st)| == |st.buffer| == |Held(after)|;
    assert Handed(after) == Handed(st) && InOrder(after.queue, hi, st.accepted);
    assert Resuming(after.loop, st.accepted, lo, hi);
  }

  lemma {:induction false} TakeSettlesNothing(cfg: Config, st: State)
    requires st.loop.Subscribed? && st.queue != []
    ensures var after := TakeItem(cfg, st);
            after.segments == st.segments && after.accepted == st.accepted && after.settled == st.settled
  {
  }

  lemma {:induction false} TakePromises(cfg: Config, st: State, lo: nat, hi: nat)
    requires Shape(cfg, st) && Promises(st, lo, hi) && st.loop.Subscribed? && st.queue != []
    ensures Promises(TakeItem(cfg, st), lo, if st.queue[0].Send? then hi + 1 else hi)
  {
    TakeSettlesNothing(cfg, st);
    if st.queue[0].Send? {
      TakeSendWindow(cfg, st, lo, hi);
      NotCarriedYet(st, hi);
      assert Kept(st.segments, st.accepted, st.settled, lo, hi + 1);
    } else {
      TakeTokenWindow(cfg, st, lo, hi);
    }
  }

  /** What earlier segments carry does not change with one more. */
  lemma {:induction false} CarriedBefore(segments: seq<Segment>, s: Segment, accepted: seq<seq<Byte>>, j: nat, k: nat)
    requires j < |segments|
    ensures Carries(segments + [s], j, accepted, k) <==> Carries(segments, j, accepted, k)
  {
    FromSnoc(segments, s, j);
    FromSnoc(segments, s, j + 1);
  }

  /** The segment just handed over begins where the earlier ones ended. */
  lemma {:induction false} CarriedLast(segments: seq<Segment>, s: Segment, accepted: seq<seq<Byte>>, k: nat)
    ensures var from := From(segments, |segments|);
            Carries(segments + [s], |segments|, accepted, k)
            <==> from < Start(accepted, k + 1) && Start(accepted, k) < from + |s.bytes|
  {
    FromSnoc(segments, s, |segments|);
  }

  lemma {:induction false} TakenGrows(segments: seq<Segment>, s: Segment, accepted: seq<seq<Byte>>, k: nat)
    ensures var last := Carries(segments + [s], |segments|, accepted, k);
            AllTaken(segments + [s], accepted, k) <==> AllTaken(segments, accepted, k) && (last ==> s.ok)
  {
    var after := segments + [s];
    forall j: nat | j < |segments|
      ensures (Carries(after, j, accepted, k) ==> after[j].ok)
              <==> (Carries(segments, j, accepted, k) ==> segments[j].ok)
    {
      CarriedBefore(segments, s, accepted, j, k);
    }
    assert AllTaken(after, accepted, k) ==> AllTaken(segments, accepted, k) by {
      if AllTaken(after, accepted, k) {
        forall j: nat | j < |segments| && Carries(segments, j, accepted, k) ensures segments[j].ok {
          assert after[j] == segments[j];
        }
      }
    }
  }

  /** Every send that waits in the callbacks has a byte in the segment, and no settled one has. */
  lemma {:induction false} WhoIsCarried(st: State, lo: nat, hi: nat, k: nat, s: Segment)
    requires Window(st, lo, hi) && st.loop.Transmitting? && st.buffer == [] && s.bytes == st.loop.segment && k < hi
    ensures Carries(st.segments + [s], |st.segments|, st.accepted, k) <==> lo <= k
  {
    CarriedLast(st.segments, s, st.accepted, k);
    if k < lo {
      StartMonotone(st.accepted, k + 1, lo);
    } else {
      StartMonotone(st.accepted, lo + 1, k + 1);
      StartMonotone(st.accepted, k, hi - 1);
      assert st.accepted[hi - 1] in st.accepted;
      assert Start(st.accepted, hi) == Start(st.accepted, hi - 1) + |st.accepted[hi - 1]|;
    }
  }

  lemma {:induction false} Due(st: State, lo: nat, hi: nat, n: nat, k: nat)
    requires Window(st, lo, hi) && n <= hi - lo
    ensures k in st.callbacks[..n] <==> lo <= k < lo + n
  {
    if lo <= k < lo + n {
      assert st.callbacks[..n][k - lo] == k;
    }
    if k in st.callbacks[..n] {
      var j :| 0 <= j < n && st.callbacks[..n][j] == k;
    }
  }

  /** Settling the sends from `lo` to `upTo` with the fate of the segment just handed over. */
  lemma {:induction false} SettleKept(st: State, ok: bool, lo: nat, hi: nat, upTo: nat, settled: map<nat, bool>)
    requires Promises(st, lo, hi) && st.loop.Transmitting? && st.buffer == [] && lo <= upTo <= hi
    requires settled == Settle(st.settled, st.callbacks[..(if ok then upTo - lo else hi - lo)], ok)
    ensures Kept(st.segments + [Segment(st.loop.segment, ok)], st.accepted, settled, upTo, hi)
  {
    var s, n := Segment(st.loop.segment, ok), if ok then upTo - lo else hi - lo;
    forall k: nat ensures k in settled <==> k in st.settled || lo <= k < lo + n {
      Due(st, lo, hi, n, k);
    }
    forall k: nat | k < hi
      ensures AllTaken(st.segments + [s], st.accepted, k)
              <==> AllTaken(st.segments, st.accepted, k) && (lo <= k ==> ok)
    {
      TakenGrows(st.segments, s, st.accepted, k);
      WhoIsCarried(st, lo, hi, k, s);
    }
  }

  lemma {:induction false} HandedSnoc(segments: seq<Segment>, s: Segment)
    ensures From(segments + [s], |segments + [s]|) == From(segments, |segments|) + |s.bytes|
  {
    FromSnoc(segments, s, |segments|);
  }

  lemma {:induction false} AllSettledWindow(st: State, ok: bool, lo: nat, hi: nat)
    requires Window(st, lo, hi) && st.loop.Transmitting? && st.buffer == [] && Remainder(st.loop) == []
    ensures Window(AllSettled(st, ok), hi, hi)
  {
    var after := AllSettled(st, ok);
    HandedSnoc(st.segments, Segment(st.loop.segment, ok));
    assert |Held(st)| == |st.loop.segment| && |Held(after)| == 0;
    assert Between(st.accepted, Handed(after), 0, hi, hi);
    assert Consecutive([], hi, hi) && Resuming(Subscribed, st.accepted, hi, hi);
  }

  /** The rest of the last send, were it copied into a buffer without bounds. */
  lemma {:induction false} MostSettledWindow(st: State, ok: bool, lo: nat, hi: nat)
    requires Window(st, lo, hi) && st.loop.Transmitting? && st.buffer == [] && Remainder(st.loop) != []
    ensures Window(MostSettled(st, ok, hi - 1).(loop := Subscribed, buffer := [] + st.loop.resume.rest), hi - 1, hi)
  {
    var after := MostSettled(st, ok, hi - 1).(loop := Subscribed, buffer := [] + st.loop.resume.rest);
    HandedSnoc(st.segments, Segment(st.loop.segment, ok));
    assert |Held(st)| == |st.loop.segment| + |st.loop.resume.rest| && |Held(after)| == |st.loop.resume.rest|;
    assert Start(st.accepted, hi) == Start(st.accepted, hi - 1) + |st.accepted[hi - 1]|;
    assert Between(st.accepted, Handed(after), |Held(after)|, hi - 1, hi);
    assert Consecutive([hi - 1], hi - 1, hi) && Resuming(Subscribed, st.accepted, hi - 1, hi);
  }

  lemma {:induction false} LastSegmentPromises(st: State, ok: bool, answered: bool, lo: nat, hi: nat)
    requires Promises(st, lo, hi) && st.loop.Transmitting? && st.buffer == [] && Remainder(st.loop) == []
    ensures Promises(AllSettled(st, ok).(flushAnswered := answered), hi, hi)
  {
    assert st.callbacks[..hi - lo] == st.callbacks;
    AllSettledWindow(st, ok, lo, hi);
    SameWindow(AllSettled(st, ok), AllSettled(st, ok).(flushAnswered := answered), hi, hi);
    SettleKept(st, ok, lo, hi, hi, Settle(st.settled, st.callbacks, ok));
  }

  lemma {:induction false} MostSettledKept(st: State, ok: bool, lo: nat, hi: nat)
    requires Promises(st, lo, hi) && st.loop.Transmitting? && st.buffer == [] && lo < hi
    ensures var after := MostSettled(st, ok, hi - 1);
            Kept(after.segments, after.accepted, after.settled, hi - 1, hi)
  {
    assert st.callbacks[..hi - lo] == st.callbacks;
    SettleKept(st, ok, lo, hi, hi - 1, MostSettled(st, ok, hi - 1).settled);
  }

  lemma {:induction false} MoreSegmentsWindow(cfg: Config, st: State, after: State, ok: bool, lo: nat, hi: nat)
    requires |st.buffer| < cfg.maxSegSize && st.buffer == []
    requires Window(st, lo, hi) && st.loop.Transmitting? && Remainder(st.loop) != []
    requires after == Fill(cfg, MostSettled(st, ok, hi - 1), hi - 1, st.loop.resume.rest)
    ensures Window(after, hi - 1, hi)
  {
    MostSettledWindow(st, ok, lo, hi);
    FillWindow(cfg, MostSettled(st, ok, hi - 1), hi - 1, hi, st.loop.resume.rest);
  }

  lemma {:induction false} MoreSegmentsPromises(cfg: Config, st: State, after: State, ok: bool, lo: nat, hi: nat)
    requires |st.buffer| < cfg.maxSegSize && st.buffer == []
    requires Promises(st, lo, hi) && st.loop.Transmitting? && Remainder(st.loop) != []
    requires after == Fill(cfg, MostSettled(st, ok, hi - 1), hi - 1, st.loop.resume.rest)
    ensures Promises(after, hi - 1, hi)
  {
    MoreSegmentsWindow(cfg, st, after, ok, lo, hi);
    MostSettledKept(st, ok, lo, hi);
    FillHolds(cfg, MostSettled(st, ok, hi - 1), hi - 1, st.loop.resume.rest);
  }

  lemma {:induction false} TransmittedIs(cfg: Config, st: State, ok: bool)
    requires st.loop.Transmitting?
    ensures var after := Transmitted(cfg, st, ok);
            after == if Remainder(st.loop) == [] then AllSettled(st, ok).(flushAnswered := after.flushAnswered)
                     else Fill(cfg, MostSettled(st, ok, st.loop.resume.id), st.loop.resume.id, st.loop.resume.rest)
  {
  }

  lemma {:induction false} ResumesLast(st: State, lo: nat, hi: nat)
    requires Window(st, lo, hi) && st.loop.Transmitting? && Remainder(st.loop) != []
    ensures lo < hi && st.loop.resume.id == hi - 1
  {
  }

  lemma {:induction false} TransmittedPromises(cfg: Config, st: State, after: State, ok: bool, lo: nat, hi: nat)
    requires |st.buffer| < cfg.maxSegSize && st.buffer == [] && Promises(st, lo, hi)
    requires st.loop.Transmitting? && after == Transmitted(cfg, st, ok)
    ensures Remainder(st.loop) != [] ==> Promises(after, hi - 1, hi)
    ensures Remainder(st.loop) == [] ==> Promises(after, hi, hi)
  {
    TransmittedIs(cfg, st, ok);
    if Remainder(st.loop) == [] {
      LastSegmentPromises(st, ok, after.flushAnswered, lo, hi);
    } else {
      ResumesLast(st, lo, hi);
      MoreSegmentsPromises(cfg, st, after, ok, lo, hi);
    }
  }

  // ---------- Whole runs ----------

  ghost predicate Good(cfg: Config, st: State) {
    Flows(cfg, st) && exists lo: nat, hi: nat :: Promises(st, lo, hi)
  }

  lemma {:induction false} ActGood(cfg: Config, st: State, a: Action)
    requires Good(cfg, st) && Enabled(st, a)
    ensures Good(cfg, Act(cfg, st, a))
  {
    ActFlows(cfg, st, a);
    var lo: nat, hi: nat :| Promises(st, lo, hi);
    match a
    case DoSend(data) => SendPromises(cfg, st, data, lo, hi);
    case DoTake => TakePromises(cfg, st, lo, hi);
    case DoTransmitted(ok) => TransmittedPromises(cfg, st, Act(cfg, st, a), ok, lo, hi);
    case DoFire => TokenPromises(st, Fire(st), Flush(false), lo, hi);
    case DoClose => if !st.closed { TokenPromises(st, Close(st), Flush(true), lo, hi); }
    case DoClosed =>
      assert Closed(st) == st.(queue := st.queue + [Stop], bufferedRequests := 0);
      TokenPromises(st, Closed(st), Stop, lo, hi);
  }

  ghost predicate Runs(cfg: Config, st: State, run: seq<Action>)
    decreases |run|
  {
    run == [] || (Enabled(st, run[0]) && Runs(cfg, Act(cfg, st, run[0]), run[1..]))
  }

  ghost function After(cfg: Config, st: State, run: seq<Action>): State
    requires Runs(cfg, st, run)
    decreases |run|
  {
    if run == [] then st else After(cfg, Act(cfg, st, run[0]), run[1..])
  }

  lemma {:induction false} RunGood(cfg: Config, st: State, run: seq<Action>)
    requires Good(cfg, st) && Runs(cfg, st, run)
    ensures Good(cfg, After(cfg, st, run))
    decreases |run|
  {
    if run == [] {
    } else {
      ActGood(cfg, st, run[0]);
      RunGood(cfg, Act(cfg, st, run[0]), run[1..]);
    }
  }

  lemma {:induction false} StartGood(cfg: Config)
    requires cfg.maxSegSize > 0
    ensures Good(cfg, START)
  {
    assert Promises(START, 0, 0);
  }

  lemma {:induction false} InOrderCounts(queue: seq<Item>, next: nat, accepted: seq<seq<Byte>>)
    requires InOrder(queue, next, accepted)
    ensures next + Sends(queue) == |accepted|
    decreases |queue|
  {
    if queue == [] {
    } else {
      InOrderCounts(queue[1..], if queue[0].Send? then next + 1 else next, accepted);
    }
  }

  /**
   * For any interleaving of sends, timers, consumer steps, transport results and close: bytes are
   * handed over in order, none lost and none twice, in segments of 1 to maxSegSize bytes; a promise
   * is kept only when the send was handed over to its end; a settled promise is kept if the transport
   * took every segment with a byte of the send, and broken if it refused one of them; and unsent bytes
   * always have a flush coming.
   */
  lemma {:induction false} EveryRunKeepsItsPromises(cfg: Config, run: seq<Action>)
    requires cfg.maxSegSize > 0 && Runs(cfg, START, run)
    ensures var st := After(cfg, START, run);
            && Conserved(st) && NotStranded(st)
            && (forall s <- st.segments :: 1 <= |s.bytes| <= cfg.maxSegSize)
            && (forall k :: k in st.settled && st.settled[k] ==>
                  0 <= k < |st.accepted| && Start(st.accepted, k + 1) <= Handed(st)
                  && AllTaken(st.segments, st.accepted, k))
            && (forall k :: k in st.settled && !st.settled[k] ==>
                  0 <= k < |st.accepted|
                  && exists j: nat :: j < |st.segments| && Carries(st.segments, j, st.accepted, k)
                                      && !st.segments[j].ok)
  {
    StartGood(cfg);
    RunGood(cfg, START, run);
    var st := After(cfg, START, run);
    var lo: nat, hi: nat :| Promises(st, lo, hi);
    forall k | k in st.settled && st.settled[k] ensures Start(st.accepted, k + 1) <= Handed(st) {
      StartMonotone(st.accepted, k + 1, lo);
    }
  }

  /** Once the loop holds no bytes, every send it read is settled. */
  lemma {:induction false} NothingHeldNothingOwed(cfg: Config, st: State)
    requires Good(cfg, st) && Held(st) == []
    ensures st.callbacks == [] || st.loop.Transmitting?
    ensures forall k :: 0 <= k < |st.accepted| - Sends(st.queue) ==> k in st.settled
  {
    var lo: nat, hi: nat :| Promises(st, lo, hi);
    InOrderCounts(st.queue, hi, st.accepted);
    if lo < hi {
      StartMonotone(st.accepted, lo + 1, hi);
    }
  }

  /** The step with which the loop is done with a flush: nothing to send, or its segment went out. */
  predicate ServesFlush(st: State, a: Action)
    requires Enabled(st, a)
  {
    match a
    case DoTake => st.queue[0].Flush? && st.buffer == []
    case DoTransmitted(_) => st.loop.resume.AfterFlush?
    case DoSend(_) => false
    case DoFire => false
    case DoClose => false
    case DoClosed => false
  }

  /** Once a flush is served, nothing is held back and every send read before it is settled. */
  lemma {:induction false} FlushSettlesAll(cfg: Config, st: State, a: Action)
    requires Good(cfg, st) && Enabled(st, a) && ServesFlush(st, a)
    ensures var after := Act(cfg, st, a);
            && Held(after) == [] && after.callbacks == [] && after.loop.Subscribed?
            && forall k :: 0 <= k < |after.accepted| - Sends(after.queue) ==> k in after.settled
  {
    ActGood(cfg, st, a);
    NothingHeldNothingOwed(cfg, Act(cfg, st, a));
  }

  // ---------- Left alone, the sender comes to rest with everything sent ----------

  /** Steps that need no new call from outside. */
  predicate Internal(a: Action) {
    a.DoFire? || a.DoTake? || a.DoTransmitted?
  }

  function Work(st: State): nat {
    |Queued(st.queue)| + |Remainder(st.loop)| + 2 * |st.queue|
    + (if st.loop.Transmitting? then 1 else 0) + if st.timer then 3 else 0
  }

  lemma {:induction false} FillWork(cfg: Config, st: State, id: nat, data: seq<Byte>)
    requires |st.buffer| < cfg.maxSegSize
    ensures var after := Fill(cfg, st, id, data);
            after.queue == st.queue && after.timer == st.timer
            && |Remainder(after.loop)| + (if after.loop.Transmitting? then 1 else 0) <= |data|
  {
  }

  lemma {:induction false} TakeWork(cfg: Config, st: State)
    requires Shape(cfg, st) && st.loop.Subscribed? && st.queue != []
    ensures Work(TakeItem(cfg, st)) < Work(st)
  {
    if st.queue[0].Send? {
      var id, data := st.queue[0].id, st.queue[0].data;
      FillWork(cfg, st.(queue := st.queue[1..], callbacks := st.callbacks + [id]), id, data);
    }
  }

  lemma {:induction false} TransmittedWork(cfg: Config, st: State, ok: bool)
    requires Shape(cfg, st) && st.loop.Transmitting? && (Remainder(st.loop) != [] ==> st.callbacks != [])
    ensures Work(Transmitted(cfg, st, ok)) < Work(st)
  {
    if Remainder(st.loop) != [] {
      var id := st.loop.resume.id;
      FillWork(cfg, MostSettled(st, ok, id), id, st.loop.resume.rest);
    }
  }

  lemma {:induction false} InternalStepsWork(cfg: Config, st: State, a: Action)
    requires Good(cfg, st) && Internal(a) && Enabled(st, a)
    ensures Work(Act(cfg, st, a)) < Work(st)
  {
    match a
    case DoFire => QueuedAppend(st.queue, [Flush(false)]);
    case DoTake => TakeWork(cfg, st);
    case DoTransmitted(ok) => TransmittedWork(cfg, st, ok);
  }

  /** Every sequence of internal steps is finite. */
  lemma {:induction false} InternalRunsEnd(cfg: Config, st: State, run: seq<Action>)
    requires Good(cfg, st) && Runs(cfg, st, run) && forall a <- run :: Internal(a)
    ensures |run| <= Work(st)
    decreases |run|
  {
    if run == [] {
    } else {
      InternalStepsWork(cfg, st, run[0]);
      ActGood(cfg, st, run[0]);
      InternalRunsEnd(cfg, Act(cfg, st, run[0]), run[1..]);
    }
  }

  /** Where no internal step is left, all bytes were handed over and all promises settled. */
  lemma {:induction false} AtRestAllIsSent(cfg: Config, st: State)
    requires Good(cfg, st) && forall a :: Internal(a) ==> !Enabled(st, a)
    ensures SegmentBytes(st.segments) == Flatten(st.accepted)
    ensures forall k :: 0 <= k < |st.accepted| ==> k in st.settled
  {
    assert !Enabled(st, DoFire) && !Enabled(st, DoTake) && !Enabled(st, DoTransmitted(true));
    assert st.queue == [] && Held(st) == [];
    NothingHeldNothingOwed(cfg, st);
  }

  /** Left alone, a closed sender comes to where its close goes on, or where its loop has ended. */
  lemma {:induction false} CloseGoesOn(cfg: Config, st: State)
    requires Good(cfg, st) && st.closed && forall a :: Internal(a) ==> !Enabled(st, a)
    ensures Enabled(st, DoClosed) || st.loop.Ended?
  {
    assert !Enabled(st, DoFire) && !Enabled(st, DoTake) && !Enabled(st, DoTransmitted(true));
    assert Stop !in st.queue;
  }

  /** Then the loop ends with its next step, and nothing more will be sent or settled: all is by then. */
  lemma {:induction false} CloseEndsTheLoop(cfg: Config, st: State)
    requires Good(cfg, st) && Enabled(st, DoClosed)
    ensures Enabled(Closed(st), DoTake)
    ensures var end := TakeItem(cfg, Closed(st));
            && end.loop.Ended? && end.queue == [] && !end.timer
            && (forall a :: Enabled(end, a) ==> a.DoClose?)
            && SegmentBytes(end.segments) == Flatten(end.accepted)
            && forall k :: 0 <= k < |end.accepted| ==> k in end.settled
  {
    assert st.queue == [] && Closed(st).queue == [Stop];
    ActGood(cfg, st, DoClosed);
    ActGood(cfg, Closed(st), DoTake);
    AtRestAllIsSent(cfg, TakeItem(cfg, Closed(st)));
  }
}
