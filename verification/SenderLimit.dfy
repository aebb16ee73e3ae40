/** How many sends the coalescing sender lets gather before it flushes them without its timer. */
module SenderLimit {
  import opened Bytes
  import opened SenderConservation
  import opened SenderPromises
  import opened SenderSpec

  /** The gathering starts over: the timer fires, a close ends, or a segment goes to the transport. */
  predicate StartsOver(cfg: Config, st: State, a: Action)
    requires Enabled(st, a)
  {
    match a
    case DoFire => true
    case DoClosed => true
    case DoTake => Act(cfg, st, a).loop.Transmitting?
    case DoTransmitted(_) => Act(cfg, st, a).loop.Transmitting?
    case DoSend(_) => false
    case DoClose => false
  }

  /** In no step of the run does it start over. */
  ghost predicate Gathers(cfg: Config, st: State, run: seq<Action>)
    requires Runs(cfg, st, run)
    decreases |run|
  {
    run == [] || (!StartsOver(cfg, st, run[0]) && Gathers(cfg, Act(cfg, st, run[0]), run[1..]))
  }

  function SendsIn(run: seq<Action>): nat {
    if run == [] then 0 else (if run[0].DoSend? then 1 else 0) + SendsIn(run[1..])
  }

  /** `st` is the start, or what a step leads to that starts the gathering over, at the end of any run. */
  ghost predicate JustStartedOver(cfg: Config, st: State) {
    st == START
    || exists run: seq<Action>, a: Action ::
         Runs(cfg, START, run) && Enabled(After(cfg, START, run), a)
         && StartsOver(cfg, After(cfg, START, run), a) && st == Act(cfg, After(cfg, START, run), a)
  }

  lemma {:induction false} FillCounts(cfg: Config, st: State, id: nat, data: seq<Byte>)
    ensures var after := Fill(cfg, st, id, data);
            after.bufferedRequests == if after.loop.Transmitting? then 0 else st.bufferedRequests
  {
  }

  lemma {:induction false} TransmittedCounts(cfg: Config, st: State, ok: bool)
    requires st.loop.Transmitting?
    ensures var after := Transmitted(cfg, st, ok);
            after.bufferedRequests == if after.loop.Transmitting? then 0 else st.bufferedRequests
  {
    if st.loop.resume.AfterFull? && st.loop.resume.rest != [] {
      var id := st.loop.resume.id;
      FillCounts(cfg, MostSettled(st, ok, id), id, st.loop.resume.rest);
    }
  }

  lemma {:induction false} TakeCounts(cfg: Config, st: State)
    requires st.loop.Subscribed? && st.queue != []
    ensures var after := TakeItem(cfg, st);
            after.bufferedRequests == if after.loop.Transmitting? then 0 else st.bufferedRequests
  {
    if st.queue[0].Send? {
      var id := st.queue[0].id;
      FillCounts(cfg, st.(queue := st.queue[1..], callbacks := st.callbacks + [id]), id, st.queue[0].data);
    }
  }

  lemma {:induction false} ActCounts(cfg: Config, st: State, a: Action)
    requires Enabled(st, a) && st.bufferedRequests < cfg.maxBufferedRequests
    ensures Act(cfg, st, a).bufferedRequests
            == if StartsOver(cfg, st, a) then 0
               else if !a.DoSend? then st.bufferedRequests
               else if st.bufferedRequests + 1 == cfg.maxBufferedRequests then 0
               else st.bufferedRequests + 1
  {
    match a
    case DoTake => TakeCounts(cfg, st);
    case DoTransmitted(ok) => TransmittedCounts(cfg, st, ok);
    case DoSend(_) =>
    case DoFire =>
    case DoClose =>
    case DoClosed =>
  }

  /** Over any run from the start, fewer sends are counted than the limit. */
  lemma {:induction false} CountStaysBelow(cfg: Config, st: State, run: seq<Action>)
    requires st.bufferedRequests < cfg.maxBufferedRequests && Runs(cfg, st, run)
    ensures After(cfg, st, run).bufferedRequests < cfg.maxBufferedRequests
    decreases |run|
  {
    if run == [] {
    } else {
      ActCounts(cfg, st, run[0]);
      CountStaysBelow(cfg, Act(cfg, st, run[0]), run[1..]);
    }
  }

  lemma {:induction false} OneMore(n: nat, limit: nat)
    requires limit > 0
    ensures (n + 1) % limit == if n % limit + 1 == limit then 0 else n % limit + 1
  {
    var q, r := n / limit, n % limit;
    assert n == limit * q + r;
    if r + 1 == limit {
      assert n + 1 == limit * (q + 1);
      Remainder(n + 1, limit, q + 1, 0);
    } else {
      Remainder(n + 1, limit, q, r + 1);
    }
  }

  lemma {:induction false} Remainder(n: nat, limit: nat, q: nat, r: nat)
    requires r < limit && n == limit * q + r
    ensures n % limit == r
  {
    var d := n / limit - q;
    assert limit * d == r - n % limit;
    assert d >= 1 ==> limit * d >= limit;
    assert d <= -1 ==> limit * d <= 0 - limit;
  }

  /** While the sends gather, their number is counted modulo the limit. */
  lemma {:induction false} GatheredAre(cfg: Config, st: State, run: seq<Action>, n: nat)
    requires cfg.maxBufferedRequests > 0 && st.bufferedRequests == n % cfg.maxBufferedRequests
    requires Runs(cfg, st, run) && Gathers(cfg, st, run)
    ensures After(cfg, st, run).bufferedRequests == (n + SendsIn(run)) % cfg.maxBufferedRequests
    decreases |run|
  {
    if run == [] {
    } else {
      ActCounts(cfg, st, run[0]);
      OneMore(n, cfg.maxBufferedRequests);
      GatheredAre(cfg, Act(cfg, st, run[0]), run[1..], if run[0].DoSend? then n + 1 else n);
    }
  }

  lemma {:induction false} StartsAtZero(cfg: Config, st: State)
    requires cfg.maxBufferedRequests > 0 && JustStartedOver(cfg, st)
    ensures st.bufferedRequests == 0
  {
    if st != START {
      var run: seq<Action>, a: Action :|
        Runs(cfg, START, run) && Enabled(After(cfg, START, run), a)
        && StartsOver(cfg, After(cfg, START, run), a) && st == Act(cfg, After(cfg, START, run), a);
      CountStaysBelow(cfg, START, run);
      ActCounts(cfg, After(cfg, START, run), a);
    }
  }

  /**
   * Since the gathering last started over, the sends whose number is a multiple of the limit put a
   * flush behind themselves and leave no timer armed; every other send queues nothing but itself and
   * leaves the timer armed. Whatever the loop does in between, fewer sends than the limit are counted.
   */
  lemma {:induction false} LimitFlushes(cfg: Config, st: State, run: seq<Action>, data: seq<Byte>)
    requires cfg.maxBufferedRequests > 0 && JustStartedOver(cfg, st)
    requires Runs(cfg, st, run) && Gathers(cfg, st, run) && Enabled(After(cfg, st, run), DoSend(data))
    ensures var before := After(cfg, st, run);
            var after, item := Act(cfg, before, DoSend(data)), Send(|before.accepted|, data);
            && before.bufferedRequests < cfg.maxBufferedRequests
            && if (SendsIn(run) + 1) % cfg.maxBufferedRequests == 0
               then after.queue == before.queue + [item, Flush(false)] && !after.timer
               else after.queue == before.queue + [item] && after.timer
  {
    StartsAtZero(cfg, st);
    Remainder(0, cfg.maxBufferedRequests, 0, 0);
    GatheredAre(cfg, st, run, 0);
    OneMore(SendsIn(run), cfg.maxBufferedRequests);
    var before := After(cfg, st, run);
    assert before.queue + [Send(|before.accepted|, data)] + [Flush(false)]
           == before.queue + [Send(|before.accepted|, data), Flush(false)];
  }

  /** Of the first sends, as many as the limit, the last is flushed by count, and none of the others. */
  lemma {:induction false} FirstToReachTheLimit(cfg: Config, st: State, run: seq<Action>, data: seq<Byte>)
    requires cfg.maxBufferedRequests > 0 && JustStartedOver(cfg, st)
    requires Runs(cfg, st, run) && Gathers(cfg, st, run) && Enabled(After(cfg, st, run), DoSend(data))
    requires SendsIn(run) < cfg.maxBufferedRequests
    ensures var after := Act(cfg, After(cfg, st, run), DoSend(data));
            && (after.queue[|after.queue| - 1] == Flush(false) <==> SendsIn(run) + 1 == cfg.maxBufferedRequests)
            && (after.timer <==> SendsIn(run) + 1 < cfg.maxBufferedRequests)
  {
    LimitFlushes(cfg, st, run, data);
    if SendsIn(run) + 1 == cfg.maxBufferedRequests {
      Remainder(SendsIn(run) + 1, cfg.maxBufferedRequests, 1, 0);
    } else {
      Remainder(SendsIn(run) + 1, cfg.maxBufferedRequests, 0, SendsIn(run) + 1);
    }
  }

  // ---------- Full segments ----------

  /** A segment that goes out without a flush is full. */
  predicate FullOrFlushed(cfg: Config, loop: Loop) {
    loop.Transmitting? && loop.resume.AfterFull? ==> |loop.segment| == cfg.maxSegSize
  }

  lemma {:induction false} FillIsFull(cfg: Config, st: State, id: nat, data: seq<Byte>)
    requires |st.buffer| < cfg.maxSegSize
    ensures FullOrFlushed(cfg, Fill(cfg, st, id, data).loop)
  {
  }

  lemma {:induction false} ActIsFull(cfg: Config, st: State, a: Action)
    requires Good(cfg, st) && FullOrFlushed(cfg, st.loop) && Enabled(st, a)
    ensures FullOrFlushed(cfg, Act(cfg, st, a).loop)
  {
    if a.DoTake? && st.queue[0].Send? {
      var id := st.queue[0].id;
      FillIsFull(cfg, st.(queue := st.queue[1..], callbacks := st.callbacks + [id]), id, st.queue[0].data);
    } else if a.DoTransmitted? && st.loop.resume.AfterFull? && st.loop.resume.rest != [] {
      var id := st.loop.resume.id;
      FillIsFull(cfg, MostSettled(st, a.ok, id), id, st.loop.resume.rest);
    }
  }

  lemma {:induction false} OnlyFlushesCutShort(cfg: Config, st: State, run: seq<Action>)
    requires Good(cfg, st) && FullOrFlushed(cfg, st.loop) && Runs(cfg, st, run)
    ensures FullOrFlushed(cfg, After(cfg, st, run).loop)
    decreases |run|
  {
    if run == [] {
    } else {
      ActGood(cfg, st, run[0]);
      ActIsFull(cfg, st, run[0]);
      OnlyFlushesCutShort(cfg, Act(cfg, st, run[0]), run[1..]);
    }
  }

  /** Over any run from the start, the loop holds bytes back until a segment is full or a flush comes. */
  lemma {:induction false} SegmentsAreFullOrFlushed(cfg: Config, run: seq<Action>)
    requires cfg.maxSegSize > 0 && Runs(cfg, START, run)
    ensures var loop := After(cfg, START, run).loop;
            loop.Transmitting? && loop.resume.AfterFull? ==> |loop.segment| == cfg.maxSegSize
  {
    StartGood(cfg);
    OnlyFlushesCutShort(cfg, START, run);
  }
}
