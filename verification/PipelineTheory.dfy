// What every run of the pipeline keeps: conservation of captures, the shutdown protocol,
// and what a drained shutdown guarantees.

module PipelineTheory {
  import opened Common
  import opened Capture
  import opened Stages
  import opened Pipeline

  // ----- Queue lemmas --------------------------------------------------------------

  lemma {:induction false} CapturesSplit(a: seq<Item>, b: seq<Item>)
    ensures Captures(a + b) == Captures(a) + Captures(b)
  {
    if a == [] {
      assert a + b == b;
    } else {
      assert (a + b)[1..] == a[1..] + b && (a + b)[0] == a[0];
      CapturesSplit(a[1..], b);
      var head := if a[0].Data? then [a[0].capture] else [];
      assert head + (Captures(a[1..]) + Captures(b)) == (head + Captures(a[1..])) + Captures(b);
    }
  }

  lemma {:induction false} SentinelsSplit(a: seq<Item>, b: seq<Item>)
    ensures Sentinels(a + b) == Sentinels(a) + Sentinels(b)
  {
    if a == [] {
      assert a + b == b;
    } else {
      assert (a + b)[1..] == a[1..] + b;
      SentinelsSplit(a[1..], b);
    }
  }

  // ----- Conservation -----------------------------------------------------------------

  function Settled(l: Log): multiset<RawCapture> {
    l.written + l.failed + l.lost
  }

  /** Each accepted capture is in exactly one place, counted with multiplicity. */
  predicate Conserved(s: State) {
    s.log.accepted
    == multiset(Captures(s.queue)) + Bag(Batched, s.workers) + Bag(InFlight, s.workers) + Settled(s.log)
  }

  lemma Rebalance<T(!new)>(q: multiset<T>, bs: multiset<T>, fs: multiset<T>, d: multiset<T>,
                           taken: multiset<T>, b: multiset<T>, f: multiset<T>,
                           q': multiset<T>, bs': multiset<T>, fs': multiset<T>, d': multiset<T>,
                           settled: multiset<T>, b': multiset<T>, f': multiset<T>)
    requires bs' + b == bs + b' && fs' + f == fs + f'
    requires q == q' + taken && d' == d + settled
    requires taken + b + f == b' + f' + settled
    ensures q + bs + fs + d == q' + bs' + fs' + d'
  {
    forall t: T ensures (q + bs + fs + d)[t] == (q' + bs' + fs' + d')[t] {
      assert (bs' + b)[t] == (bs + b')[t] && (fs' + f)[t] == (fs + f')[t];
      assert (taken + b + f)[t] == (b' + f' + settled)[t];
    }
  }

  /** Moving one worker keeps the balance: what it takes and held, it now holds or has settled. */
  lemma MoveConserves(s: State, s': State, w: nat, x: Worker, taken: multiset<RawCapture>,
                      settled: multiset<RawCapture>)
    requires Conserved(s) && w < |s.workers| && s'.workers == s.workers[w := x]
    requires s'.log.accepted == s.log.accepted
    requires multiset(Captures(s.queue)) == multiset(Captures(s'.queue)) + taken
    requires Settled(s'.log) == Settled(s.log) + settled
    requires taken + Batched(s.workers[w]) + InFlight(s.workers[w]) == Batched(x) + InFlight(x) + settled
    ensures Conserved(s')
  {
    BagUpdate(Batched, s.workers, w, x);
    BagUpdate(InFlight, s.workers, w, x);
    Rebalance(multiset(Captures(s.queue)), Bag(Batched, s.workers), Bag(InFlight, s.workers), Settled(s.log),
              taken, Batched(s.workers[w]), InFlight(s.workers[w]),
              multiset(Captures(s'.queue)), Bag(Batched, s'.workers), Bag(InFlight, s'.workers), Settled(s'.log),
              settled, Batched(x), InFlight(x));
  }

  lemma BeginHolds(cfg: Config, batch: seq<RawCapture>, last: bool)
    ensures Batched(Begin(cfg, batch, last)) + InFlight(Begin(cfg, batch, last)) == multiset(batch)
  {
  }

  lemma AppendHolds(cfg: Config, batch: seq<RawCapture>, c: RawCapture)
    ensures multiset{c} + multiset(batch) == Batched(Append(cfg, batch, c)) + InFlight(Append(cfg, batch, c))
  {
    BeginHolds(cfg, batch + [c], false);
    assert multiset(batch + [c]) == multiset(batch) + multiset{c};
  }

  lemma GetDataConserves(cfg: Config, s: State, w: nat)
    requires Conserved(s) && Enabled(cfg, s, Get(w)) && s.queue[0].Data?
    ensures Conserved(DoGet(cfg, s, w))
  {
    var s', batch, c := DoGet(cfg, s, w), s.workers[w].batch, s.queue[0].capture;
    AppendHolds(cfg, batch, c);
    assert multiset(Captures(s.queue)) == multiset(Captures(s.queue[1..])) + multiset{c};
    MoveConserves(s, s', w, s'.workers[w], multiset{c}, multiset{});
  }

  lemma GetShutdownConserves(cfg: Config, s: State, w: nat)
    requires Conserved(s) && Enabled(cfg, s, Get(w)) && s.queue[0].Shutdown?
    ensures Conserved(DoGet(cfg, s, w))
  {
    var s', batch, rest := DoGet(cfg, s, w), s.workers[w].batch, s.queue[1..];
    BeginHolds(cfg, batch + Captures(rest), true);
    assert Captures(s.queue) == Captures(rest);
    assert multiset(batch + Captures(rest)) == multiset(batch) + multiset(Captures(rest));
    MoveConserves(s, s', w, s'.workers[w], multiset(Captures(rest)), multiset{});
  }

  lemma TimeoutConserves(cfg: Config, s: State, w: nat)
    requires Conserved(s) && w < |s.workers| && s.workers[w].point.Waiting?
    ensures Conserved(DoTimeout(cfg, s, w))
  {
    BeginHolds(cfg, s.workers[w].batch, false);
    MoveConserves(s, DoTimeout(cfg, s, w), w, Begin(cfg, s.workers[w].batch, false), multiset{}, multiset{});
  }

  /** Steps that only carry a worker's records to its next point. */
  lemma HandoverConserves(cfg: Config, s: State, w: nat, e: Event)
    requires Conserved(s) && Enabled(cfg, s, e) && (e.EmbedDone? || e.PutDone?) && e.w == w
    ensures Conserved(Step(cfg, s, e))
  {
    var s' := Step(cfg, s, e);
    MoveConserves(s, s', w, s'.workers[w], multiset{}, multiset{});
  }

  lemma WriteConserves(cfg: Config, s: State, w: nat, e: Event)
    requires Conserved(s) && Enabled(cfg, s, e) && (e == WriteFailed(w) || (e.WriteOk? && e.w == w))
    ensures Conserved(Step(cfg, s, e))
  {
    var s' := Step(cfg, s, e);
    MoveConserves(s, s', w, s'.workers[w], multiset{}, multiset(s.workers[w].point.phase.records));
  }

  lemma CancelConserves(s: State, w: nat)
    requires Conserved(s) && w < |s.workers|
    ensures Conserved(DoCancel(s, w))
  {
    var s', old' := DoCancel(s, w), s.workers[w];
    assert Settled(s'.log) == Settled(s.log) + (multiset(old'.batch) + InFlight(old'));
    MoveConserves(s, s', w, s'.workers[w], multiset{}, multiset(old'.batch) + InFlight(old'));
  }

  lemma SubmitConserves(cfg: Config, s: State, c: RawCapture)
    requires Conserved(s)
    ensures Conserved(DoSubmit(cfg, s, c))
  {
    CapturesSplit(s.queue, [Data(c)]);
    assert Captures([Data(c)]) == [c];
    assert multiset(Captures(s.queue) + [c]) == multiset(Captures(s.queue)) + multiset{c};
  }

  lemma StepConserves(cfg: Config, s: State, e: Event)
    requires Conserved(s)
    ensures Conserved(Step(cfg, s, e))
  {
    if Enabled(cfg, s, e) {
      match e {
        case Submit(c) => SubmitConserves(cfg, s, c);
        case Get(w) =>
          if s.queue[0].Data? {
            GetDataConserves(cfg, s, w);
          } else {
            GetShutdownConserves(cfg, s, w);
          }
        case Timeout(w) => TimeoutConserves(cfg, s, w);
        case EmbedDone(w, _) => HandoverConserves(cfg, s, w, e);
        case PutDone(w, _) => HandoverConserves(cfg, s, w, e);
        case WriteOk(w, _) => WriteConserves(cfg, s, w, e);
        case WriteFailed(w) => WriteConserves(cfg, s, w, e);
        case Cancel(w) => CancelConserves(s, w);
        case PutShutdown => CapturesSplit(s.queue, [Shutdown]);
        case _ =>
      }
    }
  }

  // ----- Shape of the workers -----------------------------------------------------------

  function BatchLimit(cfg: Config): nat {
    if cfg.batchSize > 1 then cfg.batchSize else 1
  }

  /** Only a waiting worker has a batch, below the limit; a flush before the last one is within the limit. */
  predicate GoodWorker(cfg: Config, w: Worker) {
    match w.point
    case Waiting => |w.batch| < BatchLimit(cfg)
    case Flushing(Caching(todo), last) => w.batch == [] && todo != [] && cfg.caches
        && (last || |todo| <= BatchLimit(cfg))
    case Flushing(phase, last) => w.batch == [] && phase.records != [] && (last || |phase.records| <= BatchLimit(cfg))
    case _ => w.batch == []
  }

  predicate WellShaped(cfg: Config, s: State) {
    && |s.workers| == cfg.workers
    && (forall w :: w in s.workers ==> GoodWorker(cfg, w))
  }

  lemma StepKeepsShape(cfg: Config, s: State, e: Event)
    requires WellShaped(cfg, s)
    ensures WellShaped(cfg, Step(cfg, s, e))
  {
    var s' := Step(cfg, s, e);
    forall w | w in s'.workers ensures GoodWorker(cfg, w) {
      if w !in s.workers {
        assert Enabled(cfg, s, e);
        var i :| 0 <= i < |s.workers| && s'.workers == s.workers[i := w];
        assert GoodWorker(cfg, s.workers[i]);
      }
    }
  }

  // ----- Counters, the sink and the bound ------------------------------------------------

  predicate Counted(cfg: Config, s: State) {
    && s.log.calls == s.metrics.submitted + s.metrics.dropped
    && s.metrics.submitted == |s.log.accepted|
    && s.metrics.failed == |s.log.failed|
    && (s.log.exact ==> s.metrics.written == |s.log.written|)
    && (0 < cfg.maxsize ==> |s.queue| <= cfg.maxsize)
  }

  lemma StepKeepsCounts(cfg: Config, s: State, e: Event)
    requires Counted(cfg, s)
    ensures Counted(cfg, Step(cfg, s, e))
  {
  }

  /** Whatever was handed to the sink is settled: written, failed or lost. */
  predicate SunkIsSettled(s: State) {
    s.log.sunk <= Settled(s.log)
  }

  lemma StepKeepsSunkSettled(cfg: Config, s: State, e: Event)
    requires SunkIsSettled(s)
    ensures SunkIsSettled(Step(cfg, s, e))
  {
  }

  lemma {:induction false} RunKeepsInvariants(cfg: Config, trace: seq<Event>)
    ensures Conserved(Run(cfg, trace)) && WellShaped(cfg, Run(cfg, trace))
    ensures Counted(cfg, Run(cfg, trace)) && SunkIsSettled(Run(cfg, trace))
  {
    if trace == [] {
      BagAllEmpty(Batched, Run(cfg, trace).workers);
      BagAllEmpty(InFlight, Run(cfg, trace).workers);
    } else {
      var s, e := Run(cfg, trace[..|trace| - 1]), trace[|trace| - 1];
      RunKeepsInvariants(cfg, trace[..|trace| - 1]);
      StepConserves(cfg, s, e);
      StepKeepsShape(cfg, s, e);
      StepKeepsCounts(cfg, s, e);
      StepKeepsSunkSettled(cfg, s, e);
    }
  }

  /**
   * Conservation, under every interleaving.  Each accepted capture is in the queue, one
   * worker's batch, one flush, written, failed or lost to cancellation, exactly once, and
   * has been handed to the sink at most once; the metrics count exactly that.
   */
  lemma CapturesAreConserved(cfg: Config, trace: seq<Event>)
    ensures var s := Run(cfg, trace);
      && s.log.accepted
         == multiset(Captures(s.queue)) + Bag(Batched, s.workers) + Bag(InFlight, s.workers)
            + s.log.written + s.log.failed + s.log.lost
      && s.log.sunk <= s.log.accepted
      && s.log.calls == s.metrics.submitted + s.metrics.dropped
      && (s.log.exact ==>
            s.metrics.submitted == |Captures(s.queue)| + |Bag(Batched, s.workers)| + |Bag(InFlight, s.workers)|
                                   + s.metrics.written + s.metrics.failed + |s.log.lost|)
      && (0 < cfg.maxsize ==> |s.queue| <= cfg.maxsize)
  {
    RunKeepsInvariants(cfg, trace);
    var s := Run(cfg, trace);
    var held := multiset(Captures(s.queue)) + Bag(Batched, s.workers) + Bag(InFlight, s.workers);
    assert s.log.accepted == held + s.log.written + s.log.failed + s.log.lost;
    assert |held + s.log.written + s.log.failed + s.log.lost|
        == |held| + |s.log.written| + |s.log.failed| + |s.log.lost|;
  }

  /** Batches stay below the batch size while waiting, and only the flush after a drain may exceed it. */
  lemma FlushesAreBounded(cfg: Config, trace: seq<Event>, w: nat)
    requires w < |Run(cfg, trace).workers|
    ensures var worker := Run(cfg, trace).workers[w];
      && |worker.batch| < BatchLimit(cfg)
      && (worker.point.Flushing? && !worker.point.phase.Caching? && !worker.point.last
          ==> 0 < |worker.point.phase.records| <= BatchLimit(cfg))
  {
    RunKeepsInvariants(cfg, trace);
    assert GoodWorker(cfg, Run(cfg, trace).workers[w]);
  }
}
