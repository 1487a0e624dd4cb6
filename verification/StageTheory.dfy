// The stages of the pipeline (telemetry/stages.py) over every run: when a batch is flushed and how
// a shutdown ends the loop, that every record is embedded, written and put in that order, and that
// every qualifying record of a written batch is put.

module StageTheory {
  import opened Common
  import opened Capture
  import opened Stages
  import opened Pipeline
  import opened PipelineTheory
  import opened ShutdownTheory

  // ----- The worker loop ----------------------------------------------------------------

  /** The worker starts on the stages with these records. */
  predicate StartsStages(cfg: Config, x: Worker, records: seq<RawCapture>, last: bool) {
    && x.batch == [] && x.point.Flushing? && x.point.last == last
    && x.point.phase == if cfg.embeds then Embedding(records) else Writing(records)
  }

  /** A capture joins the batch; the batch is flushed with it exactly when that makes it as long as configured. */
  lemma CaptureJoinsBatch(cfg: Config, s: State, w: nat, c: RawCapture)
    requires Enabled(cfg, s, Get(w)) && s.queue[0] == Data(c)
    ensures var s', grown := Step(cfg, s, Get(w)), s.workers[w].batch + [c];
      && s'.queue == s.queue[1..]
      && (|grown| < cfg.batchSize ==> s'.workers[w] == Worker(grown, Waiting))
      && (|grown| >= cfg.batchSize ==> StartsStages(cfg, s'.workers[w], grown, false))
  {
  }

  /** A timeout flushes what there is and goes on waiting when there is nothing. */
  lemma TimeoutFlushes(cfg: Config, s: State, w: nat)
    requires Enabled(cfg, s, Timeout(w))
    ensures var x, batch := Step(cfg, s, Timeout(w)).workers[w], s.workers[w].batch;
      if batch == [] then x == Worker([], Waiting) else StartsStages(cfg, x, batch, false)
  {
  }

  /** Exactly the captures, in their order. */
  lemma CapturesExactly(c: RawCapture, a: seq<Item>, b: seq<Item>)
    ensures Captures([]) == [] && Captures([Data(c)]) == [c] && Captures([Shutdown]) == []
    ensures Captures(a + b) == Captures(a) + Captures(b)
  {
    CapturesSplit(a, b);
    assert [Data(c)][1..] == [] && [Item.Shutdown][1..] == [];
  }

  /** A sentinel ends the loop: the queue is emptied, and one last flush takes its captures along. */
  lemma SentinelEndsLoop(cfg: Config, s: State, w: nat)
    requires Enabled(cfg, s, Get(w)) && s.queue[0] == Shutdown
    ensures var s', all := Step(cfg, s, Get(w)), s.workers[w].batch + Captures(s.queue);
      && s'.queue == []
      && if all == [] then s'.workers[w] == Worker([], Exited) else StartsStages(cfg, s'.workers[w], all, true)
  {
  }

  /** The stages are done with this worker's batch: it goes back to its loop, or ends after the last flush. */
  predicate Resumes(x: Worker, last: bool) {
    x.point == if last then Exited else Waiting
  }

  /** The embed stage passes the same records on to be written. */
  lemma EmbedPassesOn(cfg: Config, s: State, w: nat, vectors: nat)
    requires Enabled(cfg, s, EmbedDone(w, vectors))
    ensures var p, q := s.workers[w].point, Step(cfg, s, EmbedDone(w, vectors)).workers[w].point;
      q == Flushing(Writing(p.phase.records), p.last)
  {
  }

  /** A good write counts what the sink reports, and leaves the qualifying records to put, when there is a cache. */
  lemma WriteSettles(cfg: Config, s: State, w: nat, count: nat)
    requires Enabled(cfg, s, WriteOk(w, count))
    ensures var s', p := Step(cfg, s, WriteOk(w, count)), s.workers[w].point;
      var todo := Cacheable(p.phase.records);
      && s'.metrics == s.metrics.(written := s.metrics.written + count)
      && s'.log.written == s.log.written + multiset(p.phase.records) && s'.log.failed == s.log.failed
      && if cfg.caches && todo != [] then s'.workers[w].point == Flushing(Caching(todo), p.last)
         else Resumes(s'.workers[w], p.last)
  {
  }

  /** A failed write counts the whole batch as failed, and nothing of it is put. */
  lemma FailureSettles(cfg: Config, s: State, w: nat)
    requires Enabled(cfg, s, WriteFailed(w))
    ensures var s', p := Step(cfg, s, WriteFailed(w)), s.workers[w].point;
      && s'.metrics == s.metrics.(failed := s.metrics.failed + |p.phase.records|)
      && s'.log.failed == s.log.failed + multiset(p.phase.records) && s'.log.written == s.log.written
      && Resumes(s'.workers[w], p.last)
  {
  }

  /** A put, done or failed, is followed by the next one. */
  lemma PutsGoOn(cfg: Config, s: State, w: nat, ok: bool)
    requires Enabled(cfg, s, PutDone(w, ok))
    ensures var s', p := Step(cfg, s, PutDone(w, ok)), s.workers[w].point;
      && s'.metrics == s.metrics.(cached := s.metrics.cached + if ok then 1 else 0)
      && if |p.phase.todo| > 1 then s'.workers[w].point == Flushing(Caching(p.phase.todo[1..]), p.last)
         else Resumes(s'.workers[w], p.last)
  {
  }

  // ----- `stop()` -------------------------------------------------------------------------

  /**
   * When `stop()` moves on: it starts once, with one sentinel to put for every worker; after a timeout,
   * and only then, it cancels workers; and it returns once all of them have ended.
   */
  lemma StopMovesOn(cfg: Config, s: State, w: nat)
    ensures Enabled(cfg, s, StopCalled) <==> s.stop == Running
    ensures s.stop == Running ==>
      Step(cfg, s, StopCalled).stop == if s.workers == [] then Joining else Putting(|s.workers|)
    ensures Enabled(cfg, s, JoinTimeout) <==> s.stop == Joining
    ensures s.stop == Joining ==> Step(cfg, s, JoinTimeout).stop == Cancelling
    ensures Enabled(cfg, s, Cancel(w)) <==>
      s.stop == Cancelling && w < |s.workers| && s.workers[w].point != Exited && s.workers[w].point != Cancelled
    ensures Enabled(cfg, s, JoinDone) <==>
      && (s.stop == Joining || s.stop == Cancelling)
      && forall x :: x in s.workers ==> x.point == Exited || x.point == Cancelled
    ensures Enabled(cfg, s, JoinDone) ==> Step(cfg, s, JoinDone).stop == Stopped
  {
  }

  // ----- What is put ----------------------------------------------------------------------

  lemma {:induction false} CacheableCounts(records: seq<RawCapture>, c: RawCapture)
    ensures multiset(Cacheable(records))[c] == if CacheableIdentity(c).Some? then multiset(records)[c] else 0
  {
    if records != [] {
      CacheableCounts(records[1..], c);
      assert records == [records[0]] + records[1..];
    }
  }

  /** The configured cache takes this capture. */
  predicate Due(cfg: Config, c: RawCapture) {
    cfg.caches && CacheableIdentity(c).Some?
  }

  /** Every due capture of a written batch is put, waits for its put, or was abandoned; and nothing else is. */
  ghost predicate PutsBalance(cfg: Config, s: State) {
    forall c :: (s.log.put + Bag(Todo, s.workers) + s.log.abandoned)[c] == if Due(cfg, c) then s.log.written[c] else 0
  }

  /** One worker moves on: what it owed, plus what was written, is what it owes, put or abandoned. */
  lemma MoveBalancesPuts(cfg: Config, s: State, s': State, w: nat)
    requires PutsBalance(cfg, s) && w < |s.workers| == |s'.workers|
    requires s'.workers == s.workers[w := s'.workers[w]]
    requires forall c ::
      (s'.log.put + Todo(s'.workers[w]) + s'.log.abandoned)[c] + (if Due(cfg, c) then s.log.written[c] else 0)
      == (s.log.put + Todo(s.workers[w]) + s.log.abandoned)[c] + if Due(cfg, c) then s'.log.written[c] else 0
    ensures PutsBalance(cfg, s')
  {
    BagUpdate(Todo, s.workers, w, s'.workers[w]);
    var bag, bag', owed, owed' := Bag(Todo, s.workers), Bag(Todo, s'.workers), Todo(s.workers[w]), Todo(s'.workers[w]);
    forall c
      ensures (s'.log.put + bag' + s'.log.abandoned)[c] == if Due(cfg, c) then s'.log.written[c] else 0
    {
      assert (bag' + owed)[c] == (bag + owed')[c];
      assert (s'.log.put + owed' + s'.log.abandoned)[c] == s'.log.put[c] + owed'[c] + s'.log.abandoned[c];
      assert (s.log.put + owed + s.log.abandoned)[c] == s.log.put[c] + owed[c] + s.log.abandoned[c];
      assert (s.log.put + bag + s.log.abandoned)[c] == s.log.put[c] + bag[c] + s.log.abandoned[c];
    }
  }

  lemma WriteOkBalancesPuts(cfg: Config, s: State, w: nat, count: nat)
    requires PutsBalance(cfg, s) && Enabled(cfg, s, WriteOk(w, count))
    ensures PutsBalance(cfg, Step(cfg, s, WriteOk(w, count)))
  {
    var s', records := Step(cfg, s, WriteOk(w, count)), s.workers[w].point.phase.records;
    assert Todo(s'.workers[w]) == multiset(if cfg.caches then Cacheable(records) else []);
    forall c
      ensures Todo(s'.workers[w])[c] == if Due(cfg, c) then multiset(records)[c] else 0
    {
      CacheableCounts(records, c);
    }
    MoveBalancesPuts(cfg, s, s', w);
  }

  lemma PutBalancesPuts(cfg: Config, s: State, w: nat, ok: bool)
    requires PutsBalance(cfg, s) && Enabled(cfg, s, PutDone(w, ok))
    ensures PutsBalance(cfg, Step(cfg, s, PutDone(w, ok)))
  {
    var s', todo := Step(cfg, s, PutDone(w, ok)), s.workers[w].point.phase.todo;
    assert todo == [todo[0]] + todo[1..];
    assert Todo(s'.workers[w]) == multiset(todo[1..]);
    MoveBalancesPuts(cfg, s, s', w);
  }

  /** A batch that is flushed, or still waits, owes no put yet, nor, with an embedder, an answer of the sink. */
  predicate OwesNothing(cfg: Config, x: Worker) {
    Todo(x) == multiset{} && (cfg.embeds ==> InWrite(x) == multiset{})
  }

  lemma GetOwesNothing(cfg: Config, s: State, w: nat)
    requires Enabled(cfg, s, Get(w))
    ensures OwesNothing(cfg, s.workers[w]) && OwesNothing(cfg, DoGet(cfg, s, w).workers[w])
    ensures Todo(s.workers[w]) == InWrite(s.workers[w]) == multiset{}
  {
  }

  lemma TimeoutOwesNothing(cfg: Config, s: State, w: nat)
    requires Enabled(cfg, s, Timeout(w))
    ensures OwesNothing(cfg, s.workers[w]) && OwesNothing(cfg, DoTimeout(cfg, s, w).workers[w])
    ensures Todo(s.workers[w]) == InWrite(s.workers[w]) == multiset{}
  {
  }

  /** A worker that owes no put and does not get to owe one. */
  lemma OthersBalancePuts(cfg: Config, s: State, s': State, w: nat)
    requires PutsBalance(cfg, s) && w < |s.workers| == |s'.workers| && s'.workers == s.workers[w := s'.workers[w]]
    requires Todo(s.workers[w]) == multiset{} == Todo(s'.workers[w])
    requires s'.log.put == s.log.put && s'.log.abandoned == s.log.abandoned && s'.log.written == s.log.written
    ensures PutsBalance(cfg, s')
  {
    MoveBalancesPuts(cfg, s, s', w);
  }

  lemma GetBalancesPuts(cfg: Config, s: State, w: nat)
    requires PutsBalance(cfg, s) && Enabled(cfg, s, Get(w))
    ensures PutsBalance(cfg, DoGet(cfg, s, w))
  {
    GetOwesNothing(cfg, s, w);
    OthersBalancePuts(cfg, s, DoGet(cfg, s, w), w);
  }

  lemma TimeoutBalancesPuts(cfg: Config, s: State, w: nat)
    requires PutsBalance(cfg, s) && Enabled(cfg, s, Timeout(w))
    ensures PutsBalance(cfg, DoTimeout(cfg, s, w))
  {
    TimeoutOwesNothing(cfg, s, w);
    OthersBalancePuts(cfg, s, DoTimeout(cfg, s, w), w);
  }

  lemma CancelBalancesPuts(cfg: Config, s: State, w: nat)
    requires PutsBalance(cfg, s) && Enabled(cfg, s, Cancel(w))
    ensures PutsBalance(cfg, Step(cfg, s, Cancel(w)))
  {
    MoveBalancesPuts(cfg, s, DoCancel(s, w), w);
  }

  lemma StepBalancesPuts(cfg: Config, s: State, e: Event)
    requires PutsBalance(cfg, s)
    ensures PutsBalance(cfg, Step(cfg, s, e))
  {
    if Enabled(cfg, s, e) {
      match e {
        case WriteOk(w, count) => WriteOkBalancesPuts(cfg, s, w, count);
        case PutDone(w, ok) => PutBalancesPuts(cfg, s, w, ok);
        case Get(w) => GetBalancesPuts(cfg, s, w);
        case Timeout(w) => TimeoutBalancesPuts(cfg, s, w);
        case EmbedDone(w, _) => OthersBalancePuts(cfg, s, Step(cfg, s, e), w);
        case WriteFailed(w) => OthersBalancePuts(cfg, s, Step(cfg, s, e), w);
        case Cancel(w) => CancelBalancesPuts(cfg, s, w);
        case _ =>
      }
    }
  }

  lemma {:induction false} RunBalancesPuts(cfg: Config, trace: seq<Event>)
    ensures PutsBalance(cfg, Run(cfg, trace))
  {
    if trace == [] {
      BagAllEmpty(Todo, Run(cfg, trace).workers);
    } else {
      RunBalancesPuts(cfg, trace[..|trace| - 1]);
      StepBalancesPuts(cfg, Run(cfg, trace[..|trace| - 1]), trace[|trace| - 1]);
    }
  }

  /**
   * Conservation in the cache stage, under every interleaving and counted with multiplicity: the
   * qualifying captures of all successful writes, when there is a cache, are those put, those that
   * a worker still has to put, and those abandoned when a worker was cancelled.  Nothing of a
   * failed batch is put, and nothing that does not qualify.
   */
  lemma PutsAreConserved(cfg: Config, trace: seq<Event>, c: RawCapture)
    ensures var s := Run(cfg, trace);
      s.log.put[c] + Bag(Todo, s.workers)[c] + s.log.abandoned[c]
      == if cfg.caches && CacheableIdentity(c).Some? then s.log.written[c] else 0
  {
    RunBalancesPuts(cfg, trace);
    var s := Run(cfg, trace);
    assert (s.log.put + Bag(Todo, s.workers) + s.log.abandoned)[c] == if Due(cfg, c) then s.log.written[c] else 0;
  }

  lemma {:induction false} AbandonedByCancellation(cfg: Config, trace: seq<Event>)
    ensures Run(cfg, trace).log.cancelled == 0 ==> Run(cfg, trace).log.abandoned == multiset{}
  {
    if trace != [] {
      AbandonedByCancellation(cfg, trace[..|trace| - 1]);
    }
  }

  /** Once every worker has exited by itself, every qualifying capture of a written batch has been put. */
  lemma NormalExitPutsEverything(cfg: Config, trace: seq<Event>, c: RawCapture)
    requires forall w :: w in Run(cfg, trace).workers ==> w.point.Exited?
    ensures var log := Run(cfg, trace).log;
      log.put[c] == if cfg.caches && CacheableIdentity(c).Some? then log.written[c] else 0
  {
    var s := Run(cfg, trace);
    RunIsAccounted(cfg, trace);
    SumBounds(Gone, s.workers, 0);
    AbandonedByCancellation(cfg, trace);
    BagAllEmpty(Todo, s.workers);
    PutsAreConserved(cfg, trace, c);
  }

  // ----- The order of the stages -----------------------------------------------------------------

  /** With an embedder, what was handed to the sink is what came through the embed stage. */
  predicate EmbeddedBeforeWritten(cfg: Config, s: State) {
    s.log.passed == if cfg.embeds then s.log.sunk + Bag(InWrite, s.workers) else multiset{}
  }

  predicate NoEmbedderNoEmbedding(cfg: Config, s: State) {
    !cfg.embeds ==> forall w :: w in s.workers && w.point.Flushing? ==> !w.point.phase.Embedding?
  }

  lemma StepKeepsEmbedderOut(cfg: Config, s: State, e: Event)
    requires NoEmbedderNoEmbedding(cfg, s)
    ensures NoEmbedderNoEmbedding(cfg, Step(cfg, s, e))
  {
    var s' := Step(cfg, s, e);
    forall w | w in s'.workers && !cfg.embeds && w.point.Flushing? ensures !w.point.phase.Embedding? {
      if w !in s.workers {
        var i :| 0 <= i < |s.workers| && s'.workers == s.workers[i := w];
        assert s.workers[i] in s.workers;
      }
    }
  }

  lemma MoveKeepsStageOrder(cfg: Config, s: State, s': State, w: nat)
    requires EmbeddedBeforeWritten(cfg, s) && w < |s.workers| == |s'.workers|
    requires s'.workers == s.workers[w := s'.workers[w]]
    requires if cfg.embeds
      then s'.log.passed + s.log.sunk + InWrite(s.workers[w]) == s.log.passed + s'.log.sunk + InWrite(s'.workers[w])
      else s'.log.passed == s.log.passed
    ensures EmbeddedBeforeWritten(cfg, s')
  {
    if cfg.embeds {
      BagUpdate(InWrite, s.workers, w, s'.workers[w]);
      var bag, bag', x, x' :=
          Bag(InWrite, s.workers), Bag(InWrite, s'.workers), InWrite(s.workers[w]), InWrite(s'.workers[w]);
      forall c ensures s'.log.passed[c] == (s'.log.sunk + bag')[c] {
        assert (bag' + x)[c] == (bag + x')[c];
        assert (s'.log.passed + s.log.sunk + x)[c] == (s.log.passed + s'.log.sunk + x')[c];
      }
    }
  }

  lemma EmbedKeepsStageOrder(cfg: Config, s: State, w: nat, vectors: nat)
    requires EmbeddedBeforeWritten(cfg, s) && NoEmbedderNoEmbedding(cfg, s) && Enabled(cfg, s, EmbedDone(w, vectors))
    ensures EmbeddedBeforeWritten(cfg, DoEmbedDone(s, w, vectors))
  {
    assert s.workers[w] in s.workers;
    MoveKeepsStageOrder(cfg, s, DoEmbedDone(s, w, vectors), w);
  }

  lemma WriteKeepsStageOrder(cfg: Config, s: State, e: Event, w: nat)
    requires EmbeddedBeforeWritten(cfg, s) && Enabled(cfg, s, e)
    requires (e.WriteOk? && e.w == w) || e == WriteFailed(w)
    ensures EmbeddedBeforeWritten(cfg, Step(cfg, s, e))
  {
    MoveKeepsStageOrder(cfg, s, Step(cfg, s, e), w);
  }

  lemma CancelKeepsStageOrder(cfg: Config, s: State, w: nat)
    requires EmbeddedBeforeWritten(cfg, s) && w < |s.workers|
    ensures EmbeddedBeforeWritten(cfg, DoCancel(s, w))
  {
    MoveKeepsStageOrder(cfg, s, DoCancel(s, w), w);
  }

  /** Steps that hand nothing to the sink; a batch starts there only without an embedder. */
  lemma OthersKeepStageOrder(cfg: Config, s: State, s': State, w: nat)
    requires EmbeddedBeforeWritten(cfg, s) && w < |s.workers| == |s'.workers|
    requires s'.workers == s.workers[w := s'.workers[w]]
    requires cfg.embeds ==> InWrite(s.workers[w]) == multiset{} == InWrite(s'.workers[w])
    requires s'.log.passed == s.log.passed && s'.log.sunk == s.log.sunk
    ensures EmbeddedBeforeWritten(cfg, s')
  {
    MoveKeepsStageOrder(cfg, s, s', w);
  }

  lemma GetKeepsStageOrder(cfg: Config, s: State, w: nat)
    requires EmbeddedBeforeWritten(cfg, s) && Enabled(cfg, s, Get(w))
    ensures EmbeddedBeforeWritten(cfg, DoGet(cfg, s, w))
  {
    GetOwesNothing(cfg, s, w);
    OthersKeepStageOrder(cfg, s, DoGet(cfg, s, w), w);
  }

  lemma TimeoutKeepsStageOrder(cfg: Config, s: State, w: nat)
    requires EmbeddedBeforeWritten(cfg, s) && Enabled(cfg, s, Timeout(w))
    ensures EmbeddedBeforeWritten(cfg, DoTimeout(cfg, s, w))
  {
    TimeoutOwesNothing(cfg, s, w);
    OthersKeepStageOrder(cfg, s, DoTimeout(cfg, s, w), w);
  }

  lemma StepKeepsStageOrder(cfg: Config, s: State, e: Event)
    requires EmbeddedBeforeWritten(cfg, s) && NoEmbedderNoEmbedding(cfg, s)
    ensures EmbeddedBeforeWritten(cfg, Step(cfg, s, e))
  {
    if Enabled(cfg, s, e) {
      match e {
        case Get(w) => GetKeepsStageOrder(cfg, s, w);
        case Timeout(w) => TimeoutKeepsStageOrder(cfg, s, w);
        case PutDone(w, _) => OthersKeepStageOrder(cfg, s, Step(cfg, s, e), w);
        case EmbedDone(w, vectors) => EmbedKeepsStageOrder(cfg, s, w, vectors);
        case WriteOk(w, _) => WriteKeepsStageOrder(cfg, s, e, w);
        case WriteFailed(w) => WriteKeepsStageOrder(cfg, s, e, w);
        case Cancel(w) => CancelKeepsStageOrder(cfg, s, w);
        case _ =>
      }
    }
  }

  /**
   * With an embedder every record goes through the embed stage once before it is handed to the sink;
   * without, none does.
   */
  lemma {:induction false} EmbedsBeforeWriting(cfg: Config, trace: seq<Event>)
    ensures var s := Run(cfg, trace);
      && (cfg.embeds ==> s.log.passed == s.log.sunk + Bag(InWrite, s.workers))
      && (!cfg.embeds ==> s.log.passed == multiset{})
      && NoEmbedderNoEmbedding(cfg, s)
  {
    if trace == [] {
      BagAllEmpty(InWrite, Run(cfg, trace).workers);
    } else {
      EmbedsBeforeWriting(cfg, trace[..|trace| - 1]);
      StepKeepsStageOrder(cfg, Run(cfg, trace[..|trace| - 1]), trace[|trace| - 1]);
      StepKeepsEmbedderOut(cfg, Run(cfg, trace[..|trace| - 1]), trace[|trace| - 1]);
    }
  }

  // ----- The metrics ------------------------------------------------------------------------------

  function GoodPuts(e: Event): nat { if e.PutDone? && e.ok then 1 else 0 }

  function Puts(e: Event): nat { if e.PutDone? then 1 else 0 }

  function Vectors(e: Event): nat { if e.EmbedDone? then e.vectors else 0 }

  function Inserted(e: Event): nat { if e.WriteOk? then e.count else 0 }

  function Calls(e: Event): nat { if e.Submit? then 1 else 0 }

  function Cancels(e: Event): nat { if e.Cancel? then 1 else 0 }

  lemma StepTallies(cfg: Config, s: State, e: Event)
    requires Enabled(cfg, s, e)
    ensures var s' := Step(cfg, s, e);
      && s'.metrics.cached == s.metrics.cached + GoodPuts(e) && |s'.log.put| == |s.log.put| + Puts(e)
      && s'.metrics.embedded == s.metrics.embedded + Vectors(e)
      && s'.metrics.written == s.metrics.written + Inserted(e)
      && s'.log.calls == s.log.calls + Calls(e) && s'.log.cancelled == s.log.cancelled + Cancels(e)
  {
  }

  /** Every counter says how often its event happened. */
  lemma {:induction false} MetricsAreTallies(cfg: Config, trace: seq<Event>)
    requires Legal(cfg, trace)
    ensures var s := Run(cfg, trace);
      && s.metrics.cached == Sum(GoodPuts, trace) && |s.log.put| == Sum(Puts, trace)
      && s.metrics.embedded == Sum(Vectors, trace) && s.metrics.written == Sum(Inserted, trace)
      && s.log.calls == Sum(Calls, trace) && s.log.cancelled == Sum(Cancels, trace)
  {
    if trace != [] {
      MetricsAreTallies(cfg, trace[..|trace| - 1]);
      StepTallies(cfg, Run(cfg, trace[..|trace| - 1]), trace[|trace| - 1]);
    }
  }
}
