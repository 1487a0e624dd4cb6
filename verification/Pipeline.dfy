// The telemetry pipeline (telemetry/pipeline.py, telemetry/stages.py) as a step machine.
//
// A step is what one task does between two awaits.  Submitters, workers and `stop()`
// interleave freely: a run is any sequence of enabled events.

module Stages {
  import opened Common
  import opened Capture

  datatype CacheIdentity = CacheIdentity(key: string, streamed: bool)

  /** When a capture is written to the cache, and under which identity. */
  function CacheableIdentity(c: RawCapture): Option<CacheIdentity> {
    if !c.cacheRequested || c.servedFromCache || c.cacheKey.None? || c.status != OK
       || c.httpStatus.None? || !(200 <= c.httpStatus.value < 300) || c.truncated || c.responseBody == []
    then None
    else Some(CacheIdentity(c.cacheKey.value, c.streamed))
  }

  /** The captures of a persisted batch the cache stage will put, in order. */
  function Cacheable(records: seq<RawCapture>): (todo: seq<RawCapture>)
    ensures |todo| <= |records|
    ensures forall c :: c in todo <==> c in records && CacheableIdentity(c).Some?
  {
    if records == [] then []
    else (if CacheableIdentity(records[0]).Some? then [records[0]] else []) + Cacheable(records[1..])
  }

  /** Each part of a batch is taken or left by itself, in order: what qualifies is listed as often as it comes. */
  lemma {:induction false} CacheableSplits(a: seq<RawCapture>, b: seq<RawCapture>)
    ensures Cacheable(a + b) == Cacheable(a) + Cacheable(b)
    decreases |a|
  {
    if a == [] {
      assert a + b == b;
    } else {
      assert (a + b)[1..] == a[1..] + b && (a + b)[0] == a[0];
      CacheableSplits(a[1..], b);
      var head := if CacheableIdentity(a[0]).Some? then [a[0]] else [];
      assert head + (Cacheable(a[1..]) + Cacheable(b)) == (head + Cacheable(a[1..])) + Cacheable(b);
    }
  }

  lemma CacheableAlone(c: RawCapture)
    ensures Cacheable([c]) == if CacheableIdentity(c).Some? then [c] else []
  {
    assert [c][1..] == [];
  }
}

module Pipeline {
  import opened Common
  import opened Capture
  import opened Stages

  datatype Config = Config(maxsize: int, workers: nat, batchSize: int, embeds: bool, caches: bool)

  datatype Item = Data(capture: RawCapture) | Shutdown

  /** Where the stages stand on one flushed batch. */
  datatype Phase =
    | Embedding(records: seq<RawCapture>)
    | Writing(records: seq<RawCapture>)
    | Caching(todo: seq<RawCapture>)

  /** `last` marks the flush after a sentinel broke the loop and the queue was drained. */
  datatype Point = Waiting | Flushing(phase: Phase, last: bool) | Exited | Cancelled

  datatype Worker = Worker(batch: seq<RawCapture>, point: Point)

  datatype Metrics = Metrics(submitted: nat, dropped: nat, written: nat, failed: nat, embedded: nat, cached: nat)

  /** Where `stop()` is; `Putting(left)` still has `left` sentinels to put. */
  datatype Stop = Running | Putting(left: nat) | Joining | Cancelling | Stopped

  /** What happened so far; no step reads it. */
  datatype Log = Log(
    calls: nat,                       // submit calls
    late: nat,                        // captures accepted after stop() began
    accepted: multiset<RawCapture>,
    sunk: multiset<RawCapture>,       // handed to sink.write_many
    written: multiset<RawCapture>,
    failed: multiset<RawCapture>,
    lost: multiset<RawCapture>,       // lost to cancellation
    passed: multiset<RawCapture>,     // been through the embed stage
    put: multiset<RawCapture>,        // whose put into the cache came back, done or failed
    abandoned: multiset<RawCapture>,  // left unput by cancellation
    broke: nat,                       // sentinels that ended a worker's loop
    discarded: nat,                   // sentinels swallowed by a drain
    cancelled: nat,                   // workers cancelled
    exact: bool)                      // every successful write returned the batch length

  datatype State = State(queue: seq<Item>, workers: seq<Worker>, metrics: Metrics, stop: Stop, log: Log)

  datatype Event =
    | Submit(capture: RawCapture)
    | Get(w: nat)
    | Timeout(w: nat)
    | EmbedDone(w: nat, vectors: nat)
    | WriteOk(w: nat, count: nat)
    | WriteFailed(w: nat)
    | PutDone(w: nat, ok: bool)
    | Cancel(w: nat)
    | StopCalled
    | PutShutdown
    | JoinTimeout
    | JoinDone

  const NO_LOG := Log(0, 0, multiset{}, multiset{}, multiset{}, multiset{}, multiset{}, multiset{}, multiset{},
                      multiset{}, 0, 0, 0, true)

  function Initial(cfg: Config): State {
    State([], seq(cfg.workers, i => Worker([], Waiting)), Metrics(0, 0, 0, 0, 0, 0), Running,
          NO_LOG)
  }

  // ----- Queue contents --------------------------------------------------------------

  function Captures(queue: seq<Item>): seq<RawCapture> {
    if queue == [] then []
    else (if queue[0].Data? then [queue[0].capture] else []) + Captures(queue[1..])
  }

  /** asyncio's bound: a queue with a non-positive maxsize is never full. */
  predicate Full(cfg: Config, queue: seq<Item>) {
    0 < cfg.maxsize <= |queue|
  }

  function Sentinels(queue: seq<Item>): nat {
    if queue == [] then 0 else (if queue[0].Shutdown? then 1 else 0) + Sentinels(queue[1..])
  }

  // ----- Steps -------------------------------------------------------------------------

  /** `_flush` up to its first await: an empty batch returns at once. */
  function Begin(cfg: Config, batch: seq<RawCapture>, last: bool): Worker {
    if batch == [] then Worker([], if last then Exited else Waiting)
    else Worker([], Flushing(if cfg.embeds then Embedding(batch) else Writing(batch), last))
  }

  /** A capture joins the batch; a batch that reached its size is flushed. */
  function Append(cfg: Config, batch: seq<RawCapture>, c: RawCapture): Worker {
    var grown := batch + [c];
    if |grown| >= cfg.batchSize then Begin(cfg, grown, false) else Worker(grown, Waiting)
  }

  /** The point reached when the stages are done with a batch, or have puts left to do. */
  function Resume(todo: seq<RawCapture>, last: bool): Point {
    if todo != [] then Flushing(Caching(todo), last) else if last then Exited else Waiting
  }

  predicate At(s: State, w: nat) {
    w < |s.workers|
  }

  predicate InPhase(s: State, w: nat) {
    At(s, w) && s.workers[w].point.Flushing?
  }

  predicate Done(w: Worker) {
    w.point.Exited? || w.point.Cancelled?
  }

  predicate Enabled(cfg: Config, s: State, e: Event) {
    match e
    case Submit(_) => true
    case Get(w) => At(s, w) && s.workers[w].point.Waiting? && s.queue != []
    case Timeout(w) => At(s, w) && s.workers[w].point.Waiting?
    case EmbedDone(w, vectors) =>
      InPhase(s, w) && s.workers[w].point.phase.Embedding? && vectors <= |s.workers[w].point.phase.records|
    case WriteOk(w, _) => InPhase(s, w) && s.workers[w].point.phase.Writing?
    case WriteFailed(w) => InPhase(s, w) && s.workers[w].point.phase.Writing?
    case PutDone(w, _) => InPhase(s, w) && s.workers[w].point.phase.Caching? && s.workers[w].point.phase.todo != []
    case Cancel(w) => At(s, w) && s.stop.Cancelling? && !Done(s.workers[w])
    case StopCalled => s.stop.Running?
    case PutShutdown => s.stop.Putting? && s.stop.left > 0 && !Full(cfg, s.queue)
    case JoinTimeout => s.stop.Joining?
    case JoinDone => (s.stop.Joining? || s.stop.Cancelling?) && forall w :: w in s.workers ==> Done(w)
  }

  function DoSubmit(cfg: Config, s: State, c: RawCapture): State {
    if Full(cfg, s.queue) then
      s.(metrics := s.metrics.(dropped := s.metrics.dropped + 1), log := s.log.(calls := s.log.calls + 1))
    else
      s.(queue := s.queue + [Data(c)],
         metrics := s.metrics.(submitted := s.metrics.submitted + 1),
         log := s.log.(calls := s.log.calls + 1,
                       accepted := s.log.accepted + multiset{c},
                       late := s.log.late + if s.stop.Running? then 0 else 1))
  }

  /** The head of the queue arrives: a capture joins the batch, a sentinel ends the loop and drains the queue. */
  function DoGet(cfg: Config, s: State, w: nat): State
    requires At(s, w) && s.queue != []
  {
    var batch, rest := s.workers[w].batch, s.queue[1..];
    match s.queue[0]
    case Data(c) =>
      s.(queue := rest, workers := s.workers[w := Append(cfg, batch, c)])
    case Shutdown =>
      s.(queue := [],
         workers := s.workers[w := Begin(cfg, batch + Captures(rest), true)],
         log := s.log.(broke := s.log.broke + 1, discarded := s.log.discarded + Sentinels(rest)))
  }

  function DoTimeout(cfg: Config, s: State, w: nat): State
    requires At(s, w)
  {
    s.(workers := s.workers[w := Begin(cfg, s.workers[w].batch, false)])
  }

  function DoEmbedDone(s: State, w: nat, vectors: nat): State
    requires InPhase(s, w) && s.workers[w].point.phase.Embedding?
  {
    var p := s.workers[w].point;
    s.(workers := s.workers[w := s.workers[w].(point := Flushing(Writing(p.phase.records), p.last))],
       metrics := s.metrics.(embedded := s.metrics.embedded + vectors),
       log := s.log.(passed := s.log.passed + multiset(p.phase.records)))
  }

  function DoWriteOk(cfg: Config, s: State, w: nat, count: nat): State
    requires InPhase(s, w) && s.workers[w].point.phase.Writing?
  {
    var p := s.workers[w].point;
    var records := p.phase.records;
    s.(workers := s.workers[w := s.workers[w].(point := Resume(if cfg.caches then Cacheable(records) else [], p.last))],
       metrics := s.metrics.(written := s.metrics.written + count),
       log := s.log.(sunk := s.log.sunk + multiset(records),
                     written := s.log.written + multiset(records),
                     exact := s.log.exact && count == |records|))
  }

  function DoWriteFailed(s: State, w: nat): State
    requires InPhase(s, w) && s.workers[w].point.phase.Writing?
  {
    var p := s.workers[w].point;
    var records := p.phase.records;
    s.(workers := s.workers[w := s.workers[w].(point := Resume([], p.last))],
       metrics := s.metrics.(failed := s.metrics.failed + |records|),
       log := s.log.(sunk := s.log.sunk + multiset(records), failed := s.log.failed + multiset(records)))
  }

  function DoPutDone(s: State, w: nat, ok: bool): State
    requires InPhase(s, w) && s.workers[w].point.phase.Caching? && s.workers[w].point.phase.todo != []
  {
    var p := s.workers[w].point;
    s.(workers := s.workers[w := s.workers[w].(point := Resume(p.phase.todo[1..], p.last))],
       metrics := s.metrics.(cached := s.metrics.cached + if ok then 1 else 0),
       log := s.log.(put := s.log.put + multiset{p.phase.todo[0]}))
  }

  /** Cancellation is raised at the worker's await: its batch and an unfinished flush are gone. */
  function DoCancel(s: State, w: nat): State
    requires At(s, w)
  {
    var leaving := s.workers[w];
    s.(workers := s.workers[w := Worker([], Cancelled)],
       log := s.log.(lost := s.log.lost + multiset(leaving.batch) + InFlight(leaving),
                     sunk := s.log.sunk + InWrite(leaving),
                     abandoned := s.log.abandoned + Todo(leaving),
                     cancelled := s.log.cancelled + 1))
  }

  function Step(cfg: Config, s: State, e: Event): State {
    if !Enabled(cfg, s, e) then s else
    match e
    case Submit(c) => DoSubmit(cfg, s, c)
    case Get(w) => DoGet(cfg, s, w)
    case Timeout(w) => DoTimeout(cfg, s, w)
    case EmbedDone(w, vectors) => DoEmbedDone(s, w, vectors)
    case WriteOk(w, count) => DoWriteOk(cfg, s, w, count)
    case WriteFailed(w) => DoWriteFailed(s, w)
    case PutDone(w, ok) => DoPutDone(s, w, ok)
    case Cancel(w) => DoCancel(s, w)
    case StopCalled => s.(stop := if |s.workers| == 0 then Joining else Putting(|s.workers|))
    case PutShutdown =>
      s.(queue := s.queue + [Shutdown], stop := if s.stop.left == 1 then Joining else Putting(s.stop.left - 1))
    case JoinTimeout => s.(stop := Cancelling)
    case JoinDone => s.(stop := Stopped)
  }

  function Run(cfg: Config, trace: seq<Event>): State {
    if trace == [] then Initial(cfg) else Step(cfg, Run(cfg, trace[..|trace| - 1]), trace[|trace| - 1])
  }

  /** Every event of the trace is enabled when it happens. */
  predicate Legal(cfg: Config, trace: seq<Event>) {
    trace == [] ||
    (Legal(cfg, trace[..|trace| - 1]) && Enabled(cfg, Run(cfg, trace[..|trace| - 1]), trace[|trace| - 1]))
  }

  // ----- What each worker holds ----------------------------------------------------------

  function Batched(w: Worker): multiset<RawCapture> {
    multiset(w.batch)
  }

  /** Records of a flush that the sink has not yet answered for. */
  function InFlight(w: Worker): multiset<RawCapture> {
    if w.point.Flushing? && !w.point.phase.Caching? then multiset(w.point.phase.records) else multiset{}
  }

  /** Records handed to the sink that it has not yet answered for. */
  function InWrite(w: Worker): multiset<RawCapture> {
    if w.point.Flushing? && w.point.phase.Writing? then multiset(w.point.phase.records) else multiset{}
  }

  /** Records of a written batch that wait for their put. */
  function Todo(w: Worker): multiset<RawCapture> {
    if w.point.Flushing? && w.point.phase.Caching? then multiset(w.point.phase.todo) else multiset{}
  }

  /** 1 for a worker whose loop was ended by a sentinel. */
  function Past(w: Worker): nat {
    if w.point.Exited? || (w.point.Flushing? && w.point.last) then 1 else 0
  }
}
