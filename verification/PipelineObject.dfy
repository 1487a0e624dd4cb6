// The pipeline object: each method is the code one task runs between two awaits, updating
// the queue, the batches and the metrics in place, proved against the step machine.

module PipelineObject {
  import opened Common
  import opened Capture
  import opened Stages
  import opened Pipeline

  class TelemetryPipeline {
    const cfg: Config
    var queue: seq<Item>
    var workers: seq<Worker>
    var metrics: Metrics
    var stop: Stop
    ghost var log: Log

    ghost function Contents(): State
      reads this
    {
      State(queue, workers, metrics, stop, log)
    }

    constructor (cfg: Config)
      ensures this.cfg == cfg && Contents() == Run(cfg, [])
    {
      this.cfg := cfg;
      queue := [];
      workers := seq(cfg.workers, i => Worker([], Waiting));
      metrics := Metrics(0, 0, 0, 0, 0, 0);
      stop := Running;
      log := NO_LOG;
    }

    /** Called on the request path: never waits, drops when full. */
    method Submit(capture: RawCapture) returns (accepted: bool)
      modifies this
      ensures Contents() == Step(cfg, old(Contents()), Event.Submit(capture))
      ensures accepted <==> cfg.maxsize <= 0 || |old(queue)| < cfg.maxsize
      ensures accepted ==> queue == old(queue) + [Data(capture)] && metrics.submitted == old(metrics.submitted) + 1
      ensures !accepted ==> queue == old(queue) && metrics.dropped == old(metrics.dropped) + 1
    {
      log := log.(calls := log.calls + 1);
      if Full(cfg, queue) {
        metrics := metrics.(dropped := metrics.dropped + 1);
        return false;
      }
      queue := queue + [Data(capture)];
      metrics := metrics.(submitted := metrics.submitted + 1);
      log := log.(accepted := log.accepted + multiset{capture}, late := log.late + if stop.Running? then 0 else 1);
      return true;
    }

    /** `_drain_remaining`: takes everything, keeps the captures, swallows the sentinels. */
    method DrainRemaining(batch: seq<RawCapture>) returns (grown: seq<RawCapture>)
      modifies `queue
      ensures queue == []
      ensures grown == batch + Captures(old(queue))
    {
      grown := batch;
      while queue != []
        invariant grown + Captures(queue) == batch + Captures(old(queue))
        decreases |queue|
      {
        var item := queue[0];
        queue := queue[1..];
        if item.Shutdown? {
          continue;
        }
        grown := grown + [item.capture];
      }
    }

    /** `_flush` up to its first await. */
    method Flush(w: nat, batch: seq<RawCapture>, last: bool)
      requires w < |workers|
      modifies `workers
      ensures workers == old(workers)[w := Begin(cfg, batch, last)]
    {
      if batch == [] {
        workers := workers[w := Worker([], if last then Exited else Waiting)];
        return;
      }
      workers := workers[w := Worker([], Flushing(if cfg.embeds then Embedding(batch) else Writing(batch), last))];
    }

    /** The body of the worker loop once `queue.get()` has returned. */
    method OnItem(w: nat)
      requires Enabled(cfg, Contents(), Get(w))
      modifies this
      ensures Contents() == Step(cfg, old(Contents()), Get(w))
    {
      var item, batch := queue[0], workers[w].batch;
      queue := queue[1..];
      if item.Shutdown? {
        log := log.(broke := log.broke + 1, discarded := log.discarded + Sentinels(queue));
        batch := DrainRemaining(batch);
        Flush(w, batch, true);
        return;
      }
      batch := batch + [item.capture];
      if |batch| >= cfg.batchSize {
        Flush(w, batch, false);
      } else {
        workers := workers[w := Worker(batch, Waiting)];
      }
    }

    method OnTimeout(w: nat)
      requires Enabled(cfg, Contents(), Timeout(w))
      modifies this
      ensures Contents() == Step(cfg, old(Contents()), Timeout(w))
    {
      Flush(w, workers[w].batch, false);
    }

    /** `EmbedStage.process` after its await: `vectors` records got a vector. */
    method OnEmbedded(w: nat, vectors: nat)
      requires Enabled(cfg, Contents(), EmbedDone(w, vectors))
      modifies this
      ensures Contents() == Step(cfg, old(Contents()), EmbedDone(w, vectors))
    {
      metrics := metrics.(embedded := metrics.embedded + vectors);
      var point := workers[w].point;
      log := log.(passed := log.passed + multiset(point.phase.records));
      workers := workers[w := workers[w].(point := Flushing(Writing(point.phase.records), point.last))];
    }

    /** `MongoWriteStage.process` after its await; `written` is `None` when the sink raised. */
    method OnWritten(w: nat, written: Option<nat>)
      requires Enabled(cfg, Contents(), if written.Some? then WriteOk(w, written.value) else WriteFailed(w))
      modifies this
      ensures Contents()
          == Step(cfg, old(Contents()), if written.Some? then WriteOk(w, written.value) else WriteFailed(w))
    {
      var point := workers[w].point;
      var records := point.phase.records;
      var persisted := written.Some?;
      if persisted {
        metrics := metrics.(written := metrics.written + written.value);
        log := log.(written := log.written + multiset(records), exact := log.exact && written.value == |records|);
      } else {
        metrics := metrics.(failed := metrics.failed + |records|);
        log := log.(failed := log.failed + multiset(records));
      }
      log := log.(sunk := log.sunk + multiset(records));
      var todo := [];
      if persisted && cfg.caches {
        todo := SelectCacheable(records);
      }
      workers := workers[w := workers[w].(point := Resume(todo, point.last))];
    }

    /** The guards of `CacheWriteStage.process`: which records of a persisted batch it puts. */
    method SelectCacheable(records: seq<RawCapture>) returns (todo: seq<RawCapture>)
      ensures todo == Cacheable(records)
    {
      todo := [];
      var i := 0;
      while i < |records|
        invariant i <= |records|
        invariant todo + Cacheable(records[i..]) == Cacheable(records)
      {
        assert records[i..][0] == records[i] && records[i..][1..] == records[i + 1..];
        if CacheableIdentity(records[i]).Some? {
          todo := todo + [records[i]];
        }
        i := i + 1;
      }
    }

    method OnPut(w: nat, ok: bool)
      requires Enabled(cfg, Contents(), PutDone(w, ok))
      modifies this
      ensures Contents() == Step(cfg, old(Contents()), PutDone(w, ok))
    {
      if ok {
        metrics := metrics.(cached := metrics.cached + 1);
      }
      var point := workers[w].point;
      log := log.(put := log.put + multiset{point.phase.todo[0]});
      workers := workers[w := workers[w].(point := Resume(point.phase.todo[1..], point.last))];
    }

    /** `stop()` puts one sentinel, once there is room for it. */
    method PutSentinel()
      requires Enabled(cfg, Contents(), PutShutdown)
      modifies this
      ensures Contents() == Step(cfg, old(Contents()), PutShutdown)
      ensures old(stop).Putting? && (cfg.maxsize <= 0 || |old(queue)| < cfg.maxsize)
      ensures queue == old(queue) + [Shutdown]
      ensures stop == if old(stop).left == 1 then Joining else Putting(old(stop).left - 1)
    {
      queue := queue + [Shutdown];
      stop := if stop.left == 1 then Joining else Putting(stop.left - 1);
    }
  }
}
