// Whole-run theorems: permits and memory, cache provenance, and non-interference of the planes.

module SystemTheory {
  import opened Common
  import opened Capture
  import opened Stages
  import opened System
  import RateLimit
  import Relay
  import RelayTheory
  import Pipeline
  import Store
  import Keys
  import Json

  // ----- Permits and memory, in every reachable state ---------------------------------------

  lemma {:induction false} RelayStaysGood(cfg: Config, start: real, trace: seq<Event>)
    ensures RelayTheory.GoodRelay(cfg.relay, Run(cfg, start, trace).relay)
  {
    if trace != [] {
      var before, e := trace[..|trace| - 1], trace[|trace| - 1];
      RelayStaysGood(cfg, start, before);
      var s := Run(cfg, start, before);
      if e.Data? {
        RelayTheory.StepKeepsRelay(cfg.relay, s.clock, s.docs, s.relay, e.e);
      }
    }
  }

  /**
   * The permit protocol.  The in-flight counter is the number of requests between acquire
   * and release and stays within the cap; each request has taken at most one permit and,
   * once it is closed by whatever exit, returned exactly what it took.
   */
  lemma PermitProtocol(cfg: Config, start: real, trace: seq<Event>, i: nat)
    requires i < |Run(cfg, start, trace).relay.sessions|
    ensures var r := Run(cfg, start, trace).relay;
      var x := r.sessions[i];
      && r.inflight == Sum(Relay.Holds, r.sessions) && 0 <= r.inflight <= cfg.relay.maxConcurrent
      && x.releases <= x.acquires <= 1
      && (x.stage.Closed? <==> x.acquires == x.releases)
  {
    RelayStaysGood(cfg, start, trace);
    assert RelayTheory.GoodSession(cfg.relay, Run(cfg, start, trace).relay.sessions[i]);
  }

  /** Request bodies and capture buffers of all permit holders together stay under the advertised bound. */
  lemma DataPlaneMemory(cfg: Config, start: real, trace: seq<Event>)
    ensures Sum(RelayTheory.Retained, Run(cfg, start, trace).relay.sessions)
         <= cfg.relay.maxConcurrent * (cfg.relay.maxRequestBytes + cfg.relay.maxCaptureBytes)
  {
    RelayStaysGood(cfg, start, trace);
    RelayTheory.MemoryIsBounded(cfg.relay, Run(cfg, start, trace).relay);
  }

  /**
   * At any moment, and at any disconnect: the client has a prefix of the upstream chunks, telemetry
   * saw it or one chunk more.
   */
  lemma TeeFidelity(cfg: Config, start: real, trace: seq<Event>)
    ensures var r := Run(cfg, start, trace).relay;
      && (forall i :: 0 <= i < |r.sessions| && r.sessions[i].stage.Streaming? ==>
            var x := r.sessions[i];
            RelayTheory.TeeHolds(x.stage.answer.chunks, x.stage.observed, x.sent)
            && x.buffer == ObserveAll(cfg.relay.maxCaptureBytes, x.stage.answer.chunks[..x.stage.observed]))
      && (forall k :: 0 <= k < |r.finished| ==>
            var x := r.finished[k];
            RelayTheory.TeeHolds(x.answer.chunks, x.observed, x.sent)
            && (x.completed ==> x.sent == x.answer.chunks && !x.answer.breaks))
  {
    RelayStaysGood(cfg, start, trace);
    var r := Run(cfg, start, trace).relay;
    forall i | 0 <= i < |r.sessions| ensures RelayTheory.GoodSession(cfg.relay, r.sessions[i]) {
    }
    forall k | 0 <= k < |r.finished| ensures RelayTheory.GoodExchange(cfg.relay, r.finished[k]) {
    }
  }

  // ----- Where a capture can be --------------------------------------------------------------

  predicate HeldBy(w: Pipeline.Worker, c: RawCapture) {
    c in w.batch ||
    (w.point.Flushing? && if w.point.phase.Caching? then c in w.point.phase.todo else c in w.point.phase.records)
  }

  predicate Inside(p: Pipeline.State, c: RawCapture) {
    Pipeline.Data(c) in p.queue || exists i :: 0 <= i < |p.workers| && HeldBy(p.workers[i], c)
  }

  lemma {:induction false} CapturesAreQueued(queue: seq<Pipeline.Item>, c: RawCapture)
    requires c in Pipeline.Captures(queue)
    ensures Pipeline.Data(c) in queue
  {
    if queue[0] != Pipeline.Data(c) {
      CapturesAreQueued(queue[1..], c);
    }
  }

  lemma BeginHoldsBatch(cfg: Pipeline.Config, batch: seq<RawCapture>, last: bool, c: RawCapture)
    requires HeldBy(Pipeline.Begin(cfg, batch, last), c)
    ensures c in batch
  {
  }

  /** A worker step hands a worker only what it held, or what it took from the queue. */
  lemma WorkerGetsNothingNew(cfg: Pipeline.Config, p: Pipeline.State, e: Pipeline.Event, i: nat, c: RawCapture)
    requires Pipeline.Enabled(cfg, p, e) && i < |p.workers|
    requires var p' := Pipeline.Step(cfg, p, e); i < |p'.workers| && HeldBy(p'.workers[i], c)
    ensures Inside(p, c)
  {
    if !HeldBy(p.workers[i], c) {
      match e {
        case Get(w) =>
          if p.queue[0].Data? {
            assert Pipeline.Data(c) == p.queue[0];
          } else {
            BeginHoldsBatch(cfg, p.workers[w].batch + Pipeline.Captures(p.queue[1..]), true, c);
            CapturesAreQueued(p.queue[1..], c);
          }
        case _ =>
      }
    }
  }

  /** The pipeline never makes a capture up. */
  lemma NothingNew(cfg: Pipeline.Config, p: Pipeline.State, e: Pipeline.Event, c: RawCapture)
    requires Inside(Pipeline.Step(cfg, p, e), c)
    ensures Inside(p, c) || e == Pipeline.Submit(c)
  {
    if Pipeline.Enabled(cfg, p, e) {
      var p' := Pipeline.Step(cfg, p, e);
      if Pipeline.Data(c) !in p'.queue {
        var i :| 0 <= i < |p'.workers| && HeldBy(p'.workers[i], c);
        WorkerGetsNothingNew(cfg, p, e, i, c);
      }
    }
  }

  // ----- Provenance -------------------------------------------------------------------------

  /** The exchange completed, was a whole 2xx answer, and is what this cacheable content copies. */
  ghost predicate Origin(cfg: Config, x: Relay.Exchange, key: string, streamed: bool, status: int,
                         contentType: Option<string>, body: Bytes) {
    && x.completed && 200 <= x.answer.status < 300
    && x.identity.Some? && x.identity.value.key == key
    && x.answer.Streamed() == streamed && x.answer.status == status && x.answer.contentType == contentType
    && body == Concat(x.answer.chunks) && body != []
  }

  ghost predicate CaptureOrigin(cfg: Config, finished: seq<Relay.Exchange>, c: RawCapture) {
    CacheableIdentity(c).Some? ==>
      exists k :: 0 <= k < |finished|
        && Origin(cfg, finished[k], c.cacheKey.value, c.streamed, c.httpStatus.value, c.contentType, c.responseBody)
  }

  ghost predicate DocOrigin(cfg: Config, finished: seq<Relay.Exchange>, d: Store.CacheDoc) {
    exists k :: 0 <= k < |finished| && Origin(cfg, finished[k], d.key, d.streamed, d.statusCode, d.contentType, d.body)
  }

  /** Timestamps of a stored document. */
  predicate GoodTimes(cfg: Config, s: State, d: Store.CacheDoc) {
    d.createdAt <= s.clock && d.expiresAt == d.createdAt + cfg.relay.ttl
  }

  ghost predicate ServedOrigin(cfg: Config, s: State, v: Relay.Served) {
    && v.finishedBefore <= |s.relay.finished| && v.doc in s.ever
    && DocOrigin(cfg, s.relay.finished[..v.finishedBefore], v.doc)
  }

  ghost predicate CapturesHaveOrigin(cfg: Config, s: State) {
    forall c :: Inside(s.pipeline, c) ==> CaptureOrigin(cfg, s.relay.finished, c)
  }

  ghost predicate DocsHaveOrigin(cfg: Config, s: State) {
    && (forall d :: d in s.ever ==> DocOrigin(cfg, s.relay.finished, d) && GoodTimes(cfg, s, d))
    && s.docs <= s.ever
    && s.reapedAt <= s.clock
    && (forall d :: d in s.ever - s.docs ==> d.expiresAt <= s.reapedAt)
  }

  ghost predicate HitsHaveOrigin(cfg: Config, s: State) {
    forall i :: 0 <= i < |s.relay.sessions| && s.relay.sessions[i].served.Some? ==>
      ServedOrigin(cfg, s, s.relay.sessions[i].served.value)
  }

  /** What the relay submits has an origin: if it is cacheable it is the answer just logged. */
  lemma SubmissionHasOrigin(cfg: Config, s: State, e: Relay.Event)
    requires RelayTheory.GoodRelay(cfg.relay, s.relay) && Relay.Submits(s.relay, s.docs, e).Some?
    ensures CaptureOrigin(cfg, Relay.Step(cfg.relay, s.clock, s.docs, s.relay, e).finished,
        Relay.Submits(s.relay, s.docs, e).value)
  {
    var c, x := Relay.Submits(s.relay, s.docs, e).value, s.relay.sessions[e.i];
    var after := Relay.Step(cfg.relay, s.clock, s.docs, s.relay, e).finished;
    if CacheableIdentity(c).Some? {
      assert x.stage.Streaming?;
      RelayTheory.CaptureIsFaithful(cfg.relay, s.docs, s.relay, e);
      var k := |after| - 1;
      assert Origin(cfg, after[k], c.cacheKey.value, c.streamed, c.httpStatus.value, c.contentType, c.responseBody);
    }
  }

  lemma FinishedGrows(cfg: Config, s: State, e: Relay.Event)
    ensures s.relay.finished <= Relay.Step(cfg.relay, s.clock, s.docs, s.relay, e).finished
  {
  }

  lemma DataKeepsCaptures(cfg: Config, s: State, e: Relay.Event)
    requires RelayTheory.GoodRelay(cfg.relay, s.relay) && CapturesHaveOrigin(cfg, s)
    ensures CapturesHaveOrigin(cfg, DoData(cfg, s, e))
  {
    var s', submitted := DoData(cfg, s, e), Relay.Submits(s.relay, s.docs, e);
    FinishedGrows(cfg, s, e);
    forall c | Inside(s'.pipeline, c) ensures CaptureOrigin(cfg, s'.relay.finished, c) {
      if submitted.Some? {
        SubmissionHasOrigin(cfg, s, e);
        NothingNew(cfg.pipeline, s.pipeline, Pipeline.Submit(submitted.value), c);
      }
      CaptureOriginSurvives(cfg, s.relay.finished, s'.relay.finished, c);
    }
  }

  lemma CaptureOriginSurvives(cfg: Config, before: seq<Relay.Exchange>, after: seq<Relay.Exchange>, c: RawCapture)
    requires before <= after
    ensures CaptureOrigin(cfg, before, c) ==> CaptureOrigin(cfg, after, c)
  {
    forall k | 0 <= k < |before| ensures before[k] == after[k] {
    }
  }

  lemma DocOriginSurvives(cfg: Config, before: seq<Relay.Exchange>, after: seq<Relay.Exchange>, d: Store.CacheDoc)
    requires before <= after
    ensures DocOrigin(cfg, before, d) ==> DocOrigin(cfg, after, d)
  {
    forall k | 0 <= k < |before| ensures before[k] == after[k] {
    }
  }

  /** A step sets `served` only on a hit, to the document found and the exchanges finished so far. */
  lemma ServedBySteps(cfg: Config, s: State, e: Relay.Event, i: nat)
    requires var r' := Relay.Step(cfg.relay, s.clock, s.docs, s.relay, e);
      i < |r'.sessions| && r'.sessions[i].served.Some?
    ensures var v := Relay.Step(cfg.relay, s.clock, s.docs, s.relay, e).sessions[i].served;
      || (i < |s.relay.sessions| && v == s.relay.sessions[i].served)
      || (v.value.doc in s.docs && v.value.finishedBefore == |s.relay.finished|)
  {
  }

  lemma DataKeepsHits(cfg: Config, s: State, e: Relay.Event)
    requires HitsHaveOrigin(cfg, s) && DocsHaveOrigin(cfg, s)
    ensures HitsHaveOrigin(cfg, DoData(cfg, s, e))
  {
    var s' := DoData(cfg, s, e);
    FinishedGrows(cfg, s, e);
    forall i | 0 <= i < |s'.relay.sessions| && s'.relay.sessions[i].served.Some?
      ensures ServedOrigin(cfg, s', s'.relay.sessions[i].served.value)
    {
      ServedBySteps(cfg, s, e, i);
      var v := s'.relay.sessions[i].served.value;
      assert v.finishedBefore <= |s.relay.finished|;
      assert s'.relay.finished[..v.finishedBefore] == s.relay.finished[..v.finishedBefore];
      if v.finishedBefore == |s.relay.finished| {
        assert s.relay.finished[..v.finishedBefore] == s.relay.finished;
      }
    }
  }

  lemma DataKeepsDocs(cfg: Config, s: State, e: Relay.Event)
    requires DocsHaveOrigin(cfg, s)
    ensures DocsHaveOrigin(cfg, DoData(cfg, s, e))
  {
    var s' := DoData(cfg, s, e);
    FinishedGrows(cfg, s, e);
    forall d | d in s'.ever ensures DocOrigin(cfg, s'.relay.finished, d) {
      DocOriginSurvives(cfg, s.relay.finished, s'.relay.finished, d);
    }
  }

  lemma TelemetryKeepsCaptures(cfg: Config, s: State, w: Pipeline.Event, inserted: Option<real>)
    requires Enabled(cfg, s, Telemetry(w, inserted)) && CapturesHaveOrigin(cfg, s)
    ensures CapturesHaveOrigin(cfg, DoTelemetry(cfg, s, w, inserted))
  {
    forall c | Inside(DoTelemetry(cfg, s, w, inserted).pipeline, c) ensures CaptureOrigin(cfg, s.relay.finished, c) {
      NothingNew(cfg.pipeline, s.pipeline, w, c);
    }
  }

  lemma TelemetryKeepsDocs(cfg: Config, s: State, w: Pipeline.Event, inserted: Option<real>)
    requires Enabled(cfg, s, Telemetry(w, inserted)) && CapturesHaveOrigin(cfg, s) && DocsHaveOrigin(cfg, s)
    ensures DocsHaveOrigin(cfg, DoTelemetry(cfg, s, w, inserted))
  {
    if inserted.Some? {
      var c := PuttingNow(s.pipeline, w.w).value;
      assert HeldBy(s.pipeline.workers[w.w], c);
      assert Inside(s.pipeline, c);
      var d := Store.DocumentOf(c, inserted.value, cfg.relay.ttl);
      assert DocOrigin(cfg, s.relay.finished, d);
    }
  }

  ghost predicate Provenance(cfg: Config, s: State) {
    CapturesHaveOrigin(cfg, s) && DocsHaveOrigin(cfg, s) && HitsHaveOrigin(cfg, s)
  }

  lemma StepKeepsProvenance(cfg: Config, s: State, e: Event)
    requires RelayTheory.GoodRelay(cfg.relay, s.relay) && Provenance(cfg, s)
    ensures Provenance(cfg, Step(cfg, s, e))
  {
    if Enabled(cfg, s, e) {
      match e {
        case Data(r) =>
          DataKeepsCaptures(cfg, s, r);
          DataKeepsDocs(cfg, s, r);
          DataKeepsHits(cfg, s, r);
        case Telemetry(w, inserted) =>
          TelemetryKeepsCaptures(cfg, s, w, inserted);
          TelemetryKeepsDocs(cfg, s, w, inserted);
        case _ =>
      }
    }
  }

  lemma {:induction false} ProvenanceHolds(cfg: Config, start: real, trace: seq<Event>)
    ensures Provenance(cfg, Run(cfg, start, trace))
  {
    if trace != [] {
      ProvenanceHolds(cfg, start, trace[..|trace| - 1]);
      RelayStaysGood(cfg, start, trace[..|trace| - 1]);
      StepKeepsProvenance(cfg, Run(cfg, start, trace[..|trace| - 1]), trace[|trace| - 1]);
    }
  }

  /**
   * The exchange a hit copies: whole, successful, delivered in full to its own client, and in the wire
   * format now asked for.
   */
  ghost predicate CopiedFrom(x: Relay.Exchange, hit: Relay.Session)
    requires hit.served.Some?
  {
    var asked := hit.served.value.identity;
    && x.completed && 200 <= x.answer.status < 300 && x.sent == x.answer.chunks && Concat(x.answer.chunks) != []
    && x.identity.Some? && x.identity.value.key == asked.key && x.answer.Streamed() == asked.streamed
    && hit.head == Some(Relay.Head(x.answer.status, x.answer.contentType, Relay.Hit, 0.0))
    && (hit.sent == [] || hit.sent == [Concat(x.answer.chunks)])
  }

  /**
   * Cache provenance, over every run.  Each hit repeats the status, content type and whole
   * body of an upstream exchange of the same run that had finished before the lookup,
   * completed untruncated with a 2xx status, and had the same key; the entry was put less
   * than the TTL before the lookup.
   */
  lemma HitsAreFaithfulCopies(cfg: Config, start: real, trace: seq<Event>, i: nat) returns (k: nat)
    requires i < |Run(cfg, start, trace).relay.sessions|
    requires Run(cfg, start, trace).relay.sessions[i].served.Some?
    ensures var s := Run(cfg, start, trace);
      var hit := s.relay.sessions[i];
      var v := hit.served.value;
      && k < v.finishedBefore <= |s.relay.finished|
      && CopiedFrom(s.relay.finished[k], hit)
      && Relay.IdentityOf(cfg.relay, hit.request, hit.body) == Some(v.identity)
      && v.asked < v.doc.createdAt + cfg.relay.ttl
  {
    ProvenanceHolds(cfg, start, trace);
    RelayStaysGood(cfg, start, trace);
    var s := Run(cfg, start, trace);
    var v := s.relay.sessions[i].served.value;
    assert ServedOrigin(cfg, s, v);
    assert RelayTheory.GoodSession(cfg.relay, s.relay.sessions[i]);
    k :| 0 <= k < v.finishedBefore && Origin(cfg, s.relay.finished[..v.finishedBefore][k], v.doc.key, v.doc.streamed,
                                            v.doc.statusCode, v.doc.contentType, v.doc.body);
    assert RelayTheory.GoodExchange(cfg.relay, s.relay.finished[k]);
  }

  /**
   * A counted put is in the collection: one document more, which holds what the capture holds and
   * expires one TTL after the instant the put sampled.
   */
  lemma PutIsStored(cfg: Config, s: State, w: nat, inserted: Option<real>) returns (d: Store.CacheDoc)
    requires Enabled(cfg, s, Telemetry(Pipeline.PutDone(w, true), inserted))
    ensures Step(cfg, s, Telemetry(Pipeline.PutDone(w, true), inserted)).docs == s.docs + {d}
    ensures Store.CopyOf(d, s.pipeline.workers[w].point.phase.todo[0])
    ensures inserted == Some(d.createdAt) && d.expiresAt == d.createdAt + cfg.relay.ttl && d.createdAt <= s.clock
  {
    d := Store.DocumentOf(s.pipeline.workers[w].point.phase.todo[0], inserted.value, cfg.relay.ttl);
  }

  /** What the key says of a request. */
  ghost predicate SameKeyed(cfg: Config, q: Relay.Request, body: Bytes, p: Relay.Request, other: Bytes) {
    var a, b := cfg.relay.parse(body), cfg.relay.parse(other);
    && Keys.Front(q.provider, q.verb, q.path) == Keys.Front(p.provider, p.verb, p.path)
    && a.Some? && b.Some? && a.value.Obj? && b.value.Obj?
    && Keys.SameButStream(a.value.fields, b.value.fields)
  }

  /**
   * A hit answers the same request, as far as the key tells: the exchange it copies had the same
   * text in front of the body, and the same value in every top-level field but `stream`.
   */
  lemma HitsShareFrontAndBody(cfg: Config, start: real, trace: seq<Event>, i: nat)
      returns (k: nat)
    requires forall b, j :: cfg.relay.parse(b) == Some(j) ==> Json.WellFormed(j)
    requires var r := Run(cfg, start, trace).relay; i < |r.sessions| && r.sessions[i].served.Some?
    ensures var r := Run(cfg, start, trace).relay;
      && k < |r.finished| && CopiedFrom(r.finished[k], r.sessions[i])
      && SameKeyed(cfg, r.sessions[i].request, r.sessions[i].body, r.finished[k].request, r.finished[k].body)
  {
    k := HitsAreFaithfulCopies(cfg, start, trace, i);
    RelayStaysGood(cfg, start, trace);
    var r := Run(cfg, start, trace).relay;
    var x, y := r.sessions[i], r.finished[k];
    assert RelayTheory.GoodSession(cfg.relay, x) && RelayTheory.GoodExchange(cfg.relay, y);
    var a, b := cfg.relay.parse(x.body), cfg.relay.parse(y.body);
    Keys.KeyIsFrontAndBody(x.request.provider, x.request.verb, x.request.path, a.value,
                           y.request.provider, y.request.verb, y.request.path, b.value);
  }

  /**
   * And when provider names are free of the separator (methods are, both being POST), it had the
   * same provider and the same path up to leading slashes.
   */
  lemma HitsAnswerTheSameRequest(cfg: Config, start: real, trace: seq<Event>, i: nat)
      returns (k: nat)
    requires forall b, j :: cfg.relay.parse(b) == Some(j) ==> Json.WellFormed(j)
    requires var r := Run(cfg, start, trace).relay;
      && i < |r.sessions| && r.sessions[i].served.Some?
      && Keys.SEPARATOR !in r.sessions[i].request.provider
      && forall n :: 0 <= n < |r.finished| ==> Keys.SEPARATOR !in r.finished[n].request.provider
    ensures var r := Run(cfg, start, trace).relay;
      && k < |r.finished| && CopiedFrom(r.finished[k], r.sessions[i])
      && var (q, p) := (r.sessions[i].request, r.finished[k].request);
      && q.provider == p.provider && Keys.StripSlashes(q.path) == Keys.StripSlashes(p.path)
      && SameKeyed(cfg, q, r.sessions[i].body, p, r.finished[k].body)
  {
    k := HitsShareFrontAndBody(cfg, start, trace, i);
    RelayStaysGood(cfg, start, trace);
    var r := Run(cfg, start, trace).relay;
    var x, y := r.sessions[i], r.finished[k];
    assert RelayTheory.GoodSession(cfg.relay, x) && RelayTheory.GoodExchange(cfg.relay, y);
    PostFronts(x.request, y.request);
  }

  lemma PostFronts(q: Relay.Request, p: Relay.Request)
    requires Keys.Upper(q.verb) == "POST" == Keys.Upper(p.verb)
    requires Keys.SEPARATOR !in q.provider && Keys.SEPARATOR !in p.provider
    requires Keys.Front(q.provider, q.verb, q.path) == Keys.Front(p.provider, p.verb, p.path)
    ensures q.provider == p.provider && Keys.StripSlashes(q.path) == Keys.StripSlashes(p.path)
  {
    Keys.FrontSplits(q.provider, q.verb, q.path, p.provider, p.verb, p.path);
  }

  /** The wire format a request asks for. */
  ghost predicate AsksForStream(cfg: Config, request: Relay.Request, body: Bytes) {
    Keys.WantsStream(cfg.relay.parse(body), request.path)
  }

  /**
   * Formats.  A hit is always in the format the headers of its original gave it away as, and that
   * is the one the hit's request asks for; the original's own request asked for the same one
   * exactly when it was answered as it asked.
   */
  lemma HitFormatExactly(cfg: Config, start: real, trace: seq<Event>, i: nat)
      returns (k: nat)
    requires i < |Run(cfg, start, trace).relay.sessions|
    requires Run(cfg, start, trace).relay.sessions[i].served.Some?
    ensures var r := Run(cfg, start, trace).relay;
      && k < |r.finished| && CopiedFrom(r.finished[k], r.sessions[i])
      && var (x, y) := (r.sessions[i], r.finished[k]);
      && (AsksForStream(cfg, x.request, x.body) <==> y.answer.Streamed())
      && ((AsksForStream(cfg, x.request, x.body) <==> AsksForStream(cfg, y.request, y.body))
          <==> (AsksForStream(cfg, y.request, y.body) <==> y.answer.Streamed()))
  {
    k := HitsAreFaithfulCopies(cfg, start, trace, i);
    RelayStaysGood(cfg, start, trace);
    var r := Run(cfg, start, trace).relay;
    assert RelayTheory.GoodSession(cfg.relay, r.sessions[i]) && RelayTheory.GoodExchange(cfg.relay, r.finished[k]);
  }

  /**
   * Exactly when the reaper has mattered to a lookup, whenever that lookup sampled its time.
   * In every reachable state it answers as if nothing had ever been deleted iff each deleted
   * document still alive at that time is superseded; a document lost this way had expired
   * after the lookup sampled its time and before the reaper's last visit.
   */
  lemma ReaperMattersExactly(cfg: Config, start: real, trace: seq<Event>, id: CacheIdentity, asked: real)
    ensures var s := Run(cfg, start, trace);
      && ((forall r :: Store.Finds(s.docs, id, asked, r) <==> Store.Finds(s.ever, id, asked, r))
          <==> Store.Superseded(s.ever, s.ever - s.docs, id, asked))
      && (forall d :: d in s.ever - s.docs && Store.Matches(d, id, asked) ==>
           asked < d.expiresAt <= s.reapedAt <= s.clock)
  {
    ProvenanceHolds(cfg, start, trace);
    var s := Run(cfg, start, trace);
    assert s.ever - (s.ever - s.docs) == s.docs;
    Store.ReapingMattersExactly(s.ever, s.ever - s.docs, id, asked);
  }

  /** So when the reaper runs never matters to a lookup issued after its last visit. */
  lemma ReaperNeverMatters(cfg: Config, start: real, trace: seq<Event>, id: CacheIdentity, asked: real,
                           result: Option<Store.CacheDoc>)
    requires Run(cfg, start, trace).reapedAt <= asked
    ensures var s := Run(cfg, start, trace);
      Store.Finds(s.docs, id, asked, result) <==> Store.Finds(s.ever, id, asked, result)
  {
    ReaperMattersExactly(cfg, start, trace, id, asked);
  }

  // ----- The pipeline inside the gateway ---------------------------------------------------------

  /** The pipeline events of a run: its own, and one submission per body generator that finished. */
  ghost function PipelineTrace(cfg: Config, start: real, trace: seq<Event>): seq<Pipeline.Event> {
    if trace == [] then []
    else
      var s, e := Run(cfg, start, trace[..|trace| - 1]), trace[|trace| - 1];
      PipelineTrace(cfg, start, trace[..|trace| - 1]) + PipelineEvents(cfg, s, e)
  }

  ghost function PipelineEvents(cfg: Config, s: State, e: Event): seq<Pipeline.Event> {
    match e
    case Data(r) =>
      var c := Relay.Submits(s.relay, s.docs, r);
      if c.Some? then [Pipeline.Submit(c.value)] else []
    case Telemetry(w, _) => if Enabled(cfg, s, e) then [w] else []
    case _ => []
  }

  lemma PipelineStepProjects(cfg: Config, s: State, e: Event)
    ensures var es := PipelineEvents(cfg, s, e);
      |es| <= 1 && Step(cfg, s, e).pipeline == if es == [] then s.pipeline
          else Pipeline.Step(cfg.pipeline, s.pipeline, es[0])
  {
  }

  lemma PipelineExtends(cfg: Pipeline.Config, trace: seq<Pipeline.Event>, es: seq<Pipeline.Event>)
    requires |es| <= 1
    ensures Pipeline.Run(cfg, trace + es)
         == if es == [] then Pipeline.Run(cfg, trace) else Pipeline.Step(cfg, Pipeline.Run(cfg, trace), es[0])
  {
    if es == [] {
      assert trace + es == trace;
    } else {
      assert (trace + es)[..|trace|] == trace;
    }
  }

  /** Every run of the gateway is, seen from telemetry, a run of the pipeline; so all its theorems hold here too. */
  lemma {:induction false} PipelineProjects(cfg: Config, start: real, trace: seq<Event>)
    ensures Run(cfg, start, trace).pipeline == Pipeline.Run(cfg.pipeline, PipelineTrace(cfg, start, trace))
  {
    if trace != [] {
      var before, e := trace[..|trace| - 1], trace[|trace| - 1];
      PipelineProjects(cfg, start, before);
      PipelineStepProjects(cfg, Run(cfg, start, before), e);
      PipelineExtends(cfg.pipeline, PipelineTrace(cfg, start, before), PipelineEvents(cfg, Run(cfg, start, before), e));
    }
  }

  /** How often telemetry was told about request i. */
  function Submissions(trace: seq<Pipeline.Event>, i: nat): nat {
    if trace == [] then 0
    else
      var e := trace[|trace| - 1];
      Submissions(trace[..|trace| - 1], i) + if e.Submit? && e.capture.requestId == i then 1 else 0
  }

  /** 1 once request i's response was handed off and has finished. */
  function Answered(r: Relay.State, i: nat): nat {
    if i < |r.sessions| && r.sessions[i].handedOff && r.sessions[i].stage.Closed? then 1 else 0
  }

  lemma ArrivalAnswersNobody(settings: Relay.Settings, now: real, r: Relay.State, request: Relay.Request, i: nat)
    ensures Answered(Relay.DoArrive(settings, now, r, request), i) == Answered(r, i)
  {
    var r' := Relay.DoArrive(settings, now, r, request);
    RelayTheory.ArrivalIsGood(settings, now, r, request);
    if i < |r.sessions| {
      assert r'.sessions[..|r.sessions|][i] == r.sessions[i];
    }
  }

  /** A session is open before any step of its own, and ends one handed off exactly by `End` or `Leave`. */
  lemma SessionAnswers(settings: Relay.Settings, now: real, docs: set<Store.CacheDoc>, r: Relay.State, e: Relay.Event)
    requires Relay.Enabled(r, docs, e) && !e.Arrive? && RelayTheory.GoodSession(settings, r.sessions[e.i])
    ensures var r' := Relay.Step(settings, now, docs, r, e);
      && |r'.sessions| == |r.sessions| && !r.sessions[e.i].stage.Closed?
      && (r'.sessions[e.i].handedOff && r'.sessions[e.i].stage.Closed? <==> e.End? || e.Leave?)
  {
  }

  lemma SubmissionsSnoc(trace: seq<Pipeline.Event>, es: seq<Pipeline.Event>, i: nat)
    requires |es| <= 1
    ensures Submissions(trace + es, i) == Submissions(trace, i) + Submissions(es, i)
  {
    if es == [] {
      assert trace + es == trace;
    } else {
      assert (trace + es)[..|trace|] == trace && es[..0] == [];
    }
  }

  lemma AnsweredUpdate(r: Relay.State, r': Relay.State, j: nat, i: nat)
    requires j < |r.sessions| == |r'.sessions| && r'.sessions == r.sessions[j := r'.sessions[j]]
    requires !r.sessions[j].stage.Closed?
    ensures Answered(r', i)
         == Answered(r, i) + if i == j && r'.sessions[j].handedOff && r'.sessions[j].stage.Closed? then 1 else 0
  {
  }

  lemma SubmissionsOfStep(cfg: Config, s: State, e: Relay.Event, i: nat)
    ensures Submissions(PipelineEvents(cfg, s, Data(e)), i)
         == if Relay.Enabled(s.relay, s.docs, e) && (e.End? || e.Leave?) && e.i == i then 1 else 0
  {
    var c := Relay.Submits(s.relay, s.docs, e);
    if c.Some? {
      SubmissionsSnoc([], [Pipeline.Submit(c.value)], i);
      assert [Pipeline.Submit(c.value)][..0] == [];
    }
  }

  /** A relay step finishes an answer exactly when it submits that request's capture. */
  lemma StepAnswers(cfg: Config, s: State, e: Relay.Event, i: nat)
    requires RelayTheory.GoodRelay(cfg.relay, s.relay)
    ensures Answered(Relay.Step(cfg.relay, s.clock, s.docs, s.relay, e), i)
         == Answered(s.relay, i) + Submissions(PipelineEvents(cfg, s, Data(e)), i)
  {
    SubmissionsOfStep(cfg, s, e, i);
    if e.Arrive? {
      ArrivalAnswersNobody(cfg.relay, s.clock, s.relay, e.request, i);
    } else if Relay.Enabled(s.relay, s.docs, e) {
      RelayTheory.StepTouchesOne(cfg.relay, s.clock, s.docs, s.relay, e);
      SessionAnswers(cfg.relay, s.clock, s.docs, s.relay, e);
      AnsweredUpdate(s.relay, Relay.Step(cfg.relay, s.clock, s.docs, s.relay, e), e.i, i);
    }
  }

  lemma NoOtherSubmissions(cfg: Config, s: State, e: Event, i: nat)
    requires !e.Data?
    ensures Submissions(PipelineEvents(cfg, s, e), i) == 0 && Step(cfg, s, e).relay == s.relay
  {
  }

  lemma StepTells(cfg: Config, s: State, e: Event, i: nat)
    requires RelayTheory.GoodRelay(cfg.relay, s.relay)
    ensures Answered(Step(cfg, s, e).relay, i) == Answered(s.relay, i) + Submissions(PipelineEvents(cfg, s, e), i)
  {
    if e.Data? {
      StepAnswers(cfg, s, e.e, i);
      DataStepsRelay(cfg, s, e.e);
    } else {
      NoOtherSubmissions(cfg, s, e, i);
    }
  }

  lemma DataStepsRelay(cfg: Config, s: State, e: Relay.Event)
    ensures Step(cfg, s, Data(e)).relay == Relay.Step(cfg.relay, s.clock, s.docs, s.relay, e)
  {
  }

  /**
   * Each request: telemetry is told once if its response was handed off and has finished, live or
   * replayed, else never.
   */
  lemma {:induction false} OneCapturePerAnswer(cfg: Config, start: real, trace: seq<Event>, i: nat)
    ensures Submissions(PipelineTrace(cfg, start, trace), i) == Answered(Run(cfg, start, trace).relay, i)
  {
    if trace != [] {
      var before, e := trace[..|trace| - 1], trace[|trace| - 1];
      OneCapturePerAnswer(cfg, start, before, i);
      RelayStaysGood(cfg, start, before);
      var s := Run(cfg, start, before);
      SubmissionsSnoc(PipelineTrace(cfg, start, before), PipelineEvents(cfg, s, e), i);
      StepTells(cfg, s, e, i);
    }
  }

  // ----- The limiter inside the gateway --------------------------------------------------------

  function ChecksOf(s: State, e: Event): seq<RateLimit.Arrival> {
    if e.Data? && e.e.Arrive? && e.e.request.authentic then [RateLimit.Arrival(e.e.request.clientKey, s.clock)] else []
  }

  /** The checks of a run: one per authentic request, at the time it arrived. */
  ghost function Checks(cfg: Config, start: real, trace: seq<Event>): seq<RateLimit.Arrival> {
    if trace == [] then []
    else Checks(cfg, start, trace[..|trace| - 1]) + ChecksOf(Run(cfg, start, trace[..|trace| - 1]), trace[|trace| - 1])
  }

  /** A relay step moves the limiter exactly when it is an authentic arrival. */
  lemma RelayStepChecks(settings: Relay.Settings, now: real, docs: set<Store.CacheDoc>, r: Relay.State, e: Relay.Event)
    requires settings.limits.Some?
    ensures Relay.Step(settings, now, docs, r, e).limiter ==
      if e.Arrive? && e.request.authentic
      then RateLimit.Step(settings.limits.value, r.limiter, RateLimit.Arrival(e.request.clientKey, now)).0
      else r.limiter
  {
  }

  lemma StepChecks(cfg: Config, s: State, e: Event)
    requires cfg.relay.limits.Some?
    ensures Step(cfg, s, e).clock >= s.clock
    ensures Step(cfg, s, e).relay.limiter ==
      if ChecksOf(s, e) == [] then s.relay.limiter
      else RateLimit.Step(cfg.relay.limits.value, s.relay.limiter, ChecksOf(s, e)[0]).0
  {
    if e.Data? {
      RelayStepChecks(cfg.relay, s.clock, s.docs, s.relay, e.e);
    }
  }

  lemma OneMoreCheck(limits: RateLimit.Limits, start: real, checks: seq<RateLimit.Arrival>, a: RateLimit.Arrival)
    requires RateLimit.Monotone(start, checks) && start <= a.now && RateLimit.Clock(start, checks) <= a.now
    ensures RateLimit.Monotone(start, checks + [a]) && RateLimit.Clock(start, checks + [a]) == a.now
    ensures RateLimit.After(limits, start, checks + [a])
        == RateLimit.Step(limits, RateLimit.After(limits, start, checks), a).0
  {
    assert (checks + [a])[..|checks|] == checks;
  }

  /** Every run of the gateway is, seen from the limiter, a run of the limiter under a clock that never goes back. */
  lemma {:induction false} LimiterProjects(cfg: Config, start: real, trace: seq<Event>)
    requires cfg.relay.limits.Some?
    ensures Run(cfg, start, trace).relay.limiter
        == RateLimit.After(cfg.relay.limits.value, start, Checks(cfg, start, trace))
    ensures RateLimit.Monotone(start, Checks(cfg, start, trace))
    ensures start <= Run(cfg, start, trace).clock
        && RateLimit.Clock(start, Checks(cfg, start, trace)) <= Run(cfg, start, trace).clock
  {
    if trace != [] {
      var before, e := trace[..|trace| - 1], trace[|trace| - 1];
      LimiterProjects(cfg, start, before);
      var s, checks := Run(cfg, start, before), Checks(cfg, start, before);
      StepChecks(cfg, s, e);
      if ChecksOf(s, e) == [] {
        assert checks + [] == checks;
      } else {
        OneMoreCheck(cfg.relay.limits.value, start, checks, ChecksOf(s, e)[0]);
        assert ChecksOf(s, e) == [ChecksOf(s, e)[0]];
      }
    }
  }

  /** What an authentic arrival is told follows the limiter's decision. */
  lemma ArrivalFollowsDecision(settings: Relay.Settings, now: real, r: Relay.State, request: Relay.Request)
    requires settings.limits.Some? && request.authentic
    ensures var r' := Relay.DoArrive(settings, now, r, request);
      var d := RateLimit.Step(settings.limits.value, r.limiter, RateLimit.Arrival(request.clientKey, now)).1;
      && |r'.sessions| == |r.sessions| + 1
      && (!d.allowed <==> r'.sessions[|r.sessions|].head == Some(Relay.Head(429, None, Relay.Off, d.retryAfter)))
  {
  }

  lemma DecisionIsFull(limits: RateLimit.Limits, start: real, checks: seq<RateLimit.Arrival>, a: RateLimit.Arrival)
    requires RateLimit.Monotone(start, checks) && start <= a.now && RateLimit.Clock(start, checks) <= a.now
    ensures RateLimit.Step(limits, RateLimit.After(limits, start, checks), a).1
         == RateLimit.FullDecision(limits, RateLimit.Admitted(limits, checks, a.key), a.now)
  {
    OneMoreCheck(limits, start, checks, a);
    RateLimit.LimiterRefinesFullHistory(limits, start, checks + [a], |checks|);
    assert (checks + [a])[..|checks|] == checks;
  }

  lemma ArrivalSteps(cfg: Config, s: State, request: Relay.Request)
    ensures Step(cfg, s, Data(Relay.Arrive(request))).relay == Relay.DoArrive(cfg.relay, s.clock, s.relay, request)
  {
  }

  /**
   * An authentic request is turned away with a 429 exactly when the full history of its key says so,
   * quoting its retry time.
   */
  lemma RateLimitedExactly(cfg: Config, start: real, trace: seq<Event>, request: Relay.Request)
    requires cfg.relay.limits.Some? && request.authentic
    ensures var s := Run(cfg, start, trace);
      var r' := Step(cfg, s, Data(Relay.Arrive(request))).relay;
      var h := RateLimit.Admitted(cfg.relay.limits.value, Checks(cfg, start, trace), request.clientKey);
      var d := RateLimit.FullDecision(cfg.relay.limits.value, h, s.clock);
      && |r'.sessions| == |s.relay.sessions| + 1
      && (!d.allowed <==> r'.sessions[|s.relay.sessions|].head == Some(Relay.Head(429, None, Relay.Off, d.retryAfter)))
  {
    var s, checks, limits := Run(cfg, start, trace), Checks(cfg, start, trace), cfg.relay.limits.value;
    LimiterProjects(cfg, start, trace);
    DecisionIsFull(limits, start, checks, RateLimit.Arrival(request.clientKey, s.clock));
    ArrivalFollowsDecision(cfg.relay, s.clock, s.relay, request);
    ArrivalSteps(cfg, s, request);
  }

  // ----- Non-interference ------------------------------------------------------------------------

  /** The relay by itself: no pipeline, no collection; a hit it is told of is taken as found. */
  datatype Alone = Alone(relay: Relay.State, clock: real)

  ghost function AloneRelay(settings: Relay.Settings, a: Alone, e: Relay.Event): Relay.State {
    if e.LookupHit? then if Relay.Enabled0(a.relay, e) then Relay.DoLookupHit(a.relay, e.i, e.doc) else a.relay
    else Relay.Step(settings, a.clock, {}, a.relay, e)
  }

  ghost function AloneStep(settings: Relay.Settings, a: Alone, e: Event): Alone {
    match e
    case Data(r) => a.(relay := AloneRelay(settings, a, r))
    case Advance(to) => if a.clock <= to then a.(clock := to) else a
    case _ => a
  }

  ghost function AloneRun(settings: Relay.Settings, start: real, trace: seq<Event>): Alone {
    if trace == [] then Alone(Relay.Initial(start), start)
    else AloneStep(settings, AloneRun(settings, start, trace[..|trace| - 1]), trace[|trace| - 1])
  }

  /** The data-plane part of a schedule. */
  function DataPlane(trace: seq<Event>): seq<Event> {
    if trace == [] then []
    else
      var e := trace[|trace| - 1];
      DataPlane(trace[..|trace| - 1]) + if e.Data? || e.Advance? then [e] else []
  }

  /** A hit the schedule delivers to a waiting lookup is one the collection may give at that moment. */
  ghost predicate Granted(s: State, e: Event) {
    e.Data? && e.e.LookupHit? && Relay.Enabled0(s.relay, e.e) ==> Relay.Enabled(s.relay, s.docs, e.e)
  }

  ghost predicate HitsGranted(cfg: Config, start: real, trace: seq<Event>) {
    trace != [] ==>
      HitsGranted(cfg, start, trace[..|trace| - 1])
          && Granted(Run(cfg, start, trace[..|trace| - 1]), trace[|trace| - 1])
  }

  /** The collection reaches the relay through hits only. */
  lemma DocsMatterToHitsOnly(settings: Relay.Settings, now: real, docs: set<Store.CacheDoc>, r: Relay.State,
                             e: Relay.Event)
    requires !e.LookupHit?
    ensures Relay.Step(settings, now, docs, r, e) == Relay.Step(settings, now, {}, r, e)
  {
  }

  lemma StepProjects(cfg: Config, s: State, e: Event)
    requires Granted(s, e)
    ensures var s' := Step(cfg, s, e);
      Alone(s'.relay, s'.clock) == AloneStep(cfg.relay, Alone(s.relay, s.clock), e)
  {
    if e.Data? && !e.e.LookupHit? {
      DocsMatterToHitsOnly(cfg.relay, s.clock, s.docs, s.relay, e.e);
    }
  }

  /** Projection: forgetting telemetry and the collection turns any run of the gateway into a run of the relay alone. */
  lemma {:induction false} RunProjects(cfg: Config, start: real, trace: seq<Event>)
    requires HitsGranted(cfg, start, trace)
    ensures var s := Run(cfg, start, trace);
      Alone(s.relay, s.clock) == AloneRun(cfg.relay, start, DataPlane(trace))
  {
    if trace != [] {
      var before, e := trace[..|trace| - 1], trace[|trace| - 1];
      RunProjects(cfg, start, before);
      StepProjects(cfg, Run(cfg, start, before), e);
      var p := DataPlane(before);
      assert p + [] == p && (p + [e])[..|p|] == p;
      assert DataPlane(trace) == if e.Data? || e.Advance? then p + [e] else p;
    }
  }

  /**
   * Telemetry decides which hits are delivered and nothing else.  Two runs with the same
   * data-plane schedule, each delivering only hits its own collection may give, give every
   * client the same status, bytes and rejection, whatever the pipelines, their sizes, their
   * workers, their sinks and the reaper did in between.
   */
  lemma TelemetryOnlyDecidesHits(cfg: Config, other: Pipeline.Config, start: real, one: seq<Event>,
                                                    two: seq<Event>)
    requires HitsGranted(cfg, start, one) && HitsGranted(cfg.(pipeline := other), start, two)
    requires DataPlane(one) == DataPlane(two)
    ensures Run(cfg, start, one).relay == Run(cfg.(pipeline := other), start, two).relay
  {
    RunProjects(cfg, start, one);
    RunProjects(cfg.(pipeline := other), start, two);
  }

  /** With the cache off no session ever waits for a lookup. */
  lemma {:induction false} NothingToGrant(cfg: Config, start: real, trace: seq<Event>)
    requires !cfg.relay.cacheOn
    ensures HitsGranted(cfg, start, trace)
  {
    if trace != [] {
      var before, e := trace[..|trace| - 1], trace[|trace| - 1];
      NothingToGrant(cfg, start, before);
      RelayStaysGood(cfg, start, before);
      if e.Data? && e.e.LookupHit? && e.e.i < |Run(cfg, start, before).relay.sessions| {
        assert RelayTheory.GoodSession(cfg.relay, Run(cfg, start, before).relay.sessions[e.e.i]);
      }
    }
  }

  /** Plane non-interference: with the cache off, equal data-plane schedules give equal relays, unconditionally. */
  lemma TelemetryCannotInterfere(cfg: Config, other: Pipeline.Config, start: real, one: seq<Event>,
                                                    two: seq<Event>)
    requires !cfg.relay.cacheOn && DataPlane(one) == DataPlane(two)
    ensures Run(cfg, start, one).relay == Run(cfg.(pipeline := other), start, two).relay
  {
    NothingToGrant(cfg, start, one);
    NothingToGrant(cfg.(pipeline := other), start, two);
    TelemetryOnlyDecidesHits(cfg, other, start, one, two);
  }
}
