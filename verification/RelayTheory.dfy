// What every step of the relay keeps: the permit protocol, bounded memory, and the tee.

module RelayTheory {
  import opened Common
  import opened Capture
  import opened Stages
  import opened Relay
  import Keys
  import RateLimit
  import Store

  // ----- One session ---------------------------------------------------------------------

  /**
   * The tee at any moment: the client has a prefix of the upstream chunks, telemetry has seen that
   * prefix or one chunk more.
   */
  predicate TeeHolds(chunks: seq<Bytes>, observed: nat, sent: seq<Bytes>) {
    && |sent| <= observed <= |sent| + 1
    && observed <= |chunks|
    && sent == chunks[..|sent|]
  }

  ghost predicate GoodStage(cfg: Settings, x: Session) {
    match x.stage
    case Reading(next) =>
      next <= |x.request.chunks| && x.body == Concat(x.request.chunks[..next]) && x.sent == []
          && x.buffer == EMPTY_BUFFER
    case Looking(query, asked) =>
      x.body == Concat(x.request.chunks) && Some(query) == IdentityOf(cfg, x.request, x.body) && x.sent == []
          && x.buffer == EMPTY_BUFFER
    case Sending(identity) =>
      x.body == Concat(x.request.chunks) && identity == IdentityOf(cfg, x.request, x.body) && x.sent == []
          && x.buffer == EMPTY_BUFFER
    case Streaming(identity, answer, observed) =>
      && x.body == Concat(x.request.chunks) && identity == IdentityOf(cfg, x.request, x.body)
      && TeeHolds(answer.chunks, observed, x.sent)
      && x.buffer == ObserveAll(cfg.maxCaptureBytes, answer.chunks[..observed])
      && x.head == Some(Head(answer.status, answer.contentType, if identity.Some? then Miss else Off, 0.0))
    case Replaying(doc, yielded) =>
      && x.served.Some? && x.served.value.doc == doc
      && (x.sent == [] || (yielded && x.sent == [doc.body]))
      && x.buffer == ObserveAll(cfg.maxCaptureBytes, if yielded then [doc.body] else [])
    case Closed => true
  }

  /** Permits: none, one outstanding, or one taken and returned. */
  predicate GoodPermit(x: Session) {
    if x.stage.Closed? then x.acquires == x.releases <= 1 else x.acquires == 1 && x.releases == 0
  }

  /** A response exists exactly from the hand-off on. */
  predicate GoodHandOff(x: Session) {
    x.stage.Closed? || (x.handedOff <==> x.stage.Streaming? || x.stage.Replaying?)
  }

  predicate GoodService(x: Session) {
    x.served.Some? ==>
      && (x.stage.Replaying? || x.stage.Closed?)
      && x.head == Some(Head(x.served.value.doc.statusCode, x.served.value.doc.contentType, Hit, 0.0))
      && (x.sent == [] || x.sent == [x.served.value.doc.body])
      && Store.Matches(x.served.value.doc, x.served.value.identity, x.served.value.asked)
  }

  ghost predicate GoodServedIdentity(cfg: Settings, x: Session) {
    x.served.Some? ==> IdentityOf(cfg, x.request, x.body) == Some(x.served.value.identity)
  }

  ghost predicate GoodSession(cfg: Settings, x: Session) {
    && GoodPermit(x) && GoodHandOff(x) && GoodStage(cfg, x) && GoodService(x) && GoodServedIdentity(cfg, x)
    && |x.body| <= cfg.maxRequestBytes
    && |x.buffer.response| <= cfg.maxCaptureBytes
  }

  lemma BufferWithinCap(cap: nat, chunks: seq<Bytes>)
    ensures |ObserveAll(cap, chunks).response| <= cap
  {
    BufferIsPrefix(cap, chunks);
  }

  lemma ObserveNext(cap: nat, chunks: seq<Bytes>, n: nat)
    requires n < |chunks|
    ensures ObserveAll(cap, chunks[..n + 1]) == Observe(cap, ObserveAll(cap, chunks[..n]), chunks[n])
  {
    assert chunks[..n + 1][..n] == chunks[..n];
  }

  lemma ChunkKeepsSession(cfg: Settings, r: State, i: nat)
    requires Enabled0(r, Chunk(i)) && GoodSession(cfg, r.sessions[i])
    ensures GoodSession(cfg, DoChunk(cfg, r, i).sessions[i])
  {
    var x := r.sessions[i];
    if x.stage.Streaming? {
      ObserveNext(cfg.maxCaptureBytes, x.stage.answer.chunks, x.stage.observed);
      BufferWithinCap(cfg.maxCaptureBytes, x.stage.answer.chunks[..x.stage.observed + 1]);
    } else {
      assert [x.stage.doc.body][..0] == [];
      ObserveNext(cfg.maxCaptureBytes, [x.stage.doc.body], 0);
      assert [x.stage.doc.body][..1] == [x.stage.doc.body];
      BufferWithinCap(cfg.maxCaptureBytes, [x.stage.doc.body]);
    }
  }

  lemma ReadKeepsSession(cfg: Settings, r: State, i: nat)
    requires Enabled0(r, ReadChunk(i)) && GoodSession(cfg, r.sessions[i])
    ensures GoodSession(cfg, DoReadChunk(cfg, r, i).sessions[i])
  {
    var x := r.sessions[i];
    assert x.request.chunks[..x.stage.next + 1][..x.stage.next] == x.request.chunks[..x.stage.next];
  }

  /** The steps that hand a response off, or wait for one. */
  lemma HandOffKeepsSession(cfg: Settings, now: real, docs: set<Store.CacheDoc>, r: State, e: Event)
    requires e.ReadEnd? || e.LookupHit? || e.LookupMiss? || e.Answered?
    requires Enabled(r, docs, e) && GoodSession(cfg, r.sessions[e.i])
    ensures GoodSession(cfg, Step(cfg, now, docs, r, e).sessions[e.i])
  {
    var x := r.sessions[e.i];
    assert x.request.chunks[..|x.request.chunks|] == x.request.chunks;
    if e.Answered? {
      assert e.answer.chunks[..0] == [];
    }
  }

  /** The steps that end a session, and delivery. */
  lemma EndKeepsSession(cfg: Settings, now: real, docs: set<Store.CacheDoc>, r: State, e: Event)
    requires e.Abort? || e.SendFailed? || e.Delivered? || e.End? || e.Leave?
    requires Enabled(r, docs, e) && GoodSession(cfg, r.sessions[e.i])
    ensures GoodSession(cfg, Step(cfg, now, docs, r, e).sessions[e.i])
  {
  }

  lemma StepTouchesOne(cfg: Settings, now: real, docs: set<Store.CacheDoc>, r: State, e: Event)
    requires Enabled(r, docs, e) && !e.Arrive?
    ensures var r' := Step(cfg, now, docs, r, e);
      |r'.sessions| == |r.sessions| && r'.sessions == r.sessions[e.i := r'.sessions[e.i]]
  {
  }

  lemma SessionStepKeeps(cfg: Settings, now: real, docs: set<Store.CacheDoc>, r: State, e: Event)
    requires Enabled(r, docs, e) && !e.Arrive? && GoodSession(cfg, r.sessions[e.i])
    ensures var r' := Step(cfg, now, docs, r, e);
      r'.sessions == r.sessions[e.i := r'.sessions[e.i]] && GoodSession(cfg, r'.sessions[e.i])
  {
    StepTouchesOne(cfg, now, docs, r, e);
    match e {
      case ReadChunk(i) => ReadKeepsSession(cfg, r, i);
      case Chunk(i) => ChunkKeepsSession(cfg, r, i);
      case ReadEnd(_) => HandOffKeepsSession(cfg, now, docs, r, e);
      case LookupHit(_, _) => HandOffKeepsSession(cfg, now, docs, r, e);
      case LookupMiss(_) => HandOffKeepsSession(cfg, now, docs, r, e);
      case Answered(_, _) => HandOffKeepsSession(cfg, now, docs, r, e);
      case _ => EndKeepsSession(cfg, now, docs, r, e);
    }
  }

  // ----- The relay as a whole -----------------------------------------------------------------

  ghost predicate GoodExchange(cfg: Settings, x: Exchange) {
    && TeeHolds(x.answer.chunks, x.observed, x.sent)
    && (x.completed ==> x.observed == |x.answer.chunks| && x.sent == x.answer.chunks && !x.answer.breaks)
    && x.identity == IdentityOf(cfg, x.request, x.body)
    && x.body == Concat(x.request.chunks)
  }

  ghost predicate GoodRelay(cfg: Settings, r: State) {
    && r.inflight == Sum(Holds, r.sessions) <= cfg.maxConcurrent
    && (forall i :: 0 <= i < |r.sessions| ==> GoodSession(cfg, r.sessions[i]))
    && (forall i :: 0 <= i < |r.sessions| && r.sessions[i].served.Some?
          ==> r.sessions[i].served.value.finishedBefore <= |r.finished|)
    && (forall k :: 0 <= k < |r.finished| ==> GoodExchange(cfg, r.finished[k]))
  }

  lemma SumAppend<T>(f: T -> nat, xs: seq<T>, x: T)
    ensures Sum(f, xs + [x]) == Sum(f, xs) + f(x)
  {
    assert (xs + [x])[..|xs|] == xs;
  }

  /** What arrival appends: a rejected session, or one that holds the permit just taken. */
  lemma ArrivalIsGood(cfg: Settings, now: real, r: State, request: Request)
    ensures var r' := DoArrive(cfg, now, r, request);
      && |r'.sessions| == |r.sessions| + 1 && r'.sessions[..|r.sessions|] == r.sessions && r'.finished == r.finished
      && GoodSession(cfg, r'.sessions[|r.sessions|]) && r'.sessions[|r.sessions|].served.None?
      && r'.inflight == r.inflight + Holds(r'.sessions[|r.sessions|])
      && (r'.inflight > r.inflight ==> r.inflight < cfg.maxConcurrent)
  {
    assert request.chunks[..0] == [];
  }

  /**
   * Arrival, spelled out: 401, then the limiter's 429, then 503 at capacity, then 413 for a declared
   * length; a permit is taken exactly by a request that gets past all four, and the limiter is
   * asked exactly about authentic requests.
   */
  lemma ArrivalExactly(cfg: Settings, now: real, docs: set<Store.CacheDoc>, r: State, request: Request)
    ensures var r' := Step(cfg, now, docs, r, Arrive(request));
      && r'.sessions[..|r.sessions|] == r.sessions && |r'.sessions| == |r.sessions| + 1
      && r'.finished == r.finished
      && var x := r'.sessions[|r.sessions|];
      && x.request == request
      && var asked := request.authentic && cfg.limits.Some?;
      && r'.limiter == (if asked then RateLimit.Step(cfg.limits.value, r.limiter,
                                                     RateLimit.Arrival(request.clientKey, now)).0 else r.limiter)
      && var denied := asked && !RateLimit.Step(cfg.limits.value, r.limiter,
                                                RateLimit.Arrival(request.clientKey, now)).1.allowed;
      && var admitted := request.authentic && !denied;
      && var tooLarge := request.declared.Some? && request.declared.value > cfg.maxRequestBytes;
      && (HasStatus(x, 401) <==> !request.authentic)
      && (HasStatus(x, 429) <==> denied)
      && (HasStatus(x, 503) <==> admitted && r.inflight >= cfg.maxConcurrent)
      && (HasStatus(x, 413) <==> admitted && r.inflight < cfg.maxConcurrent && tooLarge)
      && (x.stage == Reading(0) <==> admitted && r.inflight < cfg.maxConcurrent && !tooLarge)
      && (x.stage == Reading(0) ==> x.head == None)
      && r'.inflight == r.inflight + if x.stage == Reading(0) then 1 else 0
  {
  }

  /** The request was answered with this status. */
  predicate HasStatus(x: Session, status: int) {
    x.stage.Closed? && x.head.Some? && x.head.value.status == status
  }

  /** Exactly which requests are looked up; an empty body is not parsed. */
  lemma LookedUpExactly(cfg: Settings, request: Request, body: Bytes)
    ensures IdentityOf(cfg, request, body).Some? <==>
      && cfg.cacheOn && request.optedIn && Keys.Upper(request.verb) == "POST"
      && body != [] && cfg.parse(body).Some? && cfg.parse(body).value.Obj?
    ensures IdentityOf(cfg, request, body).Some? ==>
      var id := IdentityOf(cfg, request, body).value;
      && Some(id.key) == Keys.CanonicalKey(request.provider, request.verb, request.path, cfg.parse(body))
      && (id.streamed <==> Keys.WantsStream(cfg.parse(body), request.path))
  {
  }

  /** By position in the lower-cased headers. */
  lemma StreamedExactly(answer: Answer)
    ensures answer.Streamed() <==>
      || (answer.transferEncoding.Some? && Keys.Lower(answer.transferEncoding.value) == "chunked")
      || (answer.contentType.Some? && exists at: nat ::
            || StandsAt(Keys.Lower(answer.contentType.value), "text/event-stream", at)
            || StandsAt(Keys.Lower(answer.contentType.value), "x-ndjson", at)
            || StandsAt(Keys.Lower(answer.contentType.value), "application/stream+json", at))
  {
    var kind := HeaderText(answer.contentType);
    ContainsExactly(kind, "text/event-stream");
    ContainsExactly(kind, "x-ndjson");
    ContainsExactly(kind, "application/stream+json");
  }

  lemma ArriveKeepsRelay(cfg: Settings, now: real, r: State, request: Request)
    requires GoodRelay(cfg, r)
    ensures GoodRelay(cfg, DoArrive(cfg, now, r, request))
  {
    var r' := DoArrive(cfg, now, r, request);
    ArrivalIsGood(cfg, now, r, request);
    assert r'.sessions == r.sessions + [r'.sessions[|r.sessions|]];
    SumAppend(Holds, r.sessions, r'.sessions[|r.sessions|]);
  }

  /** Exchanges are only ever appended, and only well-formed ones. */
  lemma StepLogsExchanges(cfg: Settings, now: real, docs: set<Store.CacheDoc>, r: State, e: Event)
    requires Enabled(r, docs, e) && (e.Arrive? || GoodSession(cfg, r.sessions[e.i]))
    ensures var r' := Step(cfg, now, docs, r, e);
      && r.finished <= r'.finished
      && forall k :: |r.finished| <= k < |r'.finished| ==> GoodExchange(cfg, r'.finished[k])
  {
    if e.End? && r.sessions[e.i].stage.Streaming? {
      assert r.sessions[e.i].sent == r.sessions[e.i].stage.answer.chunks;
    }
  }

  /** Serving records how many exchanges had finished; nothing else touches that record. */
  lemma StepKeepsServedOrder(cfg: Settings, now: real, docs: set<Store.CacheDoc>, r: State, e: Event)
    requires Enabled(r, docs, e) && !e.Arrive?
    requires r.sessions[e.i].served.Some? ==> r.sessions[e.i].served.value.finishedBefore <= |r.finished|
    ensures var x := Step(cfg, now, docs, r, e).sessions[e.i];
      x.served.Some? ==> x.served.value.finishedBefore <= |r.finished|
  {
  }

  lemma StepCountsPermits(cfg: Settings, now: real, docs: set<Store.CacheDoc>, r: State, e: Event)
    requires Enabled(r, docs, e) && !e.Arrive?
    ensures var r' := Step(cfg, now, docs, r, e);
      |r'.sessions| == |r.sessions|
      && r'.inflight - Holds(r'.sessions[e.i]) == r.inflight - Holds(r.sessions[e.i])
      && r'.inflight <= r.inflight
  {
  }

  lemma StepKeepsRelay(cfg: Settings, now: real, docs: set<Store.CacheDoc>, r: State, e: Event)
    requires GoodRelay(cfg, r)
    ensures GoodRelay(cfg, Step(cfg, now, docs, r, e))
  {
    if Enabled(r, docs, e) {
      if e.Arrive? {
        ArriveKeepsRelay(cfg, now, r, e.request);
      } else {
        var r' := Step(cfg, now, docs, r, e);
        SessionStepKeeps(cfg, now, docs, r, e);
        StepLogsExchanges(cfg, now, docs, r, e);
        StepKeepsServedOrder(cfg, now, docs, r, e);
        StepCountsPermits(cfg, now, docs, r, e);
        SumUpdate(Holds, r.sessions, e.i, r'.sessions[e.i]);
        SessionsStayGood(cfg, r, r', e.i);
      }
    }
  }

  lemma SessionsStayGood(cfg: Settings, r: State, r': State, i: nat)
    requires GoodRelay(cfg, r) && i < |r.sessions| == |r'.sessions| && r'.sessions == r.sessions[i := r'.sessions[i]]
    requires GoodSession(cfg, r'.sessions[i]) && r.finished <= r'.finished
    requires r'.sessions[i].served.Some? ==> r'.sessions[i].served.value.finishedBefore <= |r.finished|
    requires r'.inflight == Sum(Holds, r'.sessions) && r'.inflight <= r.inflight
    requires forall k :: |r.finished| <= k < |r'.finished| ==> GoodExchange(cfg, r'.finished[k])
    ensures GoodRelay(cfg, r')
  {
    forall k | 0 <= k < |r'.finished| ensures GoodExchange(cfg, r'.finished[k]) {
      if k < |r.finished| {
        assert r'.finished[k] == r.finished[k];
      }
    }
  }

  /** Bytes a session keeps alive: the buffered request body and the capture buffer. */
  function Retained(x: Session): nat {
    if x.stage.Closed? then 0 else |x.body| + |x.buffer.response|
  }

  lemma TimesMonotone(a: nat, b: nat, unit: nat)
    requires a <= b
    ensures a * unit <= b * unit
  {
  }

  lemma TimesDistributes(a: nat, b: nat, unit: nat)
    ensures (a + b) * unit == a * unit + b * unit
  {
  }

  lemma {:induction false} RetainedByHolders(unit: nat, xs: seq<Session>)
    requires forall i :: 0 <= i < |xs| ==> Retained(xs[i]) <= unit
    ensures Sum(Retained, xs) <= Sum(Holds, xs) * unit
  {
    if xs != [] {
      var n := |xs| - 1;
      RetainedByHolders(unit, xs[..n]);
      TimesDistributes(Sum(Holds, xs[..n]), Holds(xs[n]), unit);
      assert Retained(xs[n]) <= Holds(xs[n]) * unit;
    }
  }

  /** Worst-case data-plane memory. */
  lemma MemoryIsBounded(cfg: Settings, r: State)
    requires GoodRelay(cfg, r)
    ensures Sum(Retained, r.sessions) <= cfg.maxConcurrent * (cfg.maxRequestBytes + cfg.maxCaptureBytes)
  {
    forall i | 0 <= i < |r.sessions| ensures Retained(r.sessions[i]) <= cfg.maxRequestBytes + cfg.maxCaptureBytes {
      assert GoodSession(cfg, r.sessions[i]);
    }
    RetainedByHolders(cfg.maxRequestBytes + cfg.maxCaptureBytes, r.sessions);
    TimesMonotone(Sum(Holds, r.sessions), cfg.maxConcurrent, cfg.maxRequestBytes + cfg.maxCaptureBytes);
  }

  // ----- What telemetry is told --------------------------------------------------------------

  /**
   * Exactly which answers qualify for the cache: those of an opted-in, cacheable request that
   * streamed to their end with a 2xx status, hold at least one byte, fit the capture cap, and
   * sent no chunk, not even an empty one, once the cap was reached.  A replay never does.
   */
  lemma CacheableExactly(cfg: Settings, docs: set<Store.CacheDoc>, r: State, e: Event)
    requires GoodRelay(cfg, r) && Submits(r, docs, e).Some?
    ensures var x := r.sessions[e.i];
      CacheableIdentity(Submits(r, docs, e).value).Some? <==>
        && x.stage.Streaming? && IdentityOf(cfg, x.request, x.body).Some?
        && e.End? && !x.stage.answer.breaks && 200 <= x.stage.answer.status < 300
        && 0 < |Concat(x.stage.answer.chunks)| <= cfg.maxCaptureBytes
        && !MeetsFullBuffer(cfg.maxCaptureBytes, x.stage.answer.chunks)
    ensures var x, id := r.sessions[e.i], CacheableIdentity(Submits(r, docs, e).value);
      var own := IdentityOf(cfg, x.request, x.body);
      id.Some? ==> own.Some? && id == Some(CacheIdentity(own.value.key, x.stage.answer.Streamed()))
  {
    var x := r.sessions[e.i];
    assert GoodSession(cfg, x);
    if x.stage.Streaming? {
      BufferIsPrefix(cfg.maxCaptureBytes, x.stage.answer.chunks);
      if e.End? {
        assert x.stage.answer.chunks[..x.stage.observed] == x.stage.answer.chunks;
      }
    }
  }

  /**
   * The capture of a finished exchange is the first bytes of what was observed, and says how it
   * ended: an upstream error is an error status or a stream that broke, a disconnect is a client
   * that left anything else early, and the rest is OK.
   */
  lemma CaptureIsFaithful(cfg: Settings, docs: set<Store.CacheDoc>, r: State, e: Event)
    requires GoodRelay(cfg, r) && Submits(r, docs, e).Some? && r.sessions[e.i].stage.Streaming?
    ensures var c, x := Submits(r, docs, e).value, r.sessions[e.i];
      var answer := x.stage.answer;
      && c.responseBody == Concat(answer.chunks[..x.stage.observed])
                           [..Min(|Concat(answer.chunks[..x.stage.observed])|, cfg.maxCaptureBytes)]
      && (c.status == UpstreamError <==> answer.status >= 400 || (e.End? && answer.breaks))
      && (c.status == ClientDisconnect <==> answer.status < 400 && e.Leave?)
      && (c.status == OK <==> answer.status < 400 && e.End? && !answer.breaks)
      && c.httpStatus == Some(answer.status) && c.contentType == answer.contentType
      && c.streamed == answer.Streamed() && !c.servedFromCache
      && (c.cacheRequested <==> x.stage.identity.Some?)
      && (c.cacheRequested ==> c.cacheKey == Some(x.stage.identity.value.key))
      && (c.status == OK && !c.truncated ==> c.responseBody == Concat(answer.chunks))
      && (c.status == OK ==> x.sent == answer.chunks)
  {
    var x := r.sessions[e.i];
    assert GoodSession(cfg, x);
    var seen := x.stage.answer.chunks[..x.stage.observed];
    BufferIsPrefix(cfg.maxCaptureBytes, seen);
    if !ObserveAll(cfg.maxCaptureBytes, seen).truncated {
      UntruncatedIsWhole(cfg.maxCaptureBytes, seen);
    }
    if e.End? {
      assert seen == x.stage.answer.chunks;
    }
  }
}
