// The relay (proxy/relay.py): one session per request, stepped between awaits.

module Relay {
  import opened Common
  import opened Capture
  import opened Stages
  import opened Json
  import Keys
  import Store
  import RateLimit

  datatype Settings = Settings(
    maxConcurrent: nat,
    maxRequestBytes: nat,
    maxCaptureBytes: nat,
    limits: Option<RateLimit.Limits>,      // None: the limiter is disabled
    cacheOn: bool,
    ttl: real,
    parse: Bytes -> Option<Json>)          // JSON decoding of a request body

  /** What the client sends: authentication outcome, limiter key, and the body as it arrives. */
  datatype Request = Request(
    provider: string,
    verb: string,
    path: string,
    authentic: bool,
    clientKey: string,
    optedIn: bool,
    declared: Option<nat>,
    chunks: seq<Bytes>)

  /** What the upstream answers; `breaks` says the stream fails after its last chunk. */
  datatype Answer = Answer(
    status: int,
    contentType: Option<string>,
    transferEncoding: Option<string>,
    chunks: seq<Bytes>,
    breaks: bool)
  {
    /** The wire format read off the headers: a streaming content type, or any chunked answer. */
    predicate Streamed() {
      StreamingType(HeaderText(contentType)) || HeaderText(transferEncoding) == "chunked"
    }
  }

  function HeaderText(header: Option<string>): string {
    if header.Some? then Keys.Lower(header.value) else ""
  }

  predicate StreamingType(contentType: string) {
    || Contains(contentType, "text/event-stream") || Contains(contentType, "x-ndjson")
    || Contains(contentType, "application/stream+json")
  }

  datatype CacheLabel = Off | Miss | Hit

  /** The status line and headers the client gets; `retryAfter` is set on a 429 only. */
  datatype Head = Head(status: int, contentType: Option<string>, cache: CacheLabel, retryAfter: real)

  datatype Stage =
    | Reading(next: nat)
    | Looking(query: CacheIdentity, asked: real)
    | Sending(identity: Option<CacheIdentity>)
    | Streaming(identity: Option<CacheIdentity>, answer: Answer, observed: nat)
    | Replaying(doc: Store.CacheDoc, yielded: bool)
    | Closed

  /**
   * A cache hit as it was served: the document, what was asked and when, and how many exchanges had
   * finished by then.
   */
  datatype Served = Served(identity: CacheIdentity, asked: real, doc: Store.CacheDoc, finishedBefore: nat)

  datatype Session = Session(
    request: Request,
    stage: Stage,
    body: Bytes,
    buffer: Buffer,
    head: Option<Head>,
    sent: seq<Bytes>,          // chunks the client received
    acquires: nat,             // permits taken and returned by this request
    releases: nat,
    handedOff: bool,           // a response exists, and its body generator owns the permit
    served: Option<Served>)

  /** A finished upstream exchange: how many of the answer's chunks were observed, and what the client received. */
  datatype Exchange = Exchange(
    request: Request,
    body: Bytes,
    identity: Option<CacheIdentity>,
    answer: Answer,
    observed: nat,
    sent: seq<Bytes>,
    completed: bool)

  datatype State = State(
    inflight: int,
    limiter: RateLimit.State,
    sessions: seq<Session>,
    finished: seq<Exchange>)

  datatype Event =
    | Arrive(request: Request)
    | ReadChunk(i: nat)
    | ReadEnd(i: nat)
    | Abort(i: nat)                        // the client goes away before a response exists
    | LookupHit(i: nat, doc: Store.CacheDoc)
    | LookupMiss(i: nat)                   // no match, or the lookup timed out or failed
    | Answered(i: nat, answer: Answer)
    | SendFailed(i: nat, timedOut: bool)
    | Chunk(i: nat)                        // an upstream chunk is observed and yielded
    | Delivered(i: nat)                    // the yielded chunk reached the client
    | End(i: nat)                          // the upstream stream ends, or breaks
    | Leave(i: nat)                        // the client disconnects mid-body

  function Initial(start: real): State {
    State(0, RateLimit.State(map[], start), [], [])
  }

  // ----- Permits ------------------------------------------------------------------------

  /** A session between acquire and release. */
  function Holds(x: Session): nat {
    if x.stage.Closed? then 0 else 1
  }

  /** `_acquire` succeeded for a new session. */
  function Acquire(r: State, x: Session): State {
    r.(inflight := r.inflight + 1, sessions := r.sessions + [x.(acquires := x.acquires + 1)])
  }

  /** `_release`, as the last act of a session. */
  function Release(r: State, i: nat, x: Session): State
    requires i < |r.sessions|
  {
    r.(inflight := r.inflight - 1, sessions := r.sessions[i := x.(stage := Closed, releases := x.releases + 1)])
  }

  /** The `finally` of `handle` when no response was handed off. */
  function Fail(r: State, i: nat, status: int): State
    requires i < |r.sessions|
  {
    Release(r, i, r.sessions[i].(head := Some(Head(status, None, Off, 0.0))))
  }

  // ----- Steps --------------------------------------------------------------------------

  function Fresh(request: Request): Session {
    Session(request, Reading(0), [], EMPTY_BUFFER, None, [], 0, 0, false, None)
  }

  function Reject(r: State, request: Request, status: int, retryAfter: real): State {
    r.(sessions := r.sessions + [Fresh(request).(stage := Closed, head := Some(Head(status, None, Off, retryAfter)))])
  }

  /** Authentication, then the rate limit, then the permit, then the declared length: no await in between. */
  function DoArrive(cfg: Settings, now: real, r: State, request: Request): State {
    if !request.authentic then Reject(r, request, 401, 0.0)
    else
      var (limiter, decision) :=
        if cfg.limits.None? then (r.limiter, RateLimit.Decision(true, 0.0))
        else RateLimit.Step(cfg.limits.value, r.limiter, RateLimit.Arrival(request.clientKey, now));
      var counted := r.(limiter := limiter);
      if !decision.allowed then Reject(counted, request, 429, decision.retryAfter)
      else if counted.inflight >= cfg.maxConcurrent then Reject(counted, request, 503, 0.0)
      else
        var acquired := Acquire(counted, Fresh(request));
        if request.declared.Some? && request.declared.value > cfg.maxRequestBytes
        then Fail(acquired, |r.sessions|, 413)
        else acquired
  }

  function DoReadChunk(cfg: Settings, r: State, i: nat): State
    requires Enabled0(r, ReadChunk(i))
  {
    var x := r.sessions[i];
    var chunk := x.request.chunks[x.stage.next];
    if |x.body| + |chunk| > cfg.maxRequestBytes then Fail(r, i, 413)
    else r.(sessions := r.sessions[i := x.(stage := Reading(x.stage.next + 1), body := x.body + chunk)])
  }

  ghost function IdentityOf(cfg: Settings, request: Request, body: Bytes): Option<CacheIdentity> {
    Keys.IdentityFor(cfg.cacheOn, request.optedIn, request.provider, request.verb, request.path,
                     if body == [] then None else cfg.parse(body))
  }

  ghost function DoReadEnd(cfg: Settings, now: real, r: State, i: nat): State
    requires Enabled0(r, ReadEnd(i))
  {
    var x := r.sessions[i];
    var identity := IdentityOf(cfg, x.request, x.body);
    r.(sessions := r.sessions[i := x.(stage := if identity.None? then Sending(None) else Looking(identity.value, now))])
  }

  function DoLookupHit(r: State, i: nat, doc: Store.CacheDoc): State
    requires Enabled0(r, LookupHit(i, doc))
  {
    var x := r.sessions[i];
    r.(sessions := r.sessions[i := x.(
        stage := Replaying(doc, false),
        head := Some(Head(doc.statusCode, doc.contentType, Hit, 0.0)),
        handedOff := true,
        served := Some(Served(x.stage.query, x.stage.asked, doc, |r.finished|)))])
  }

  function DoAnswered(r: State, i: nat, answer: Answer): State
    requires Enabled0(r, Answered(i, answer))
  {
    var x := r.sessions[i];
    var mark := if x.stage.identity.Some? then Miss else Off;
    r.(sessions := r.sessions[i := x.(
        stage := Streaming(x.stage.identity, answer, 0),
        handedOff := true,
        head := Some(Head(answer.status, answer.contentType, mark, 0.0)))])
  }

  /** The tee: the chunk is observed before it is yielded. */
  function DoChunk(cfg: Settings, r: State, i: nat): State
    requires Enabled0(r, Chunk(i))
  {
    var x := r.sessions[i];
    match x.stage
    case Streaming(identity, answer, observed) =>
      r.(sessions := r.sessions[i := x.(
          stage := Streaming(identity, answer, observed + 1),
          buffer := Observe(cfg.maxCaptureBytes, x.buffer, answer.chunks[observed]))])
    case Replaying(doc, _) =>
      r.(sessions := r.sessions[i := x.(
          stage := Replaying(doc, true),
          buffer := Observe(cfg.maxCaptureBytes, x.buffer, doc.body))])
  }

  function DoDelivered(r: State, i: nat): State
    requires Enabled0(r, Delivered(i))
  {
    var x := r.sessions[i];
    var chunk := if x.stage.Streaming? then x.stage.answer.chunks[x.stage.observed - 1] else x.stage.doc.body;
    r.(sessions := r.sessions[i := x.(sent := x.sent + [chunk])])
  }

  /** The status a body generator records in its `finally`. */
  function FinalStatus(answer: Answer, completed: bool, broke: bool): CaptureStatus {
    if broke then UpstreamError
    else if answer.status >= 400 then UpstreamError
    else if completed then OK
    else ClientDisconnect
  }

  /** The capture a session's generator finalizes. */
  function Finalize(i: nat, x: Session, ended: bool): RawCapture
    requires x.stage.Streaming? || x.stage.Replaying?
  {
    var q := x.request;
    match x.stage
    case Streaming(identity, answer, _) =>
      RawCapture(i, q.provider, q.verb, q.path, x.buffer.response, answer.contentType, Some(answer.status),
                 answer.Streamed(),
                 FinalStatus(answer, ended && !answer.breaks, ended && answer.breaks), x.buffer.truncated,
                 if identity.Some? then Some(identity.value.key) else None, identity.Some?, false)
    case Replaying(doc, _) =>
      RawCapture(i, q.provider, q.verb, q.path, x.buffer.response, doc.contentType, Some(doc.statusCode), doc.streamed,
                 OK, x.buffer.truncated, Some(doc.key), true, true)
  }

  /** The generator's `finally`: the capture is handed to telemetry, then the permit goes back. */
  function DoFinish(r: State, i: nat, ended: bool): State
    requires i < |r.sessions| && (r.sessions[i].stage.Streaming? || r.sessions[i].stage.Replaying?)
  {
    var x := r.sessions[i];
    var logged :=
      if x.stage.Streaming? then
        var exchange := Exchange(x.request, x.body, x.stage.identity, x.stage.answer, x.stage.observed, x.sent,
                                 ended && !x.stage.answer.breaks);
        r.(finished := r.finished + [exchange])
      else r;
    Release(logged, i, x)
  }

  // ----- Enabling -------------------------------------------------------------------------

  /** The chunk a generator has yielded but the client has not received yet. */
  predicate Pending(x: Session) {
    (x.stage.Streaming? && |x.sent| < x.stage.observed) || (x.stage.Replaying? && x.stage.yielded && x.sent == [])
  }

  /** What a step needs of the session alone. */
  predicate Enabled0(r: State, e: Event) {
    match e
    case Arrive(_) => true
    case ReadChunk(i) => i < |r.sessions| && r.sessions[i].stage.Reading?
        && r.sessions[i].stage.next < |r.sessions[i].request.chunks|
    case ReadEnd(i) => i < |r.sessions| && r.sessions[i].stage.Reading?
        && r.sessions[i].stage.next == |r.sessions[i].request.chunks|
    case Abort(i) => i < |r.sessions|
        && (r.sessions[i].stage.Reading? || r.sessions[i].stage.Looking? || r.sessions[i].stage.Sending?)
    case LookupHit(i, _) => i < |r.sessions| && r.sessions[i].stage.Looking?
    case LookupMiss(i) => i < |r.sessions| && r.sessions[i].stage.Looking?
    case Answered(i, _) => i < |r.sessions| && r.sessions[i].stage.Sending?
    case SendFailed(i, _) => i < |r.sessions| && r.sessions[i].stage.Sending?
    case Chunk(i) => i < |r.sessions| && !Pending(r.sessions[i]) && !Exhausted(r.sessions[i])
    case Delivered(i) => i < |r.sessions| && Pending(r.sessions[i])
        && (r.sessions[i].stage.Streaming? ==> 0 < r.sessions[i].stage.observed <= |r.sessions[i].stage.answer.chunks|)
    case End(i) =>
      i < |r.sessions| && !Pending(r.sessions[i]) && Exhausted(r.sessions[i])
      && (r.sessions[i].stage.Streaming? || r.sessions[i].stage.Replaying?)
    case Leave(i) => i < |r.sessions| && (r.sessions[i].stage.Streaming? || r.sessions[i].stage.Replaying?)
  }

  /** No chunk is left to yield. */
  predicate Exhausted(x: Session) {
    match x.stage
    case Streaming(_, answer, observed) => observed >= |answer.chunks|
    case Replaying(_, yielded) => yielded
    case _ => true
  }

  /** A hit must be something the collection may return for the query as it was asked. */
  predicate Enabled(r: State, docs: set<Store.CacheDoc>, e: Event) {
    Enabled0(r, e) &&
    (e.LookupHit? ==> Store.Finds(docs, r.sessions[e.i].stage.query, r.sessions[e.i].stage.asked, Some(e.doc)))
  }

  ghost function Step(cfg: Settings, now: real, docs: set<Store.CacheDoc>, r: State, e: Event): State {
    if !Enabled(r, docs, e) then r else
    match e
    case Arrive(request) => DoArrive(cfg, now, r, request)
    case ReadChunk(i) => DoReadChunk(cfg, r, i)
    case ReadEnd(i) => DoReadEnd(cfg, now, r, i)
    case Abort(i) => Release(r, i, r.sessions[i])
    case LookupHit(i, doc) => DoLookupHit(r, i, doc)
    case LookupMiss(i) =>
      r.(sessions := r.sessions[i := r.sessions[i].(stage := Sending(Some(r.sessions[i].stage.query)))])
    case Answered(i, answer) => DoAnswered(r, i, answer)
    case SendFailed(i, timedOut) => Fail(r, i, if timedOut then 504 else 502)
    case Chunk(i) => DoChunk(cfg, r, i)
    case Delivered(i) => DoDelivered(r, i)
    case End(i) => DoFinish(r, i, true)
    case Leave(i) => DoFinish(r, i, false)
  }

  /** What a step hands to telemetry, if anything. */
  ghost function Submits(r: State, docs: set<Store.CacheDoc>, e: Event): Option<RawCapture> {
    if Enabled(r, docs, e) && (e.End? || e.Leave?) then Some(Finalize(e.i, r.sessions[e.i], e.End?)) else None
  }
}
