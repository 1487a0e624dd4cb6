// One request, start to finish: what `handle` and the body generators do with what they await,
// and that this is exactly what the relay's steps do when the same things happen in turn.

module RelayScript {
  import opened Common
  import opened Capture
  import opened Stages
  import opened Relay
  import RateLimit
  import Store

  // ----- What a request awaits, and what becomes of it -------------------------------------

  /** What `_send` gives back. */
  datatype Sent = Response(answer: Answer) | TimedOut | Unreachable

  /** Where the client goes away before a response exists; `InBody(n)` is the wait after n chunks. */
  datatype Cancel = Never | InBody(n: nat) | InLookup | InSend

  /** Where the client leaves the body: at the yield of chunk n, or in the wait after n chunks. */
  datatype Leaving = Stays | AtYield(n: nat) | Awaiting(n: nat)

  datatype BodyRead = Whole(body: Bytes) | TooLarge | Disconnected

  /** What `handle` gives back: an error, nobody to answer, or a response whose generator now owns the permit. */
  datatype Reply = Raised(status: int) | Aborted | Replay(doc: Store.CacheDoc) | Live(answer: Answer, cache: CacheLabel)

  function BodyOf(limit: nat, request: Request, cancel: Cancel): BodyRead {
    if request.declared.Some? && request.declared.value > limit then TooLarge
    else if cancel.InBody? && cancel.n <= |request.chunks| && |Concat(request.chunks[..cancel.n])| <= limit
        then Disconnected
    else if |Concat(request.chunks)| > limit then TooLarge
    else Whole(Concat(request.chunks))
  }

  /** The reply of a request that took a permit. */
  function ReplyTo(limit: nat, request: Request, identity: Option<CacheIdentity>, hit: Option<Store.CacheDoc>,
                   sent: Sent, cancel: Cancel): Reply {
    match BodyOf(limit, request, cancel)
    case TooLarge => Raised(413)
    case Disconnected => Aborted
    case Whole(_) =>
      if identity.Some? && cancel.InLookup? then Aborted
      else if identity.Some? && hit.Some? then Replay(hit.value)
      else if cancel.InSend? then Aborted
      else match sent
        case TimedOut => Raised(504)
        case Unreachable => Raised(502)
        case Response(answer) => Live(answer, if identity.Some? then Miss else Off)
  }

  /** How much of an answer was observed and delivered, and whether its stream was read to the end. */
  datatype Streamed = Streamed(observed: nat, delivered: nat, ended: bool)

  function StreamedUntil(answer: Answer, leaving: Leaving): (s: Streamed)
    ensures s.delivered <= s.observed <= |answer.chunks| && s.observed <= s.delivered + 1
  {
    match leaving
    case AtYield(n) =>
      if n < |answer.chunks| then Streamed(n + 1, n, false) else Streamed(|answer.chunks|, |answer.chunks|, true)
    case Awaiting(n) =>
      if n <= |answer.chunks| then Streamed(n, n, false) else Streamed(|answer.chunks|, |answer.chunks|, true)
    case Stays => Streamed(|answer.chunks|, |answer.chunks|, true)
  }

  // ----- Scripts of the relay ------------------------------------------------------------------

  ghost function Play(cfg: Settings, now: real, docs: set<Store.CacheDoc>, r: State, es: seq<Event>): State
    decreases |es|
  {
    if es == [] then r else Play(cfg, now, docs, Step(cfg, now, docs, r, es[0]), es[1..])
  }

  lemma {:induction false} PlaySplits(cfg: Settings, now: real, docs: set<Store.CacheDoc>, r: State, a: seq<Event>,
                                      b: seq<Event>)
    ensures Play(cfg, now, docs, r, a + b) == Play(cfg, now, docs, Play(cfg, now, docs, r, a), b)
    decreases |a|
  {
    if a == [] {
      assert a + b == b;
    } else {
      assert (a + b)[1..] == a[1..] + b;
      PlaySplits(cfg, now, docs, Step(cfg, now, docs, r, a[0]), a[1..], b);
    }
  }

  lemma PlayOne(cfg: Settings, now: real, docs: set<Store.CacheDoc>, r: State, e: Event)
    ensures Play(cfg, now, docs, r, [e]) == Step(cfg, now, docs, r, e)
  {
    assert [e][1..] == [];
  }

  /** A closed session ignores everything. */
  lemma {:induction false} ClosedIgnores(cfg: Settings, now: real, docs: set<Store.CacheDoc>, r: State, i: nat,
                                         es: seq<Event>)
    requires i < |r.sessions| && r.sessions[i].stage.Closed?
    requires forall e :: e in es ==> !e.Arrive? && e.i == i
    ensures Play(cfg, now, docs, r, es) == r
    decreases |es|
  {
    if es != [] {
      assert es[0] in es && !Enabled0(r, es[0]);
      ClosedIgnores(cfg, now, docs, r, i, es[1..]);
    }
  }

  // ----- The live body --------------------------------------------------------------------------

  function Pairs(i: nat, n: nat): seq<Event> {
    if n == 0 then [] else Pairs(i, n - 1) + [Chunk(i), Delivered(i)]
  }

  /** The steps of a body that is left as told. */
  function StreamScript(i: nat, answer: Answer, leaving: Leaving): seq<Event> {
    var s := StreamedUntil(answer, leaving);
    Pairs(i, s.delivered) + (if s.observed > s.delivered then [Chunk(i)] else [])
        + [if s.ended then End(i) else Leave(i)]
  }

  /** A session that has streamed this much. */
  function After(cfg: Settings, x: Session, observed: nat, delivered: nat): Session
    requires x.stage.Streaming? && delivered <= observed <= |x.stage.answer.chunks|
  {
    var chunks := x.stage.answer.chunks;
    x.(stage := Streaming(x.stage.identity, x.stage.answer, observed),
       buffer := ObserveAll(cfg.maxCaptureBytes, chunks[..observed]),
       sent := chunks[..delivered])
  }

  function With(r: State, i: nat, x: Session): State
    requires i < |r.sessions|
  {
    r.(sessions := r.sessions[i := x])
  }

  lemma ChunkSteps(cfg: Settings, now: real, docs: set<Store.CacheDoc>, r: State, i: nat, x: Session, n: nat)
    requires i < |r.sessions| && x.stage.Streaming? && n < |x.stage.answer.chunks|
    requires r.sessions[i] == After(cfg, x, n, n)
    ensures Step(cfg, now, docs, r, Chunk(i)) == With(r, i, After(cfg, x, n + 1, n))
  {
    var chunks := x.stage.answer.chunks;
    assert chunks[..n + 1][..n] == chunks[..n];
    assert ObserveAll(cfg.maxCaptureBytes, chunks[..n + 1])
        == Observe(cfg.maxCaptureBytes, ObserveAll(cfg.maxCaptureBytes, chunks[..n]), chunks[n]);
  }

  lemma DeliverySteps(cfg: Settings, now: real, docs: set<Store.CacheDoc>, r: State, i: nat, x: Session, n: nat)
    requires i < |r.sessions| && x.stage.Streaming? && n < |x.stage.answer.chunks|
    requires r.sessions[i] == After(cfg, x, n + 1, n)
    ensures Step(cfg, now, docs, r, Delivered(i)) == With(r, i, After(cfg, x, n + 1, n + 1))
  {
    var chunks := x.stage.answer.chunks;
    assert chunks[..n] + [chunks[n]] == chunks[..n + 1];
  }

  lemma {:induction false} PairsRun(cfg: Settings, now: real, docs: set<Store.CacheDoc>, r: State, i: nat, x: Session,
                                    n: nat)
    requires i < |r.sessions| && x.stage.Streaming? && n <= |x.stage.answer.chunks|
    requires r.sessions[i] == After(cfg, x, 0, 0)
    ensures Play(cfg, now, docs, r, Pairs(i, n)) == With(r, i, After(cfg, x, n, n))
  {
    if n == 0 {
      assert r.sessions[i := r.sessions[i]] == r.sessions;
    } else {
      PairsRun(cfg, now, docs, r, i, x, n - 1);
      var q := With(r, i, After(cfg, x, n - 1, n - 1));
      PlaySplits(cfg, now, docs, r, Pairs(i, n - 1), [Chunk(i), Delivered(i)]);
      ChunkSteps(cfg, now, docs, q, i, x, n - 1);
      var q' := With(q, i, After(cfg, x, n, n - 1));
      DeliverySteps(cfg, now, docs, q', i, x, n - 1);
      assert [Chunk(i), Delivered(i)][1..] == [Delivered(i)];
      PlayOne(cfg, now, docs, q', Delivered(i));
      assert With(With(q, i, After(cfg, x, n, n - 1)), i, After(cfg, x, n, n)) == With(r, i, After(cfg, x, n, n));
    }
  }

  /** Everything up to the last step of the script. */
  lemma StreamRuns(cfg: Settings, now: real, docs: set<Store.CacheDoc>, r: State, i: nat, leaving: Leaving)
    requires i < |r.sessions| && r.sessions[i].stage.Streaming?
    requires r.sessions[i] == After(cfg, r.sessions[i], 0, 0)
    ensures var script := StreamScript(i, r.sessions[i].stage.answer, leaving);
      var s := StreamedUntil(r.sessions[i].stage.answer, leaving);
      Play(cfg, now, docs, r, script[..|script| - 1]) == With(r, i, After(cfg, r.sessions[i], s.observed, s.delivered))
  {
    var x := r.sessions[i];
    var s := StreamedUntil(x.stage.answer, leaving);
    var script := StreamScript(i, x.stage.answer, leaving);
    var pairs := Pairs(i, s.delivered);
    PairsRun(cfg, now, docs, r, i, x, s.delivered);
    var q := With(r, i, After(cfg, x, s.delivered, s.delivered));
    if s.observed > s.delivered {
      assert script[..|script| - 1] == pairs + [Chunk(i)];
      PlaySplits(cfg, now, docs, r, pairs, [Chunk(i)]);
      PlayOne(cfg, now, docs, q, Chunk(i));
      ChunkSteps(cfg, now, docs, q, i, x, s.delivered);
      assert With(q, i, After(cfg, x, s.observed, s.delivered)) == With(r, i, After(cfg, x, s.observed, s.delivered));
    } else {
      assert script[..|script| - 1] == pairs;
    }
  }

  /** The last step: the exchange is logged, the capture submitted, the permit returned. */
  lemma StreamEnds(cfg: Settings, now: real, docs: set<Store.CacheDoc>, q: State, i: nat, x: Session, leaving: Leaving)
    requires i < |q.sessions| && x.stage.Streaming?
    requires var s := StreamedUntil(x.stage.answer, leaving); q.sessions[i] == After(cfg, x, s.observed, s.delivered)
    ensures var answer, s := x.stage.answer, StreamedUntil(x.stage.answer, leaving);
      var last := if s.ended then End(i) else Leave(i);
      var q' := Step(cfg, now, docs, q, last);
      && q'.inflight == q.inflight - 1 && |q'.sessions| == |q.sessions| && q'.sessions[i].stage.Closed?
      && q'.sessions[i].sent == answer.chunks[..s.delivered]
      && q'.finished == q.finished + [Exchange(x.request, x.body, x.stage.identity, answer, s.observed,
                                               answer.chunks[..s.delivered], s.ended && !answer.breaks)]
      && Submits(q, docs, last).Some?
      && var seen := ObserveAll(cfg.maxCaptureBytes, answer.chunks[..s.observed]);
      && var key := if x.stage.identity.Some? then Some(x.stage.identity.value.key) else None;
      && Submits(q, docs, last).value == RawCapture(
           i, x.request.provider, x.request.verb, x.request.path, seen.response, answer.contentType,
           Some(answer.status), answer.Streamed(), Submits(q, docs, last).value.status, seen.truncated,
           key, x.stage.identity.Some?, false)
      && var status := Submits(q, docs, last).value.status;
      && (status == UpstreamError <==> answer.status >= 400 || (s.ended && answer.breaks))
      && (status == ClientDisconnect <==> answer.status < 400 && !s.ended)
      && (status == OK <==> answer.status < 400 && s.ended && !answer.breaks)
  {
  }

  /** The steps of a replay: the stored body in one chunk, which the client may not stay for. */
  function ReplayScript(i: nat, leaves: bool): seq<Event> {
    [Chunk(i)] + if leaves then [Leave(i)] else [Delivered(i), End(i)]
  }

  /** A replaying session whose stored body has been observed, and perhaps delivered. */
  function Replayed(cfg: Settings, x: Session, doc: Store.CacheDoc, delivered: bool): Session {
    x.(stage := Replaying(doc, true), buffer := ObserveAll(cfg.maxCaptureBytes, [doc.body]),
       sent := if delivered then [doc.body] else [])
  }

  lemma ReplayChunk(cfg: Settings, now: real, docs: set<Store.CacheDoc>, r: State, i: nat, doc: Store.CacheDoc)
    requires i < |r.sessions| && r.sessions[i].stage == Replaying(doc, false)
    requires r.sessions[i].sent == [] && r.sessions[i].buffer == EMPTY_BUFFER
    ensures Step(cfg, now, docs, r, Chunk(i)) == With(r, i, Replayed(cfg, r.sessions[i], doc, false))
  {
    assert [doc.body][..0] == [];
    assert ObserveAll(cfg.maxCaptureBytes, [doc.body]) == Observe(cfg.maxCaptureBytes, EMPTY_BUFFER, doc.body);
  }

  lemma ReplayDelivery(cfg: Settings, now: real, docs: set<Store.CacheDoc>, r: State, i: nat, x: Session,
                       doc: Store.CacheDoc)
    requires i < |r.sessions| && r.sessions[i] == Replayed(cfg, x, doc, false)
    ensures Step(cfg, now, docs, r, Delivered(i)) == With(r, i, Replayed(cfg, x, doc, true))
  {
    assert [] + [doc.body] == [doc.body];
  }

  /** Everything up to the last step of a replay. */
  lemma ReplayRuns(cfg: Settings, now: real, docs: set<Store.CacheDoc>, r: State, i: nat, doc: Store.CacheDoc,
                   leaves: bool)
    requires i < |r.sessions| && r.sessions[i].stage == Replaying(doc, false)
    requires r.sessions[i].sent == [] && r.sessions[i].buffer == EMPTY_BUFFER
    ensures var script := ReplayScript(i, leaves);
      Play(cfg, now, docs, r, script[..|script| - 1]) == With(r, i, Replayed(cfg, r.sessions[i], doc, !leaves))
  {
    var script := ReplayScript(i, leaves);
    var x := r.sessions[i];
    ReplayChunk(cfg, now, docs, r, i, doc);
    PlayOne(cfg, now, docs, r, Chunk(i));
    if leaves {
      assert script[..|script| - 1] == [Chunk(i)];
    } else {
      var q := With(r, i, Replayed(cfg, x, doc, false));
      assert script[..|script| - 1] == [Chunk(i)] + [Delivered(i)];
      PlaySplits(cfg, now, docs, r, [Chunk(i)], [Delivered(i)]);
      ReplayDelivery(cfg, now, docs, q, i, x, doc);
      PlayOne(cfg, now, docs, q, Delivered(i));
      WithTwice(r, i, Replayed(cfg, x, doc, false), Replayed(cfg, x, doc, true));
    }
  }

  lemma WithTwice(r: State, i: nat, x: Session, y: Session)
    requires i < |r.sessions|
    ensures With(With(r, i, x), i, y) == With(r, i, y)
  {
  }

  /** The last step of a replay: its capture is submitted as OK even when the client left. */
  lemma ReplayEnds(cfg: Settings, now: real, docs: set<Store.CacheDoc>, q: State, i: nat, x: Session,
                   doc: Store.CacheDoc, leaves: bool)
    requires i < |q.sessions| && q.sessions[i] == Replayed(cfg, x, doc, !leaves)
    ensures var last := if leaves then Leave(i) else End(i);
      var q' := Step(cfg, now, docs, q, last);
      && q'.inflight == q.inflight - 1 && i < |q'.sessions| && q'.sessions[i].stage.Closed?
      && q'.sessions[i].sent == (if leaves then [] else [doc.body])
      && q'.finished == q.finished
      && Submits(q, docs, last).Some?
      && var seen := ObserveAll(cfg.maxCaptureBytes, [doc.body]);
      && Submits(q, docs, last).value == RawCapture(
           i, x.request.provider, x.request.verb, x.request.path, seen.response, doc.contentType,
           Some(doc.statusCode), doc.streamed, OK, seen.truncated, Some(doc.key), true, true)
  {
  }

  // ----- From arrival to hand-off --------------------------------------------------------------------

  function Reads(i: nat, n: nat): seq<Event> {
    if n == 0 then [] else [ReadChunk(i)] + Reads(i, n - 1)
  }

  lemma {:induction false} ReadsAreReads(i: nat, n: nat)
    ensures forall e :: e in Reads(i, n) ==> !e.Arrive? && e.i == i
  {
    if n > 0 {
      ReadsAreReads(i, n - 1);
    }
  }

  /** The wait for the cache, if there is one. */
  function Look(i: nat, identity: Option<CacheIdentity>, hit: Option<Store.CacheDoc>, cancel: Cancel): seq<Event> {
    if identity.None? then []
    else if cancel.InLookup? then [Abort(i)]
    else if hit.Some? then [LookupHit(i, hit.value)]
    else [LookupMiss(i)]
  }

  /** The wait for the upstream. */
  function Send(i: nat, sent: Sent, cancel: Cancel): Event {
    if cancel.InSend? then Abort(i)
    else match sent
      case Response(answer) => Answered(i, answer)
      case TimedOut => SendFailed(i, true)
      case Unreachable => SendFailed(i, false)
  }

  /** What happens once the body is read. */
  function Later(i: nat, identity: Option<CacheIdentity>, hit: Option<Store.CacheDoc>, sent: Sent,
                 cancel: Cancel): seq<Event> {
    [ReadEnd(i)] + Look(i, identity, hit, cancel) + [Send(i, sent, cancel)]
  }

  /** How much of the body is read before the client goes away. */
  function BodyChunks(request: Request, cancel: Cancel): (n: nat)
    ensures n <= |request.chunks|
  {
    if cancel.InBody? && cancel.n <= |request.chunks| then cancel.n else |request.chunks|
  }

  /** What follows the body. */
  function Tail(i: nat, request: Request, identity: Option<CacheIdentity>, hit: Option<Store.CacheDoc>, sent: Sent,
                cancel: Cancel): seq<Event> {
    if cancel.InBody? && cancel.n <= |request.chunks| then [Abort(i)] else Later(i, identity, hit, sent, cancel)
  }

  /** The steps of one request, session i, up to its reply; what comes after a reply is ignored. */
  function HandleScript(i: nat, request: Request, identity: Option<CacheIdentity>, hit: Option<Store.CacheDoc>,
                        sent: Sent, cancel: Cancel): seq<Event> {
    [Arrive(request)] + (Reads(i, BodyChunks(request, cancel)) + Tail(i, request, identity, hit, sent, cancel))
  }

  function ReadingAt(request: Request, n: nat): Session
    requires n <= |request.chunks|
  {
    Fresh(request).(stage := Reading(n), body := Concat(request.chunks[..n]), acquires := 1)
  }

  function TooLargeSession(x: Session): Session {
    x.(stage := Closed, releases := x.releases + 1, head := Some(Head(413, None, Off, 0.0)))
  }

  lemma ConcatUpTo(chunks: seq<Bytes>, n: nat)
    requires n < |chunks|
    ensures Concat(chunks[..n + 1]) == Concat(chunks[..n]) + chunks[n]
    ensures |Concat(chunks[..n + 1])| <= |Concat(chunks)|
  {
    assert chunks[..n + 1][..n] == chunks[..n];
    assert chunks == chunks[..n + 1] + chunks[n + 1..];
    ConcatSplits(chunks[..n + 1], chunks[n + 1..]);
  }

  lemma ReadSteps(cfg: Settings, now: real, docs: set<Store.CacheDoc>, r: State, i: nat, request: Request, n: nat)
    requires n < |request.chunks| && i < |r.sessions| && r.sessions[i] == ReadingAt(request, n)
    ensures Step(cfg, now, docs, r, ReadChunk(i)) ==
      if |Concat(request.chunks[..n + 1])| > cfg.maxRequestBytes
      then With(r, i, TooLargeSession(ReadingAt(request, n))).(inflight := r.inflight - 1)
      else With(r, i, ReadingAt(request, n + 1))
  {
    ConcatUpTo(request.chunks, n);
  }

  lemma ConcatShorter(chunks: seq<Bytes>, n: nat, m: nat)
    requires n <= m <= |chunks|
    ensures |Concat(chunks[..n])| <= |Concat(chunks[..m])|
  {
    assert chunks[..m] == chunks[..n] + chunks[n..m];
    ConcatSplits(chunks[..n], chunks[n..m]);
  }

  /** Session i was closed with a 413, and so many permits are out. */
  predicate TurnedAway(permits: int, r': State, i: nat) {
    && i < |r'.sessions| && r'.inflight == permits
    && r'.sessions[i].stage.Closed? && r'.sessions[i].head == Some(Head(413, None, Off, 0.0))
  }

  lemma ReadTooFar(cfg: Settings, now: real, docs: set<Store.CacheDoc>, r: State, i: nat, request: Request, n: nat,
                   m: nat)
    requires n < |request.chunks| && i < |r.sessions| && r.sessions[i] == ReadingAt(request, n)
    requires |Concat(request.chunks[..n + 1])| > cfg.maxRequestBytes
    ensures TurnedAway(r.inflight - 1, Play(cfg, now, docs, Step(cfg, now, docs, r, ReadChunk(i)), Reads(i, m)), i)
  {
    ReadSteps(cfg, now, docs, r, i, request, n);
    ReadsAreReads(i, m);
    ClosedIgnores(cfg, now, docs, Step(cfg, now, docs, r, ReadChunk(i)), i, Reads(i, m));
  }

  /** The body so far fits and is held, or the request was turned away. */
  predicate BodySoFar(limit: nat, permits: int, r': State, i: nat, request: Request, n: nat)
    requires n <= |request.chunks|
  {
    if |Concat(request.chunks[..n])| <= limit
    then i < |r'.sessions| && r'.sessions[i] == ReadingAt(request, n) && r'.inflight == permits
    else TurnedAway(permits - 1, r', i)
  }

  lemma ReadFits(cfg: Settings, now: real, docs: set<Store.CacheDoc>, r: State, i: nat, request: Request, n: nat)
    requires n < |request.chunks| && |Concat(request.chunks[..n + 1])| <= cfg.maxRequestBytes
    requires |Concat(request.chunks[..n])| <= cfg.maxRequestBytes
    requires BodySoFar(cfg.maxRequestBytes, r.inflight, r, i, request, n)
    ensures var q := Step(cfg, now, docs, r, ReadChunk(i));
      q.inflight == r.inflight && BodySoFar(cfg.maxRequestBytes, r.inflight, q, i, request, n + 1)
  {
    ReadSteps(cfg, now, docs, r, i, request, n);
  }

  lemma {:induction false} ReadsRun(cfg: Settings, now: real, docs: set<Store.CacheDoc>, r: State, i: nat,
                                    request: Request, n: nat, m: nat)
    requires n + m <= |request.chunks| && |Concat(request.chunks[..n])| <= cfg.maxRequestBytes
    requires BodySoFar(cfg.maxRequestBytes, r.inflight, r, i, request, n)
    ensures BodySoFar(cfg.maxRequestBytes, r.inflight, Play(cfg, now, docs, r, Reads(i, m)), i, request, n + m)
    decreases m
  {
    if m > 0 {
      assert Reads(i, m)[0] == ReadChunk(i) && Reads(i, m)[1..] == Reads(i, m - 1);
      ConcatShorter(request.chunks, n + 1, n + m);
      if |Concat(request.chunks[..n + 1])| > cfg.maxRequestBytes {
        ReadTooFar(cfg, now, docs, r, i, request, n, m - 1);
      } else {
        ReadFits(cfg, now, docs, r, i, request, n);
        ReadsRun(cfg, now, docs, Step(cfg, now, docs, r, ReadChunk(i)), i, request, n + 1, m - 1);
      }
    }
  }

  /** The relay is where the reply says: a permit is out exactly for a response. */
  predicate Reflects(permits: int, r': State, i: nat, request: Request, identity: Option<CacheIdentity>, reply: Reply) {
    && i < |r'.sessions|
    && r'.inflight == permits + (if reply.Replay? || reply.Live? then 1 else 0)
    && var x := r'.sessions[i];
    match reply
    case Raised(status) => x.stage.Closed? && x.head == Some(Head(status, None, Off, 0.0))
    case Aborted => x.stage.Closed? && x.head == None
    case Replay(doc) =>
      && x.stage == Replaying(doc, false) && x.head == Some(Head(doc.statusCode, doc.contentType, Hit, 0.0))
      && x.sent == [] && x.buffer == EMPTY_BUFFER
    case Live(answer, cache) =>
      && x.stage == Streaming(identity, answer, 0) && x.body == Concat(request.chunks)
      && x.head == Some(Head(answer.status, answer.contentType, cache, 0.0))
      && x.sent == [] && x.buffer == EMPTY_BUFFER
  }

  function ReadWhole(request: Request, stage: Stage): Session {
    ReadingAt(request, |request.chunks|).(stage := stage)
  }

  lemma ReadEndSteps(cfg: Settings, now: real, docs: set<Store.CacheDoc>, r: State, i: nat, request: Request,
                     identity: Option<CacheIdentity>)
    requires i < |r.sessions| && r.sessions[i] == ReadingAt(request, |request.chunks|)
    requires identity == IdentityOf(cfg, request, Concat(request.chunks))
    ensures Step(cfg, now, docs, r, ReadEnd(i))
         == With(r, i, ReadWhole(request, if identity.None? then Sending(None) else Looking(identity.value, now)))
  {
    assert request.chunks[..|request.chunks|] == request.chunks;
  }

  /** Where the wait for the cache leaves the session. */
  lemma LookRuns(cfg: Settings, now: real, docs: set<Store.CacheDoc>, r: State, i: nat, request: Request,
                 identity: Option<CacheIdentity>, hit: Option<Store.CacheDoc>, cancel: Cancel)
    requires i < |r.sessions|
    requires r.sessions[i] == ReadWhole(request, if identity.None? then Sending(None) else Looking(identity.value, now))
    requires identity.Some? && hit.Some? ==> Store.Finds(docs, identity.value, now, hit)
    ensures var r' := Play(cfg, now, docs, r, Look(i, identity, hit, cancel));
      if identity.Some? && cancel.InLookup? then Reflects(r.inflight - 1, r', i, request, identity, Aborted)
      else if identity.Some? && hit.Some?
      then Reflects(r.inflight - 1, r', i, request, identity, Replay(hit.value))
      else r' == With(r, i, ReadWhole(request, Sending(identity)))
  {
    var look := Look(i, identity, hit, cancel);
    if identity.None? {
      assert r.sessions[i := r.sessions[i]] == r.sessions;
    } else {
      PlayOne(cfg, now, docs, r, look[0]);
      assert look == [look[0]];
    }
  }

  /** An aborted or replaying session ignores the upstream. */
  lemma SendIgnored(cfg: Settings, now: real, docs: set<Store.CacheDoc>, r: State, i: nat, sent: Sent, cancel: Cancel)
    requires i < |r.sessions| && (r.sessions[i].stage.Closed? || r.sessions[i].stage.Replaying?)
    ensures Step(cfg, now, docs, r, Send(i, sent, cancel)) == r
  {
  }

  lemma SendSteps(cfg: Settings, now: real, docs: set<Store.CacheDoc>, r: State, i: nat, request: Request,
                  identity: Option<CacheIdentity>, sent: Sent, cancel: Cancel)
    requires i < |r.sessions| && r.sessions[i] == ReadWhole(request, Sending(identity))
    ensures Reflects(r.inflight - 1, Step(cfg, now, docs, r, Send(i, sent, cancel)), i, request, identity,
                     if cancel.InSend? then Aborted
                     else match sent
                       case TimedOut => Raised(504)
                       case Unreachable => Raised(502)
                       case Response(answer) => Live(answer, if identity.Some? then Miss else Off))
  {
    assert request.chunks[..|request.chunks|] == request.chunks;
  }

  /** From a body read whole to the reply. */
  lemma LaterRuns(cfg: Settings, now: real, docs: set<Store.CacheDoc>, r: State, i: nat, request: Request,
                  identity: Option<CacheIdentity>, hit: Option<Store.CacheDoc>, sent: Sent, cancel: Cancel)
    requires i < |r.sessions| && r.sessions[i] == ReadingAt(request, |request.chunks|)
    requires BodyOf(cfg.maxRequestBytes, request, cancel).Whole?
    requires identity == IdentityOf(cfg, request, Concat(request.chunks))
    requires identity.Some? && hit.Some? ==> Store.Finds(docs, identity.value, now, hit)
    ensures Reflects(r.inflight - 1, Play(cfg, now, docs, r, Later(i, identity, hit, sent, cancel)), i, request,
                     identity, ReplyTo(cfg.maxRequestBytes, request, identity, hit, sent, cancel))
  {
    var look, send := Look(i, identity, hit, cancel), Send(i, sent, cancel);
    PlaySplits(cfg, now, docs, r, [ReadEnd(i)] + look, [send]);
    PlaySplits(cfg, now, docs, r, [ReadEnd(i)], look);
    PlayOne(cfg, now, docs, r, ReadEnd(i));
    ReadEndSteps(cfg, now, docs, r, i, request, identity);
    var q := Step(cfg, now, docs, r, ReadEnd(i));
    LookRuns(cfg, now, docs, q, i, request, identity, hit, cancel);
    var q' := Play(cfg, now, docs, q, look);
    PlayOne(cfg, now, docs, q', send);
    if identity.Some? && (cancel.InLookup? || hit.Some?) {
      SendIgnored(cfg, now, docs, q', i, sent, cancel);
    } else {
      SendSteps(cfg, now, docs, q', i, request, identity, sent, cancel);
    }
  }

  /** What arrival leaves of a request that gets a permit. */
  lemma ArriveSteps(cfg: Settings, now: real, docs: set<Store.CacheDoc>, r: State, request: Request)
    requires request.authentic && r.inflight < cfg.maxConcurrent
    requires cfg.limits.Some? ==>
      RateLimit.Step(cfg.limits.value, r.limiter, RateLimit.Arrival(request.clientKey, now)).1.allowed
    ensures var q := Step(cfg, now, docs, r, Arrive(request));
      && |q.sessions| == |r.sessions| + 1
      && if request.declared.Some? && request.declared.value > cfg.maxRequestBytes
         then TurnedAway(r.inflight, q, |r.sessions|)
         else q.sessions[|r.sessions|] == ReadingAt(request, 0) && q.inflight == r.inflight + 1
  {
    assert request.chunks[..0] == [];
  }

  /** Reading the body, as far as the client stays. */
  lemma BodyRuns(cfg: Settings, now: real, docs: set<Store.CacheDoc>, q: State, i: nat, request: Request,
                 cancel: Cancel)
    requires i < |q.sessions| && q.sessions[i] == ReadingAt(request, 0)
    requires request.declared.Some? ==> request.declared.value <= cfg.maxRequestBytes
    ensures var n := BodyChunks(request, cancel);
      var q' := Play(cfg, now, docs, q, Reads(i, n));
      && i < |q'.sessions|
      && match BodyOf(cfg.maxRequestBytes, request, cancel)
         case Whole(_) =>
           && !(cancel.InBody? && cancel.n <= |request.chunks|)
           && n == |request.chunks| && q'.sessions[i] == ReadingAt(request, n) && q'.inflight == q.inflight
         case Disconnected =>
           cancel.InBody? && cancel.n <= |request.chunks| && q'.sessions[i] == ReadingAt(request, n)
               && q'.inflight == q.inflight
         case TooLarge => TurnedAway(q.inflight - 1, q', i)
  {
    var n := BodyChunks(request, cancel);
    assert request.chunks[..0] == [] && request.chunks[..|request.chunks|] == request.chunks;
    ReadsRun(cfg, now, docs, q, i, request, 0, n);
    ConcatShorter(request.chunks, n, |request.chunks|);
  }

  lemma TailIsItsOwn(i: nat, request: Request, identity: Option<CacheIdentity>, hit: Option<Store.CacheDoc>,
                     sent: Sent, cancel: Cancel)
    ensures forall e :: e in Tail(i, request, identity, hit, sent, cancel) ==> !e.Arrive? && e.i == i
  {
  }

  /** A disconnect while the body was awaited. */
  lemma AbortSteps(cfg: Settings, now: real, docs: set<Store.CacheDoc>, q: State, i: nat, request: Request,
                   identity: Option<CacheIdentity>, n: nat)
    requires n <= |request.chunks| && i < |q.sessions| && q.sessions[i] == ReadingAt(request, n)
    ensures Reflects(q.inflight - 1, Play(cfg, now, docs, q, [Abort(i)]), i, request, identity, Aborted)
  {
    PlayOne(cfg, now, docs, q, Abort(i));
  }

  /** Everything after arrival. */
  lemma RestRuns(cfg: Settings, now: real, docs: set<Store.CacheDoc>, q: State, i: nat, request: Request,
                 identity: Option<CacheIdentity>, hit: Option<Store.CacheDoc>, sent: Sent, cancel: Cancel)
    requires i < |q.sessions| && q.sessions[i] == ReadingAt(request, 0)
    requires request.declared.Some? ==> request.declared.value <= cfg.maxRequestBytes
    requires identity == IdentityOf(cfg, request, Concat(request.chunks))
    requires identity.Some? && hit.Some? ==> Store.Finds(docs, identity.value, now, hit)
    ensures var script := Reads(i, BodyChunks(request, cancel)) + Tail(i, request, identity, hit, sent, cancel);
      Reflects(q.inflight - 1, Play(cfg, now, docs, q, script), i, request, identity,
               ReplyTo(cfg.maxRequestBytes, request, identity, hit, sent, cancel))
  {
    var n, tail := BodyChunks(request, cancel), Tail(i, request, identity, hit, sent, cancel);
    PlaySplits(cfg, now, docs, q, Reads(i, n), tail);
    BodyRuns(cfg, now, docs, q, i, request, cancel);
    var q' := Play(cfg, now, docs, q, Reads(i, n));
    match BodyOf(cfg.maxRequestBytes, request, cancel) {
      case Whole(_) =>
        LaterRuns(cfg, now, docs, q', i, request, identity, hit, sent, cancel);
      case Disconnected =>
        AbortSteps(cfg, now, docs, q', i, request, identity, n);
      case TooLarge =>
        TailIsItsOwn(i, request, identity, hit, sent, cancel);
        ClosedIgnores(cfg, now, docs, q', i, tail);
    }
  }

  /**
   * `handle` is a run of the relay.  For an authentic request that the limiter admits and that
   * gets a permit, its reply is where the relay's own steps end up when the same things
   * happen in turn, and the same number of permits is out.
   */
  lemma HandleIsARun(cfg: Settings, now: real, docs: set<Store.CacheDoc>, r: State, request: Request,
                     identity: Option<CacheIdentity>, hit: Option<Store.CacheDoc>, sent: Sent, cancel: Cancel)
    requires request.authentic && r.inflight < cfg.maxConcurrent
    requires cfg.limits.Some? ==>
      RateLimit.Step(cfg.limits.value, r.limiter, RateLimit.Arrival(request.clientKey, now)).1.allowed
    requires identity == IdentityOf(cfg, request, Concat(request.chunks))
    requires identity.Some? && hit.Some? ==> Store.Finds(docs, identity.value, now, hit)
    ensures var i := |r.sessions|;
      Reflects(r.inflight, Play(cfg, now, docs, r, HandleScript(i, request, identity, hit, sent, cancel)), i, request,
          identity,
               ReplyTo(cfg.maxRequestBytes, request, identity, hit, sent, cancel))
  {
    var i, n := |r.sessions|, BodyChunks(request, cancel);
    var rest := Reads(i, n) + Tail(i, request, identity, hit, sent, cancel);
    assert HandleScript(i, request, identity, hit, sent, cancel) == [Arrive(request)] + rest;
    PlaySplits(cfg, now, docs, r, [Arrive(request)], rest);
    PlayOne(cfg, now, docs, r, Arrive(request));
    ArriveSteps(cfg, now, docs, r, request);
    var q := Step(cfg, now, docs, r, Arrive(request));
    if request.declared.Some? && request.declared.value > cfg.maxRequestBytes {
      ReadsAreReads(i, n);
      TailIsItsOwn(i, request, identity, hit, sent, cancel);
      ClosedIgnores(cfg, now, docs, q, i, rest);
    } else {
      RestRuns(cfg, now, docs, q, i, request, identity, hit, sent, cancel);
    }
  }
}
