// Runs of the gateway in which the cache answers: a miss is relayed, its capture is written and
// put, and a request with the same key is a hit.  The whole-run theorems speak of them.

module SystemExample {
  import opened Common
  import opened Capture
  import opened Stages
  import opened System
  import Relay
  import Pipeline
  import Store
  import Keys
  import Json

  /** The body [2] asks for a stream, any other does not. */
  function ParsedBody(body: Bytes): Option<Json.Json> {
    Some(Json.Obj(if body == [2] then map["stream" := Json.Bool(true)] else map[]))
  }

  const SETTINGS := Relay.Settings(2, 100, 100, None, true, 10.0, ParsedBody)

  const CFG := Config(SETTINGS, Pipeline.Config(10, 1, 1, false, true))

  function Ask(b: byte): Relay.Request {
    Relay.Request("openai", "POST", "chat", true, "client", true, None, [[b]])
  }

  function AnswerTo(encoding: Option<string>): Relay.Answer {
    Relay.Answer(200, None, encoding, [[7]], false)
  }

  // ----- Sessions, exchanges, captures and documents of the run ---------------------------------

  function Asking(b: byte, stage: Relay.Stage, body: Bytes): Relay.Session {
    Relay.Session(Ask(b), stage, body, EMPTY_BUFFER, None, [], 1, 0, false, None)
  }

  function Receiving(id: CacheIdentity, enc: Option<string>, observed: nat, sent: seq<Bytes>): Relay.Session {
    Relay.Session(Ask(1), Relay.Streaming(Some(id), AnswerTo(enc), observed), [1],
                  Buffer(if observed == 0 then [] else [7], false), Some(Relay.Head(200, None, Relay.Miss, 0.0)),
                      sent, 1, 0, true, None)
  }

  function Finished(id: CacheIdentity, enc: Option<string>): Relay.Session {
    Receiving(id, enc, 1, [[7]]).(stage := Relay.Closed, releases := 1)
  }

  function Logged(id: CacheIdentity, enc: Option<string>): Relay.Exchange {
    Relay.Exchange(Ask(1), [1], Some(id), AnswerTo(enc), 1, [[7]], true)
  }

  function Captured(id: CacheIdentity, enc: Option<string>): RawCapture {
    RawCapture(0, "openai", "POST", "chat", [7], None, Some(200), AnswerTo(enc).Streamed(), OK, false, Some(id.key),
        true, false)
  }

  function Stored(id: CacheIdentity, enc: Option<string>): Store.CacheDoc {
    Store.CacheDoc(id.key, AnswerTo(enc).Streamed(), "openai", "chat", 200, None, [7], 0.0, 10.0)
  }

  function RelayWith(inflight: int, sessions: seq<Relay.Session>, finished: seq<Relay.Exchange>): Relay.State {
    Relay.Initial(0.0).(inflight := inflight, sessions := sessions, finished := finished)
  }

  ghost function Next(docs: set<Store.CacheDoc>, r: Relay.State, e: Relay.Event): Relay.State {
    Relay.Step(SETTINGS, 0.0, docs, r, e)
  }

  // ----- The relay's steps ------------------------------------------------------------------------

  lemma RequestIsCacheable(b: byte) returns (id: CacheIdentity)
    ensures Relay.IdentityOf(SETTINGS, Ask(b), [b]) == Some(id)
  {
    assert Keys.Upper("POST") == "POST";
    id := Relay.IdentityOf(SETTINGS, Ask(b), [b]).value;
  }

  lemma RequestArrives(b: byte, before: seq<Relay.Session>, finished: seq<Relay.Exchange>, docs: set<Store.CacheDoc>)
    ensures Next(docs, RelayWith(0, before, finished), Relay.Arrive(Ask(b)))
         == RelayWith(1, before + [Asking(b, Relay.Reading(0), [])], finished)
  {
  }

  lemma Last<T>(before: seq<T>, x: T, y: T)
    ensures (before + [x])[|before|] == x && (before + [x])[|before| := y] == before + [y]
  {
  }

  lemma BodyIsRead(b: byte, before: seq<Relay.Session>, finished: seq<Relay.Exchange>, docs: set<Store.CacheDoc>)
    ensures Next(docs, RelayWith(1, before + [Asking(b, Relay.Reading(0), [])], finished), Relay.ReadChunk(|before|))
         == RelayWith(1, before + [Asking(b, Relay.Reading(1), [b])], finished)
  {
    var x, y := Asking(b, Relay.Reading(0), []), Asking(b, Relay.Reading(1), [b]);
    Last(before, x, y);
    assert [] + [b] == [b];
    assert x.(stage := Relay.Reading(1), body := [b]) == y;
  }

  lemma LookupBegins(b: byte, id: CacheIdentity, before: seq<Relay.Session>, finished: seq<Relay.Exchange>,
                     docs: set<Store.CacheDoc>)
    requires Relay.IdentityOf(SETTINGS, Ask(b), [b]) == Some(id)
    ensures Next(docs, RelayWith(1, before + [Asking(b, Relay.Reading(1), [b])], finished), Relay.ReadEnd(|before|))
         == RelayWith(1, before + [Asking(b, Relay.Looking(id, 0.0), [b])], finished)
  {
    var x, y := Asking(b, Relay.Reading(1), [b]), Asking(b, Relay.Looking(id, 0.0), [b]);
    Last(before, x, y);
    assert x.(stage := Relay.Looking(id, 0.0)) == y;
  }

  lemma LookupMisses(id: CacheIdentity)
    ensures Next({}, RelayWith(1, [Asking(1, Relay.Looking(id, 0.0), [1])], []), Relay.LookupMiss(0))
         == RelayWith(1, [Asking(1, Relay.Sending(Some(id)), [1])], [])
  {
    Last([], Asking(1, Relay.Looking(id, 0.0), [1]), Asking(1, Relay.Sending(Some(id)), [1]));
  }

  lemma UpstreamAnswers(id: CacheIdentity, enc: Option<string>)
    ensures Next({}, RelayWith(1, [Asking(1, Relay.Sending(Some(id)), [1])], []), Relay.Answered(0, AnswerTo(enc)))
         == RelayWith(1, [Receiving(id, enc, 0, [])], [])
  {
    Last([], Asking(1, Relay.Sending(Some(id)), [1]), Receiving(id, enc, 0, []));
  }

  lemma ChunkIsObserved(id: CacheIdentity, enc: Option<string>)
    ensures Next({}, RelayWith(1, [Receiving(id, enc, 0, [])], []), Relay.Chunk(0))
        == RelayWith(1, [Receiving(id, enc, 1, [])], [])
  {
    assert Observe(100, EMPTY_BUFFER, [7]) == Buffer([7], false);
    Last([], Receiving(id, enc, 0, []), Receiving(id, enc, 1, []));
  }

  lemma ChunkIsDelivered(id: CacheIdentity, enc: Option<string>)
    ensures Next({}, RelayWith(1, [Receiving(id, enc, 1, [])], []), Relay.Delivered(0))
        == RelayWith(1, [Receiving(id, enc, 1, [[7]])], [])
  {
    assert [] + [AnswerTo(enc).chunks[0]] == [[7]];
    Last([], Receiving(id, enc, 1, []), Receiving(id, enc, 1, [[7]]));
  }

  /** The stream ends: the exchange is logged, the permit returned, the capture submitted. */
  lemma StreamEnds(id: CacheIdentity, enc: Option<string>)
    ensures var r := RelayWith(1, [Receiving(id, enc, 1, [[7]])], []);
      && Next({}, r, Relay.End(0)) == RelayWith(0, [Finished(id, enc)], [Logged(id, enc)])
      && Relay.Submits(r, {}, Relay.End(0)) == Some(Captured(id, enc))
  {
    Last([], Receiving(id, enc, 1, [[7]]), Finished(id, enc));
  }

  lemma LookupHits(b: byte, id: CacheIdentity, enc: Option<string>, query: CacheIdentity)
    requires query.key == id.key && query.streamed == AnswerTo(enc).Streamed()
    ensures var r := RelayWith(1, [Finished(id, enc), Asking(b, Relay.Looking(query, 0.0), [b])], [Logged(id, enc)]);
      var r' := Next({Stored(id, enc)}, r, Relay.LookupHit(1, Stored(id, enc)));
      && |r'.sessions| == 2 && r'.finished == r.finished && r'.sessions[1].request == Ask(b)
           && r'.sessions[1].body == [b]
      && r'.sessions[1].served == Some(Relay.Served(query, 0.0, Stored(id, enc), 1))
  {
    assert Store.Finds({Stored(id, enc)}, query, 0.0, Some(Stored(id, enc)));
  }

  // ----- The worker's steps --------------------------------------------------------------------------

  ghost predicate Poised(p: Pipeline.State, queue: seq<Pipeline.Item>, point: Pipeline.Point) {
    p.queue == queue && p.workers == [Pipeline.Worker([], point)]
  }

  function Tick(p: Pipeline.State, e: Pipeline.Event): Pipeline.State {
    Pipeline.Step(CFG.pipeline, p, e)
  }

  lemma CaptureIsQueued(p: Pipeline.State, c: RawCapture)
    requires Poised(p, [], Pipeline.Waiting)
    ensures Poised(Tick(p, Pipeline.Submit(c)), [Pipeline.Data(c)], Pipeline.Waiting)
  {
  }

  lemma CaptureIsTaken(p: Pipeline.State, c: RawCapture)
    requires Poised(p, [Pipeline.Data(c)], Pipeline.Waiting)
    ensures Pipeline.Enabled(CFG.pipeline, p, Pipeline.Get(0))
    ensures Poised(Tick(p, Pipeline.Get(0)), [], Pipeline.Flushing(Pipeline.Writing([c]), false))
  {
    assert [] + [c] == [c] && [Pipeline.Data(c)][1..] == [];
    Last([], Pipeline.Worker([], Pipeline.Waiting),
        Pipeline.Worker([], Pipeline.Flushing(Pipeline.Writing([c]), false)));
  }

  lemma CaptureIsWritten(p: Pipeline.State, c: RawCapture)
    requires Poised(p, [], Pipeline.Flushing(Pipeline.Writing([c]), false)) && CacheableIdentity(c).Some?
    ensures Pipeline.Enabled(CFG.pipeline, p, Pipeline.WriteOk(0, 1))
    ensures Poised(Tick(p, Pipeline.WriteOk(0, 1)), [], Pipeline.Flushing(Pipeline.Caching([c]), false))
  {
    CacheableAlone(c);
    Last([], Pipeline.Worker([], Pipeline.Flushing(Pipeline.Writing([c]), false)),
        Pipeline.Worker([], Pipeline.Flushing(Pipeline.Caching([c]), false)));
  }

  lemma CaptureIsPut(id: CacheIdentity, enc: Option<string>, s: State)
    requires Poised(s.pipeline, [], Pipeline.Flushing(Pipeline.Caching([Captured(id, enc)]), false)) && s.clock == 0.0
    ensures var s' := Step(CFG, s, Telemetry(Pipeline.PutDone(0, true), Some(0.0)));
      s'.relay == s.relay && s'.clock == 0.0 && s'.docs == s.docs + {Stored(id, enc)}
  {
    assert PuttingNow(s.pipeline, 0) == Some(Captured(id, enc));
    assert Store.DocumentOf(Captured(id, enc), 0.0, 10.0) == Stored(id, enc);
  }

  // ----- The run -----------------------------------------------------------------------------------------

  ghost function At(trace: seq<Event>): State {
    Run(CFG, 0.0, trace)
  }

  lemma Onward(trace: seq<Event>, e: Event)
    ensures At(trace + [e]) == Step(CFG, At(trace), e)
  {
    assert (trace + [e])[..|trace|] == trace;
  }

  lemma DataOnward(trace: seq<Event>, e: Relay.Event) returns (longer: seq<Event>)
    requires At(trace).clock == 0.0
    ensures var s, s' := At(trace), At(longer);
      && s'.relay == Next(s.docs, s.relay, e) && s'.docs == s.docs && s'.clock == 0.0
      && (!e.End? ==> !e.Leave? ==> s'.pipeline == s.pipeline)
      && (Relay.Submits(s.relay, s.docs, e).Some? ==>
            s'.pipeline == Tick(s.pipeline, Pipeline.Submit(Relay.Submits(s.relay, s.docs, e).value)))
  {
    longer := trace + [Data(e)];
    Onward(trace, Data(e));
  }

  lemma TelemetryOnward(trace: seq<Event>, w: Pipeline.Event) returns (longer: seq<Event>)
    requires Pipeline.Enabled(CFG.pipeline, At(trace).pipeline, w) && !w.Submit? && !w.PutDone?
    ensures At(longer) == At(trace).(pipeline := Tick(At(trace).pipeline, w))
  {
    longer := trace + [Telemetry(w, None)];
    Onward(trace, Telemetry(w, None));
    assert At(trace).docs + {} == At(trace).docs && At(trace).ever + {} == At(trace).ever;
  }

  /** A request is read and looked up, after the sessions before it. */
  lemma AskInRun(trace: seq<Event>, b: byte, id: CacheIdentity, before: seq<Relay.Session>,
                 finished: seq<Relay.Exchange>)
      returns (longer: seq<Event>)
    requires Relay.IdentityOf(SETTINGS, Ask(b), [b]) == Some(id)
    requires At(trace).relay == RelayWith(0, before, finished) && At(trace).clock == 0.0
    ensures var s, s' := At(trace), At(longer);
      && s'.relay == RelayWith(1, before + [Asking(b, Relay.Looking(id, 0.0), [b])], finished)
      && s'.docs == s.docs && s'.clock == 0.0 && s'.pipeline == s.pipeline
  {
    var docs := At(trace).docs;
    RequestArrives(b, before, finished, docs);
    BodyIsRead(b, before, finished, docs);
    LookupBegins(b, id, before, finished, docs);
    longer := DataOnward(trace, Relay.Arrive(Ask(b)));
    longer := DataOnward(longer, Relay.ReadChunk(|before|));
    longer := DataOnward(longer, Relay.ReadEnd(|before|));
  }

  /** The first request, which asks for no stream, misses and is relayed. */
  lemma MissInRun(id: CacheIdentity, enc: Option<string>) returns (trace: seq<Event>)
    requires Relay.IdentityOf(SETTINGS, Ask(1), [1]) == Some(id)
    ensures var s := At(trace);
      && s.relay == RelayWith(0, [Finished(id, enc)], [Logged(id, enc)]) && s.docs == {} && s.clock == 0.0
      && Poised(s.pipeline, [Pipeline.Data(Captured(id, enc))], Pipeline.Waiting)
  {
    assert Poised(At([]).pipeline, [], Pipeline.Waiting);
    trace := AskInRun([], 1, id, [], []);
    var looking := Asking(1, Relay.Looking(id, 0.0), [1]);
    assert [] + [looking] == [looking];
    LookupMisses(id);
    UpstreamAnswers(id, enc);
    ChunkIsObserved(id, enc);
    ChunkIsDelivered(id, enc);
    StreamEnds(id, enc);
    CaptureIsQueued(At([]).pipeline, Captured(id, enc));
    trace := DataOnward(trace, Relay.LookupMiss(0));
    trace := DataOnward(trace, Relay.Answered(0, AnswerTo(enc)));
    trace := DataOnward(trace, Relay.Chunk(0));
    trace := DataOnward(trace, Relay.Delivered(0));
    trace := DataOnward(trace, Relay.End(0));
  }

  /** A worker stores its capture. */
  lemma StoreInRun(trace: seq<Event>, id: CacheIdentity, enc: Option<string>) returns (longer: seq<Event>)
    requires At(trace).clock == 0.0 && Poised(At(trace).pipeline, [Pipeline.Data(Captured(id, enc))], Pipeline.Waiting)
    ensures var s, s' := At(trace), At(longer);
      s'.relay == s.relay && s'.clock == 0.0 && s'.docs == s.docs + {Stored(id, enc)}
  {
    CaptureIsTaken(At(trace).pipeline, Captured(id, enc));
    longer := TelemetryOnward(trace, Pipeline.Get(0));
    CaptureIsWritten(At(longer).pipeline, Captured(id, enc));
    longer := TelemetryOnward(longer, Pipeline.WriteOk(0, 1));
    CaptureIsPut(id, enc, At(longer));
    Onward(longer, Telemetry(Pipeline.PutDone(0, true), Some(0.0)));
    longer := longer + [Telemetry(Pipeline.PutDone(0, true), Some(0.0))];
  }

  /** A second request looks for its answer, after the first one's has been stored. */
  lemma SecondAsk(b: byte, id: CacheIdentity, enc: Option<string>, query: CacheIdentity) returns (trace: seq<Event>)
    requires Relay.IdentityOf(SETTINGS, Ask(1), [1]) == Some(id)
    requires Relay.IdentityOf(SETTINGS, Ask(b), [b]) == Some(query)
    ensures var s := At(trace);
      && s.relay == RelayWith(1, [Finished(id, enc), Asking(b, Relay.Looking(query, 0.0), [b])], [Logged(id, enc)])
      && s.docs == {Stored(id, enc)} && s.clock == 0.0
  {
    trace := MissInRun(id, enc);
    trace := StoreInRun(trace, id, enc);
    trace := AskInRun(trace, b, query, [Finished(id, enc)], [Logged(id, enc)]);
    var looking := Asking(b, Relay.Looking(query, 0.0), [b]);
    assert [Finished(id, enc)] + [looking] == [Finished(id, enc), looking];
    assert {} + {Stored(id, enc)} == {Stored(id, enc)};
  }

  // ----- Formats ----------------------------------------------------------------------------------------

  lemma {:induction false} TooShortToContain(t: string, word: string)
    requires |t| < |word|
    ensures !Contains(t, word)
  {
    if t != "" {
      TooShortToContain(t[1..], word);
    }
  }

  lemma PlainAnswerIsNotStreamed()
    ensures !AnswerTo(None).Streamed()
  {
    TooShortToContain("", "text/event-stream");
    TooShortToContain("", "x-ndjson");
    TooShortToContain("", "application/stream+json");
  }

  lemma ChunkedAnswerIsStreamed()
    ensures AnswerTo(Some("chunked")).Streamed()
  {
    assert Keys.Lower("chunked") == "chunked";
  }

  /** Both requests have one key, and ask for the format their body says. */
  lemma RequestsShareKey(b: byte) returns (id: CacheIdentity)
    requires b == 1 || b == 2
    ensures Relay.IdentityOf(SETTINGS, Ask(b), [b]) == Some(id)
    ensures id.key == Keys.Material("openai", "POST", "chat", Json.Obj(map[])) && id.streamed == (b == 2)
  {
    id := RequestIsCacheable(b);
    TooShortToContain(Keys.Lower("chat"), "streamgeneratecontent");
    Keys.StreamFlagIsIgnored("openai", "POST", "chat", map[], Json.Bool(true));
    assert map[]["stream" := Json.Bool(true)] == map["stream" := Json.Bool(true)];
  }

  /** A hit is reachable: there is a run whose second request is served from the cache. */
  lemma HitIsReachable() returns (trace: seq<Event>)
    ensures |At(trace).relay.sessions| == 2 && At(trace).relay.sessions[1].served.Some?
  {
    var id := RequestsShareKey(1);
    PlainAnswerIsNotStreamed();
    trace := SecondAsk(1, id, None, id);
    LookupHits(1, id, None, id);
    trace := DataOnward(trace, Relay.LookupHit(1, Stored(id, None)));
  }

  /**
   * A single document can be replayed to a streaming client: an answer without a streaming type
   * that came chunked, to a request for no stream, is stored as streamed, and a request for a
   * stream is served with it.
   */
  lemma HitInOtherFormat() returns (trace: seq<Event>)
    ensures var r := At(trace).relay;
      && |r.sessions| == 2 && |r.finished| == 1 && r.sessions[1].served.Some?
      && Keys.WantsStream(ParsedBody(r.sessions[1].body), r.sessions[1].request.path)
      && !Keys.WantsStream(ParsedBody(r.finished[0].body), r.finished[0].request.path)
      && r.finished[0].answer.contentType == None && r.finished[0].answer.transferEncoding == Some("chunked")
  {
    var id := RequestsShareKey(1);
    var query := RequestsShareKey(2);
    ChunkedAnswerIsStreamed();
    TooShortToContain(Keys.Lower("chat"), "streamgeneratecontent");
    trace := SecondAsk(2, id, Some("chunked"), query);
    LookupHits(2, id, Some("chunked"), query);
    trace := DataOnward(trace, Relay.LookupHit(1, Stored(id, Some("chunked"))));
  }

  /**
   * The reaper can win a race: a lookup has sampled its time and may find the document; then
   * the document expires and is deleted before the query runs, and nothing is left to find.
   */
  lemma ReaperWinsRace() returns (trace: seq<Event>, late: seq<Event>)
    ensures late == [Advance(10.0), Reap(At(trace).docs)]
    ensures var s, s' := At(trace), At(trace + late);
      && Enabled(CFG, s, late[0]) && Enabled(CFG, At(trace + late[..1]), late[1])
      && s'.relay == s.relay && |s.relay.sessions| == 2 && s.relay.sessions[1].stage.Looking?
      && var (id, asked) := (s.relay.sessions[1].stage.query, s.relay.sessions[1].stage.asked);
      && (exists d :: Store.Finds(s.docs, id, asked, Some(d)))
      && forall r :: Store.Finds(s'.docs, id, asked, r) ==> r == None
  {
    var id := RequestsShareKey(1);
    PlainAnswerIsNotStreamed();
    trace := SecondAsk(1, id, None, id);
    late := [Advance(10.0), Reap(At(trace).docs)];
    assert late[..1] == [Advance(10.0)] && (trace + [Advance(10.0)]) + [late[1]] == trace + late;
    Onward(trace, Advance(10.0));
    Onward(trace + [Advance(10.0)], late[1]);
    assert At(trace + late).docs == {};
    assert Store.Finds({Stored(id, None)}, id, 0.0, Some(Stored(id, None)));
  }
}
