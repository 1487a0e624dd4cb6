# The blackbox_ai gateway: a verified model

The gateway relays LLM requests to providers and streams the answers back (the data plane),
while a bounded queue and its workers record every exchange, embed it, store it, and feed a
response cache (the telemetry plane). This project models both planes and proves what they
promise, over every input, every run and every interleaving.

`dafny verify dfyconfig.toml` checks everything. No file depends on anything outside this directory.

## How it is organised

| files | what they hold |
|---|---|
| `Common.dfy` | options, bytes, sums and multisets over sequences |
| `RateLimit.dfy`, `RateLimitTheory.dfy` | the sliding-window limiter, its full-history reference, greedy optimality, exact retry times |
| `Capture.dfy` | the bounded capture buffer |
| `Pipeline.dfy`, `PipelineTheory.dfy`, `StageTheory.dfy`, `ShutdownTheory.dfy`, `PipelineObject.dfy` | the telemetry queue, workers, stages and `stop()` as a step machine; conservation; what every stage does with every record; shutdown; the mutable object |
| `Json.dfy`, `Keys.dfy`, `Store.dfy` | the canonical JSON printer and its unique readability, the cache key, the cache collection |
| `Relay.dfy`, `RelayTheory.dfy` | one session per request, stepped between awaits; what every step keeps |
| `RelayObject.dfy`, `RelayScript.dfy` | the relay's sequential code, and that each request it handles is a run of the relay's steps |
| `System.dfy`, `SystemTheory.dfy`, `SystemExample.dfy` | relay, pipeline and collection under one clock; whole-run theorems; a run that reaches a hit and one where the reaper wins a race |
| `Sse.dfy`, `SseStandard.dfy`, `Parsing.dfy` | event-stream framing, its printer, truncation; the standard's own reader beside it; what the response parsers share |
| `OpenAi.dfy`, `OpenAiEvents.dfy`, `OpenAiTheory.dfy`, `OpenAiChoices.dfy`, `Anthropic.dfy`, `AnthropicEvents.dfy`, `AnthropicTheory.dfy` | the two stateful response parsers, what each event does to the reading, and what the readings amount to |
| `Breaker.dfy`, `Embeddings.dfy` | the circuit breaker, the batched embedder and the stage that uses it |

The concurrent parts (pipeline, relay, gateway) are step machines: a step is what one task does
between two awaits, and a run is any sequence of steps, so a theorem over runs covers every
schedule. The code that updates objects in place is also written as classes and loops: the
methods of the limiter and the pipeline equal the corresponding step, those of the parsers, the
breaker and the embedder equal specification functions, and those of the relay equal functions
that are proved to describe runs of the relay's steps (`HandleIsARun`, `StreamRuns`, `ReplayRuns`). Clocks, network outcomes,
sink outcomes, disconnects and JSON decoding are parameters. Real time is a `real`; wherever a run
has a clock, it never goes back.

Main results, one line each:

- **Limiter.** Pruning and garbage collection never change a decision (`LimiterRefinesFullHistory`); no
  selection that fits every window admits more (`LimiterIsOptimal`); a quoted retry time is exact (`RetryTimeIsExact`).
- **Pipeline.** Every accepted capture is in exactly one place under every interleaving (`CapturesAreConserved`), and so is
  every record the cache is to get (`PutsAreConserved`); `stop()` cannot deadlock while it puts sentinels and a normal exit loses nothing; a worker can be left stranded exactly
  when there are two or more workers and the queue can hold two items (`StrandingExactly`).
- **Gateway.** A cache hit is a faithful copy of an earlier complete answer to the same request
  (`HitsAreFaithfulCopies`, `HitsAnswerTheSameRequest`), and such runs exist (`HitIsReachable`); permits balance on
  every exit; telemetry decides which hits are delivered and nothing else (`TelemetryOnlyDecidesHits`); exactly when the
  reaper has mattered to a lookup (`ReaperMattersExactly`).
- **Keys.** Two requests share a key exactly when they agree on the text in front of the body and on every body field
  but `stream` (`KeyIsFrontAndBody`), and, without the separator in names, on each part (`KeyIsExact`).
- **Event streams.** Printing and reading round-trip; cutting a stream keeps a prefix and at most a remnant of one event;
  on plain text, exactly when the reading is the standard's (`ReadsAsStandardExactly`).
- **Parsers.** Interleaving of tool fragments is irrelevant; exactly when streamed and single forms read alike, the choice of parser
  included, for Anthropic and for OpenAI with any number of choices; where each token
  count comes from (`UsageExactly`); a truncated capture parses as the events that survived.
- **Embeddings.** Batching equals a pointwise map; a batch is skipped exactly while the breaker is tripped by all outcomes so
  far, other workers' included (`SkippedExactly`); an outage is paced by the cooldown.

## Where the code and its own words differ

The model follows the code in each case.

- `pipeline.py:121` says sentinels bypass the queue bound. `queue.put` waits, so they do not: the queue never exceeds `maxsize`.
- `pipeline.py:117` says workers drain and exit. A drain also swallows other workers' sentinels, so a worker can stay in its
  loop until it is cancelled (`StrandedUntilCancelled`), in some run exactly when there are two workers or more and the
  queue can hold two items (`StrandingExactly`); a queue of one never gives a drain a second sentinel.
- `store.py:5-7` keeps expired entries out of lookups by filtering on the time, which a lookup samples before its query runs.
  An entry that expires and is deleted in between is lost to it (`ReaperWinsRace`); exactly when is `ReaperMattersExactly`.
- `capture.py:122-125` raises the truncation flag for an empty chunk at a full buffer although nothing is lost
  (`EmptyChunkRaisesFlag`); exactly when is `FalseAlarmExactly`.
- `embeddings.py:40` speaks of a single trial call. `allow` does not reserve it (`TrialIsNotReserved`).
- `openai_sse.py:75` and `anthropic_sse.py:37` choose the parser by whether the answer came chunked (`relay.py:435-439` counts any chunked answer
  as streamed) or `data:` stands in its first 512 characters. A plain JSON reply for which either is so is read as an event stream, and so as
  nothing (`SingleTakenForStream` in both parsers, `QuotingReplyExists`); the exact conditions below include this.
- `anthropic_sse.py:126-136` leaves the arguments of a tool called without input as the empty string, where the single form has the
  decoded value (`EmptyInputReadsDifferently`, `ToolWithoutInput`), and an empty text block streamed without a delta reads as no content,
  where the single form has "" (`EmptyTextReadsDifferently`); exactly when the forms agree is `StreamedEqualsSingleExactly`.
- `openai_sse.py:111-118` folds every choice of a stream into one, where the single form reads only the first (`TwoChoicesFold`); exactly when
  they agree is `SeveralChoicesExactly`. Content null and content "" change places on the way (`NullAndEmptyContentDiffer`).
- `keys.py:38-40` says a streamed response can never be replayed as a non-streamed one. The stored format is read off the answer's headers, and
  a single document that came chunked counts as streamed; it is later replayed to a client that asked for a stream (`HitInOtherFormat`). What does
  hold, and exactly when a hit's original had asked for the same format, is `HitFormatExactly`.
- Event streams are defined by section 9.2.6 of the WHATWG HTML Living Standard. The reader differs from it in three ways: the end of
  the text dispatches a pending event (`EndDispatches`), lines also break at other characters (`OtherBreaksSplit`), and a leading
  byte order mark is not stripped and costs the first line (`ByteOrderMarkLosesLine`). On text without the last two it agrees exactly when no data line
  is left without a blank line after it (`ReadsAsStandardExactly`), and a mark before an idle line changes nothing (`MarkBeforeIdleLine`).

## Model

| member | source | states |
|---|---|---|
| `RateLimit.SlidingWindowRateLimiter.constructor` | `src/blackbox_ai/security/rate_limit.py:58-62` | a new limiter is in the state after no checks |
| `RateLimit.SlidingWindowRateLimiter.Create` | `src/blackbox_ai/security/rate_limit.py:47-62` | construction fails exactly for a limit below 1 or a window that is not positive |
| `RateLimit.SlidingWindowRateLimiter.Check` | `src/blackbox_ai/security/rate_limit.py:64-83` | one in-place check yields the state and decision of the step function the theorems are about |
| `RateLimit.SlidingWindowRateLimiter.MaybeGc` | `src/blackbox_ai/security/rate_limit.py:85-93` | collection deletes exactly the keys idle for a whole window, at most once per window |
| `RateLimit.LimiterRefinesFullHistory` | `src/blackbox_ai/security/rate_limit.py:64-93` | under a clock that never goes back, every answer is that of a limiter that keeps every admitted timestamp for ever |
| `RateLimit.CollectIsInvisible` | `src/blackbox_ai/security/rate_limit.py:85-93` | collection changes no bucket that still counts |
| `RateLimit.RetainedStateIsBounded` | `src/blackbox_ai/security/rate_limit.py:64-93` | every retained bucket is non-empty, sorted, at most the limit long, and was last admitted within two windows |
| `RateLimitTheory.LimiterIsOptimal` | `src/blackbox_ai/security/rate_limit.py:44-45` | what one key is granted fits every window, and no selection of its arrivals that fits every window is larger |
| `RateLimitTheory.StayAhead` | `src/blackbox_ai/security/rate_limit.py:64-83` | the i-th admission is never later than the i-th pick of any spaced competitor |
| `RateLimitTheory.RetryTimeIsExact` | `src/blackbox_ai/security/rate_limit.py:77-80` | after a denial quoting r, checks of that key before now + r are denied and the first one from then on is admitted, whatever other keys do |
| `RateLimitTheory.WaitingTheHeaderSuffices` | `src/blackbox_ai/errors.py:131-134` | waiting the rounded-up header is enough when nobody else uses the key |
| `RateLimitTheory.HeaderIsLeast` | `src/blackbox_ai/errors.py:131-134` | the header is the least whole number that is at least one and not below the quoted time |
| `Capture.BufferIsPrefix` | `src/blackbox_ai/telemetry/capture.py:118-130` | the buffer is the first min(total, cap) bytes whatever the chunk boundaries, and exactly when the flag is up |
| `Capture.UntruncatedIsWhole` | `src/blackbox_ai/telemetry/capture.py:118-130` | no flag means nothing was lost |
| `Capture.FlagIsLossForNonEmptyChunks` | `src/blackbox_ai/telemetry/capture.py:118-130` | without empty chunks the flag is up exactly when bytes were lost |
| `Capture.FalseAlarmExactly` | `src/blackbox_ai/telemetry/capture.py:122-125` | the flag is a false alarm exactly when everything fits and a chunk met a full buffer |
| `Capture.EmptyChunkRaisesFlag` | `src/blackbox_ai/telemetry/capture.py:122-125` | a concrete false alarm |
| `Capture.CaptureBuffer.Observe` | `src/blackbox_ai/telemetry/capture.py:118-130` | the in-place buffer is the fold of everything observed |
| `PipelineObject.TelemetryPipeline.constructor` | `src/blackbox_ai/telemetry/pipeline.py:62-98` | a started pipeline is the initial state |
| `PipelineObject.TelemetryPipeline.Submit` | `src/blackbox_ai/telemetry/pipeline.py:100-114` | accepts exactly when the queue is unbounded or shorter than its bound, and then appends and counts; otherwise drops and counts |
| `PipelineObject.TelemetryPipeline.OnItem` | `src/blackbox_ai/telemetry/pipeline.py:143-150` | what a worker does with one item, up to its next await |
| `PipelineObject.TelemetryPipeline.OnTimeout` | `src/blackbox_ai/telemetry/pipeline.py:138-142` | an idle timeout flushes the batch |
| `PipelineObject.TelemetryPipeline.DrainRemaining` | `src/blackbox_ai/telemetry/pipeline.py:152-161` | the drain empties the queue, keeps every capture in order and swallows every sentinel |
| `PipelineObject.TelemetryPipeline.Flush` | `src/blackbox_ai/telemetry/pipeline.py:163-176` | a flush hands the whole batch to the stages; an empty one does nothing |
| `PipelineObject.TelemetryPipeline.OnEmbedded` | `src/blackbox_ai/telemetry/stages.py:97-107` | after embedding, the same records are written |
| `PipelineObject.TelemetryPipeline.OnWritten` | `src/blackbox_ai/telemetry/stages.py:117-130` | a write counts as written or failed, and only persisted records go on to the cache |
| `PipelineObject.TelemetryPipeline.SelectCacheable` | `src/blackbox_ai/telemetry/stages.py:140-147` | which records are put: exactly the cacheable ones, in order |
| `PipelineObject.TelemetryPipeline.OnPut` | `src/blackbox_ai/telemetry/stages.py:148-161` | a put that succeeds is counted; either way the next record follows |
| `PipelineObject.TelemetryPipeline.PutSentinel` | `src/blackbox_ai/telemetry/pipeline.py:120-122` | a sentinel is put only once there is room |
| `Stages.CacheableSplits` | `src/blackbox_ai/telemetry/stages.py:140-147` | each part of a batch is taken or left by itself, in order and as often as it comes |
| `RelayTheory.CacheableExactly` | `src/blackbox_ai/telemetry/stages.py:164-181` | exactly which answers qualify: opted in, streamed to the end with 2xx, non-empty, within the cap, and no chunk sent once the cap was reached; a replay never does |
| `PipelineTheory.CapturesAreConserved` | `src/blackbox_ai/telemetry/pipeline.py:100-176` | each accepted capture is queued, batched, in flight, written, failed or lost, exactly once, and reaches the sink at most once; the metrics add up; the queue bound holds |
| `PipelineTheory.FlushesAreBounded` | `src/blackbox_ai/telemetry/pipeline.py:146-150` | only the flush after a drain may exceed the batch size |
| `StageTheory.PutsAreConserved` | `src/blackbox_ai/telemetry/stages.py:140-161` | on every run, the qualifying captures of all successful writes are, each as often as it was written, put, still to be put, or abandoned at a cancellation; nothing of a failed batch is put |
| `StageTheory.NormalExitPutsEverything` | `src/blackbox_ai/telemetry/stages.py:140-161` | once every worker has exited by itself, every qualifying capture of a written batch has been put |
| `StageTheory.EmbedsBeforeWriting` | `src/blackbox_ai/telemetry/pipeline.py:66-78` | on every run, with an embedder what was handed to the sink is what came through the embed stage; without one nothing comes through it |
| `StageTheory.MetricsAreTallies` | `src/blackbox_ai/telemetry/stages.py:42-60` | on every run the counters are tallies: good puts, vectors attached, documents the sink reported, submit calls |
| `StageTheory.CaptureJoinsBatch` | `src/blackbox_ai/telemetry/pipeline.py:146-148` | a capture joins the batch, which is flushed with it exactly when it is then as long as configured |
| `StageTheory.TimeoutFlushes` | `src/blackbox_ai/telemetry/pipeline.py:138-142` | a timeout flushes what there is, and changes nothing when there is nothing |
| `StageTheory.CapturesExactly` | `src/blackbox_ai/telemetry/pipeline.py:152-161` | what a drain keeps of the queue: the captures and not the sentinels, in order |
| `StageTheory.SentinelEndsLoop` | `src/blackbox_ai/telemetry/pipeline.py:144-150` | a sentinel empties the queue; one last flush takes its captures along, and without any the worker exits |
| `StageTheory.WriteSettles` | `src/blackbox_ai/telemetry/stages.py:121-130` | a good write counts what the sink reports; the qualifying records go on to be put, when there is a cache |
| `StageTheory.FailureSettles` | `src/blackbox_ai/telemetry/stages.py:123-126` | a failed write counts the whole batch as failed, and nothing of it goes on |
| `StageTheory.PutsGoOn` | `src/blackbox_ai/telemetry/stages.py:148-161` | a put, done or failed, is followed by the next until none is left; only a good one counts |
| `StageTheory.StopMovesOn` | `src/blackbox_ai/telemetry/pipeline.py:116-133` | `stop()` puts one sentinel per worker, cancels only after a timeout, and returns once all workers have ended |
| `ShutdownTheory.ExitsAreBackedBySentinels` | `src/blackbox_ai/telemetry/pipeline.py:116-150` | workers past their loop <= sentinels consumed <= sentinels put |
| `ShutdownTheory.NoDeadlockWhilePutting` | `src/blackbox_ai/telemetry/pipeline.py:120-122` | while a sentinel is still to be put some worker is in its loop and something productive can happen |
| `ShutdownTheory.DrainedQueueStaysEmpty` | `src/blackbox_ai/telemetry/pipeline.py:144-161` | once a sentinel has ended a loop and nothing was accepted after `stop()` began, no capture is ever queued again, whatever runs on |
| `ShutdownTheory.NormalExitLosesNothing` | `src/blackbox_ai/telemetry/pipeline.py:116-150` | if nothing was accepted after `stop()` began and all workers exited normally, every accepted capture was written or failed |
| `ShutdownTheory.StrandingExactly` | `src/blackbox_ai/telemetry/pipeline.py:116-161` | some run strands a worker, and some drain swallows a sentinel, iff there are two workers or more and the queue can hold two items |
| `ShutdownTheory.WorkersExitThemselves` | `src/blackbox_ai/telemetry/pipeline.py:116-150` | otherwise every worker leaves on a sentinel of its own once all are put and taken |
| `ShutdownTheory.StrandedUntilCancelled` | `src/blackbox_ai/telemetry/pipeline.py:128-131` | a worker whose sentinel was swallowed leaves only by cancellation |
| `ShutdownTheory.FirstDrainSwallows` | `src/blackbox_ai/telemetry/pipeline.py:159-160` | for every such configuration, the run in which the first drain swallows a second sentinel |
| `ShutdownTheory.OneWorkerSwallowsNothing` | `src/blackbox_ai/telemetry/pipeline.py:144-161` | with one worker or none, no run ever swallows a sentinel |
| `ShutdownTheory.TinyQueueSwallowsNothing` | `src/blackbox_ai/telemetry/pipeline.py:159-160` | with a queue of one, no run ever swallows a sentinel |
| `ShutdownTheory.StepCostsWork` | `src/blackbox_ai/telemetry/pipeline.py:116-176` | a decreasing measure: every productive step or cancellation uses up work |
| `ShutdownTheory.OneWorkerProgress` | `src/blackbox_ai/telemetry/pipeline.py:116-150` | with one worker, until `stop()` returns something productive can happen |
| `ShutdownTheory.ProductiveStepsAreBounded` | `src/blackbox_ai/telemetry/pipeline.py:116-176` | once submissions cease the productive steps left are bounded by a known number |
| `Json.PrintUnique` | `src/blackbox_ai/cache/keys.py:53-59` | sorted compact JSON is uniquely readable: equal texts before a delimiter mean equal values |
| `Json.QuotedUnique` | `src/blackbox_ai/cache/keys.py:53-59` | an escaped string is readable up to its closing quote |
| `Json.PrintHasNoControl` | `src/blackbox_ai/cache/keys.py:53-60` | no printed value contains a control character (section 7 of RFC 8259), so none contains the separator |
| `Keys.KeyIsFrontAndBody` | `src/blackbox_ai/cache/keys.py:47-61` | for any two requests: keys are equal iff the text in front of the body is and every top-level field of the body but `stream` is, with its value, in both or in neither |
| `Keys.KeyIsExact` | `src/blackbox_ai/cache/keys.py:47-61` | with provider names and methods free of the separator: keys are equal iff provider, upper-cased method, path without leading slashes and every body field but `stream` are equal |
| `Keys.SeparatorInProviderCollides` | `src/blackbox_ai/cache/keys.py:60` | the condition is needed: two POST requests the gate does key collide when one provider name holds the separator |
| `Keys.StripSlashesIsExact` | `src/blackbox_ai/cache/keys.py:60` | exactly the leading slashes of a path are dropped |
| `Keys.StreamFlagIsIgnored` | `src/blackbox_ai/cache/keys.py:30` | the stream flag never reaches the key |
| `Keys.NormalizedExactly` | `src/blackbox_ai/cache/keys.py:30-52` | of the body, nothing but the top-level `stream` is dropped |
| `Keys.UpperIsExact` | `src/blackbox_ai/cache/keys.py:60` | upper-casing, letter by letter against the two alphabets |
| `Keys.LowerIsExact` | `src/blackbox_ai/cache/gate.py:106` | and lower-casing |
| `Keys.FalseExactly` | `src/blackbox_ai/cache/gate.py:114` | the parsed values Python calls false, listed |
| `Keys.IdentityExactly` | `src/blackbox_ai/cache/gate.py:58-69` | a request is looked up iff the cache is on, it opted in, it is a POST in any case and its body is a JSON object; in the stream format iff the path names it or `stream` is true |
| `Common.ContainsExactly` | `src/blackbox_ai/cache/gate.py:106` | a text contains a word iff the word stands at some position of it |
| `Store.CacheStore.Put` | `src/blackbox_ai/cache/store.py:79-107` | a put adds one document that holds what the capture holds under its key and format, created now and expiring one TTL later |
| `Store.CacheStore.Lookup` | `src/blackbox_ai/cache/store.py:64-77` | a lookup finds a newest live match, or nothing exactly when there is none |
| `Store.SomethingIsFound` | `src/blackbox_ai/cache/store.py:64-77` | every lookup has an admissible answer |
| `Store.ReapingIsInvisible` | `src/blackbox_ai/cache/store.py:57-62` | deleting expired documents changes no answer |
| `Store.ReapingMattersExactly` | `src/blackbox_ai/cache/store.py:57-74` | a deletion changes what a lookup may answer iff it takes a live match without leaving a newer one |
| `RelayObject.RelayServer.AcquirePermit` | `src/blackbox_ai/proxy/relay.py:182-189` | a permit is taken exactly when one is free |
| `RelayObject.RelayServer.ReleasePermit` | `src/blackbox_ai/proxy/relay.py:191-194` | a release gives one permit back |
| `RelayObject.RelayServer.ReadBody` | `src/blackbox_ai/proxy/relay.py:205-224` | the whole body is returned, or a 413 exactly when the declared length or, before the client goes away, the received length exceeds the limit |
| `RelayObject.RelayServer.Handle` | `src/blackbox_ai/proxy/relay.py:126-180` | exactly when each reply is given: 503 at capacity, 413, nobody left to answer, a replay, 504, 502, or the live answer; the permit stays out exactly when a response is handed off |
| `RelayScript.HandleIsARun` | `src/blackbox_ai/proxy/relay.py:112-194` | that reply, and the permit, are where the relay's own steps end up when the same things happen in turn |
| `RelayObject.RelayServer.StreamAndCapture` | `src/blackbox_ai/proxy/relay.py:240-276` | wherever the client leaves, at a yield or in a wait: which chunks were delivered and observed; upstream error iff an error status or a stream that broke, disconnect iff any other was left early, OK otherwise; one release |
| `RelayScript.StreamRuns` | `src/blackbox_ai/proxy/relay.py:251-254` | the same is what the relay's Chunk and Delivered steps reach |
| `RelayScript.StreamEnds` | `src/blackbox_ai/proxy/relay.py:261-276` | and its last step logs that exchange, submits its capture, every field given, with that status, and returns the permit |
| `RelayObject.RelayServer.ReplayAndCapture` | `src/blackbox_ai/proxy/relay.py:311-326` | a replay observes the stored body, delivers all of it or nothing, and releases once |
| `RelayScript.ReplayRuns` | `src/blackbox_ai/proxy/relay.py:311-326` | the same is what the relay's steps reach |
| `RelayScript.ReplayEnds` | `src/blackbox_ai/proxy/relay.py:317-326` | and the last one submits an OK capture, every field given, even when the client left, and returns the permit |
| `RelayTheory.StepKeepsRelay` | `src/blackbox_ai/proxy/relay.py:112-326` | every step keeps the permit count, the tee, the buffers and the record of exchanges |
| `RelayTheory.CaptureIsFaithful` | `src/blackbox_ai/proxy/relay.py:240-276` | a capture is the first bytes observed; exactly when it says upstream error, disconnect and OK; OK and untruncated means the whole upstream body, delivered in full |
| `RelayTheory.MemoryIsBounded` | `src/blackbox_ai/proxy/relay.py:122-129` | in a good state, retained bodies and captures stay under the cap times the two limits |
| `RelayTheory.ArrivalExactly` | `src/blackbox_ai/proxy/relay.py:120-216` | the order of the rejections: 401 iff not authentic, then 429, 503 and 413 for a declared length; a permit is taken iff none applies, and the limiter is asked iff the request is authentic |
| `RelayTheory.StreamedExactly` | `src/blackbox_ai/proxy/relay.py:435-439` | an answer counts as streamed iff it is chunked or its type names one of three streaming types |
| `RelayTheory.LookedUpExactly` | `src/blackbox_ai/cache/gate.py:58-69` | exactly which requests of the relay are looked up, under which key and format; an empty body is not parsed |
| `SystemTheory.PermitProtocol` | `src/blackbox_ai/proxy/relay.py:122-194` | in every reachable state the counter is the number of requests between acquire and release, within the cap, and each request releases exactly what it took |
| `SystemTheory.DataPlaneMemory` | `src/blackbox_ai/proxy/relay.py:122-129` | in every reachable state the memory bound holds |
| `SystemTheory.TeeFidelity` | `src/blackbox_ai/proxy/tee.py:16-23` | the client has a prefix of the upstream chunks; telemetry saw that prefix or one chunk more |
| `SystemTheory.HitsAreFaithfulCopies` | `src/blackbox_ai/proxy/relay.py:131-140` | over every run, a hit repeats status, content type and whole body of an exchange that had finished, completed untruncated 2xx, had the key and the format of the hit's own request, and was put less than the TTL before |
| `SystemTheory.HitsShareFrontAndBody` | `src/blackbox_ai/cache/gate.py:58-69` | that exchange had the same text in front of the body and the same value in every body field but `stream`, whatever the provider names |
| `SystemTheory.HitsAnswerTheSameRequest` | `src/blackbox_ai/cache/gate.py:58-69` | and, with provider names free of the separator, the same provider and the same path up to leading slashes |
| `SystemTheory.HitFormatExactly` | `src/blackbox_ai/cache/keys.py:33-44` | a hit is in the format its request asks for, as told by its original's headers; the original's request asked for the same one exactly when it was answered as it asked |
| `SystemTheory.PutIsStored` | `src/blackbox_ai/cache/store.py:79-107` | a counted put adds one document that holds what the capture holds and expires one TTL after the instant it sampled |
| `SystemExample.HitInOtherFormat` | `src/blackbox_ai/proxy/relay.py:435-439` | a run in which a single document that came chunked is replayed to a streaming client |
| `SystemTheory.ReaperMattersExactly` | `src/blackbox_ai/cache/store.py:57-74` | in every reachable state, for a lookup that sampled its time whenever: it answers as if nothing had been deleted iff each deleted match is superseded; what it loses expired after that time and by the reaper's last visit |
| `SystemTheory.ReaperNeverMatters` | `src/blackbox_ai/cache/store.py:57-74` | so the reaper never matters to a lookup issued after its last visit |
| `SystemExample.ReaperWinsRace` | `src/blackbox_ai/cache/store.py:66-74` | a run in which a pending lookup may find a document, which is then deleted before the query runs |
| `SystemTheory.SubmissionHasOrigin` | `src/blackbox_ai/telemetry/stages.py:164-181` | a submitted capture that qualifies for the cache is the answer just delivered; a replay never qualifies |
| `SystemTheory.NothingNew` | `src/blackbox_ai/telemetry/pipeline.py:100-176` | the pipeline never holds a capture that was not submitted |
| `SystemTheory.PipelineProjects` | `src/blackbox_ai/proxy/relay.py:273-275` | every run of the gateway contains a run of the pipeline, so its theorems hold there |
| `SystemTheory.LimiterProjects` | `src/blackbox_ai/proxy/relay.py:120-126` | every run of the gateway contains a run of the limiter under a monotone clock |
| `SystemTheory.RateLimitedExactly` | `src/blackbox_ai/proxy/relay.py:335-347` | an authentic request gets a 429 exactly when the full history of its key denies it, quoting that retry time |
| `SystemTheory.OneCapturePerAnswer` | `src/blackbox_ai/proxy/relay.py:265-275` | each request: telemetry is told exactly once if its response was handed off and has finished, and otherwise never |
| `SystemTheory.RunProjects` | `src/blackbox_ai/proxy/relay.py:240-276` | forgetting telemetry and the collection turns any run that delivers only hits it may give into a run of the relay alone |
| `SystemTheory.TelemetryOnlyDecidesHits` | `src/blackbox_ai/proxy/relay.py:131-140` | cache on or off, equal data-plane schedules of such runs give equal client bytes, statuses and rejections |
| `SystemTheory.TelemetryCannotInterfere` | `src/blackbox_ai/proxy/relay.py:240-276` | with the cache off, equal data-plane schedules give equal client bytes, statuses and rejections whatever telemetry does |
| `SystemExample.HitIsReachable` | `src/blackbox_ai/proxy/relay.py:131-140` | there is a run that ends in a hit |
| `Sse.IterSseEvents` | `src/blackbox_ai/telemetry/parsers/base.py:64-94` | the loop yields the events of the specification |
| `Sse.TruncationSafety` | `src/blackbox_ai/telemetry/parsers/base.py:64-94` | any prefix of any text yields a prefix of its events and at most one more |
| `Sse.PrintThenRead` | `src/blackbox_ai/telemetry/parsers/base.py:64-94` | for any line terminator, reading printed events returns them, and what follows is read as if alone |
| `Sse.CommentsAreInvisible` | `src/blackbox_ai/telemetry/parsers/base.py:85-86` | a comment line changes nothing |
| `Sse.NoEvents` | `src/blackbox_ai/telemetry/parsers/base.py:64-94` | a text without a data line has no events |
| `Sse.BreakExactly` | `src/blackbox_ai/telemetry/parsers/base.py:80` | the characters a line breaks at, by code point |
| `Sse.OneLine` | `src/blackbox_ai/telemetry/parsers/base.py:80` | a text without breaks, a terminator and more text are that line and the lines of the rest |
| `Sse.FieldExactly` | `src/blackbox_ai/telemetry/parsers/base.py:87-89` | the first colon splits a line, and one space after it is dropped |
| `Parsing.LooksLikeSseExactly` | `src/blackbox_ai/telemetry/parsers/base.py:57-61` | by position: `event-stream` in the type, or `data:` within the first 512 characters |
| `Parsing.SpaceExactly` | `src/blackbox_ai/telemetry/parsers/openai_sse.py:73` | the characters `strip` removes, by code point |
| `Parsing.LatestExactly` | `src/blackbox_ai/telemetry/parsers/openai_sse.py:108-118` | where empty values do not count, the last non-empty one wins |
| `Parsing.LatestKnownExactly` | `src/blackbox_ai/telemetry/parsers/openai_sse.py:125-134` | where only absence does not count, the last value present wins |
| `Parsing.EntryExactly` | `src/blackbox_ai/telemetry/parsers/openai_sse.py:54-63` | of a tool call, only non-empty argument text that decodes is replaced, by what it decodes to |
| `Parsing.QuotingReply` | `src/blackbox_ai/telemetry/parsers/base.py:57-61` | one-line JSON that quotes `data:` early has no data line and looks like an event stream all the same |
| `Parsing.QuotingReplyExists` | `src/blackbox_ai/telemetry/parsers/base.py:57-61` | a concrete one |
| `Sse.CutPrintedStream` | `src/blackbox_ai/telemetry/parsers/base.py:64-94` | a cut printed stream reads as a prefix of its events and at most a remnant of the next: same name, a prefix of its data |
| `SseStandard.ReadsAsStandardExactly` | `src/blackbox_ai/telemetry/parsers/base.py:64-94` | on text without a byte order mark or other break characters: the standard's events, and one more exactly when a data line has no blank line after it |
| `SseStandard.EndDispatches` | `src/blackbox_ai/telemetry/parsers/base.py:94` | the end of the text dispatches what the standard discards |
| `SseStandard.OtherBreaksSplit` | `src/blackbox_ai/telemetry/parsers/base.py:80` | any other break character splits a line the standard keeps whole |
| `SseStandard.ByteOrderMarkLosesField` | `src/blackbox_ai/telemetry/parsers/base.py:80-92` | a byte order mark makes the reader lose the field it stands before |
| `SseStandard.ByteOrderMarkLosesLine` | `src/blackbox_ai/telemetry/parsers/base.py:80-92` | with a leading mark the reading is that of the text without its first line, whatever that line is |
| `SseStandard.MarkBeforeIdleLine` | `src/blackbox_ai/telemetry/parsers/base.py:80-92` | before a line that sets nothing, the condition for agreeing with the standard is the plain one |
| `OpenAi.ToolAccumulator.Add` | `src/blackbox_ai/telemetry/parsers/openai_sse.py:34-43` | one fragment updates its own slot, creating it in order of first appearance |
| `OpenAi.ToolAccumulator.AddComplete` | `src/blackbox_ai/telemetry/parsers/openai_sse.py:45-52` | a complete call takes the next slot |
| `OpenAi.ToolAccumulator.Finish` | `src/blackbox_ai/telemetry/parsers/openai_sse.py:54-63` | slots are listed in order, arguments decoded where they decode |
| `OpenAi.SlotsSpellTheirFragments` | `src/blackbox_ai/telemetry/parsers/openai_sse.py:34-43` | each index holds the last non-empty id and name and the concatenated arguments of its own fragments, in order of first appearance |
| `OpenAi.InterleavingIsIrrelevant` | `src/blackbox_ai/telemetry/parsers/openai_sse.py:34-63` | interleavings of the same per-index fragments give the same slots, in an order that is a permutation, and the same list if first appearances agree |
| `OpenAi.ParseStream` | `src/blackbox_ai/telemetry/parsers/openai_sse.py:97-123` | the loops compute, field by field, what the decoded payloads say, and the status |
| `OpenAi.ApplyUsage` | `src/blackbox_ai/telemetry/parsers/openai_sse.py:125-134` | each counter is the last one reported |
| `OpenAi.ParseSingle` | `src/blackbox_ai/telemetry/parsers/openai_sse.py:79-95` | the single form reads the first choice and all its tool calls |
| `OpenAi.Parse` | `src/blackbox_ai/telemetry/parsers/openai_sse.py:71-77` | blank text fails; streamed or event-like text is read as a stream |
| `OpenAiTheory.CollectIsInOrder` | `src/blackbox_ai/telemetry/parsers/openai_sse.py:45-52` | complete calls land in slots 0, 1, 2, ... in order |
| `OpenAiTheory.StreamedEqualsSingleExactly` | `src/blackbox_ai/telemetry/parsers/openai_sse.py:71-123` | for any splitting of a one-choice completion into chunks, and a single form that is not itself an event stream: the two parse alike exactly when nothing is lost (no empty model, finish reason, id or name, no content there in only one form, no arguments their text does not decode to) and the single form is not taken for a stream |
| `OpenAiTheory.SingleTakenForStream` | `src/blackbox_ai/telemetry/parsers/openai_sse.py:71-77` | one-line JSON that came chunked, or that quotes `data:` early, reads as nothing |
| `OpenAiTheory.StreamedEqualsSingle` | `src/blackbox_ai/telemetry/parsers/openai_sse.py:71-123` | so a well-formed completion reads alike in both forms, or as nothing when its single form is taken for a stream |
| `OpenAiTheory.NullAndEmptyContentDiffer` | `src/blackbox_ai/telemetry/parsers/openai_sse.py:113-119` | content null and content "" that only one form shows |
| `OpenAiChoices.SeveralChoicesExactly` | `src/blackbox_ai/telemetry/parsers/openai_sse.py:71-123` | for any splitting of a completion with any number of choices: the two texts parse alike exactly when the model is not empty, content, finish reason and tools each survive the folding, and the single form is not taken for a stream |
| `OpenAiChoices.TwoChoicesFold` | `src/blackbox_ai/telemetry/parsers/openai_sse.py:111-114` | two choices with text are one text in the stream, and only the first in the single form |
| `OpenAiChoices.ContentOfChoicesExactly` | `src/blackbox_ai/telemetry/parsers/openai_sse.py:111-114` | content agrees exactly when no later choice contributes text and a delta arrives exactly if the first has content |
| `OpenAiChoices.FinishOfChoicesExactly` | `src/blackbox_ai/telemetry/parsers/openai_sse.py:117-118` | the finish reason agrees exactly when the last choice to send one has the first one's |
| `OpenAiChoices.ToolsOfChoicesExactly` | `src/blackbox_ai/telemetry/parsers/openai_sse.py:115-116` | the tool table is the first choice's exactly when none has more calls and each slot's id, name and argument text is the first's |
| `OpenAiChoices.ToolListOfChoicesExactly` | `src/blackbox_ai/telemetry/parsers/openai_sse.py:54-63` | the same for the list returned: a slot's text stands for the first choice's arguments when nobody else added to it, or when it decodes to the same value |
| `OpenAiTheory.TruncatedStream` | `src/blackbox_ai/telemetry/parsers/openai_sse.py:71-123` | a cut stream as `parse` reads it: an empty body, or its first m events, except that a payload cut in two makes the status partial; content and fragments are prefixes of the whole |
| `OpenAiEvents.EventIsPayload` | `src/blackbox_ai/telemetry/parsers/base.py:97-102` | every event is a payload but the end marker |
| `OpenAiEvents.ChunkSays` | `src/blackbox_ai/telemetry/parsers/openai_sse.py:108-111` | one more chunk: its model unless empty, each usage count it gives, its choices |
| `OpenAiEvents.ChoiceSays` | `src/blackbox_ai/telemetry/parsers/openai_sse.py:112-118` | one more choice: its text and fragments are appended, its finish reason counts unless empty |
| `OpenAiEvents.FragmentSays` | `src/blackbox_ai/telemetry/parsers/openai_sse.py:34-43` | one more fragment: which slot it goes to, and what that slot then holds |
| `OpenAiEvents.CompleteCallSays` | `src/blackbox_ai/telemetry/parsers/openai_sse.py:45-52` | one more complete call takes the next slot; absent arguments are the empty text |
| `OpenAiEvents.StreamResult` | `src/blackbox_ai/telemetry/parsers/openai_sse.py:97-120` | the result of a stream, field by field, from what its chunks say |
| `OpenAiEvents.UnparsedExactly` | `src/blackbox_ai/telemetry/parsers/openai_sse.py:101-122` | unparsed iff nothing but end markers came |
| `OpenAiEvents.PartialExactly` | `src/blackbox_ai/telemetry/parsers/openai_sse.py:103-106` | partial iff something other than an end marker did not decode |
| `OpenAiEvents.SingleResult` | `src/blackbox_ai/telemetry/parsers/openai_sse.py:79-95` | the result of the single form: the first choice, and nothing of it without one |
| `Anthropic.Reading.ApplyUsage` | `src/blackbox_ai/telemetry/parsers/anthropic_sse.py:138-147` | counters are the last reported, and the total is refreshed when both are known |
| `Anthropic.Reading.StartBlock` | `src/blackbox_ai/telemetry/parsers/anthropic_sse.py:86-93` | a tool start resets its index and keeps its place |
| `Anthropic.Reading.ApplyBlockDelta` | `src/blackbox_ai/telemetry/parsers/anthropic_sse.py:108-124` | a delta extends its part list or its started block, or is dropped |
| `Anthropic.Reading.Read` | `src/blackbox_ai/telemetry/parsers/anthropic_sse.py:81-100` | the dispatch on one event: the reading after it is that of `Next`, which the `AnthropicEvents` rows spell out per event name |
| `Anthropic.Reading.FinalizeTools` | `src/blackbox_ai/telemetry/parsers/anthropic_sse.py:126-136` | blocks are listed in order, arguments decoded where they decode |
| `Anthropic.ParseStream` | `src/blackbox_ai/telemetry/parsers/anthropic_sse.py:69-106` | the loop computes, field by field, what the decoded events say, and the status |
| `Anthropic.ParseSingle` | `src/blackbox_ai/telemetry/parsers/anthropic_sse.py:41-67` | the single form collects its blocks by type, in order |
| `AnthropicTheory.BlocksSpellTheirSteps` | `src/blackbox_ai/telemetry/parsers/anthropic_sse.py:86-124` | each index holds its last start and every piece after it, in order of first start |
| `AnthropicTheory.InterleavingIsIrrelevant` | `src/blackbox_ai/telemetry/parsers/anthropic_sse.py:86-136` | interleavings of the same per-index events give the same blocks, up to the order of first starts |
| `AnthropicTheory.EarlyPiecesAreDropped` | `src/blackbox_ai/telemetry/parsers/anthropic_sse.py:121-124` | pieces before the first start of their index are lost |
| `AnthropicTheory.StartedBlockIsWhole` | `src/blackbox_ai/telemetry/parsers/anthropic_sse.py:86-124` | a block started before its pieces loses none |
| `AnthropicTheory.StreamedEqualsSingleExactly` | `src/blackbox_ai/telemetry/parsers/anthropic_sse.py:33-106` | for a single form that is not itself an event stream: the two forms parse alike exactly when every tool's concatenated text reads as its input, text and thinking show in both forms or in neither, model and stop reason are not empty strings, and the single form is not taken for a stream |
| `AnthropicTheory.SingleTakenForStream` | `src/blackbox_ai/telemetry/parsers/anthropic_sse.py:33-39` | one-line JSON that came chunked, or that quotes `data:` early, reads as nothing |
| `AnthropicTheory.EmptyInputReadsDifferently` | `src/blackbox_ai/telemetry/parsers/anthropic_sse.py:126-136` | in any reply, a tool streamed without input text reads as "" and the tools differ from the single form's |
| `AnthropicTheory.ToolWithoutInput` | `src/blackbox_ai/telemetry/parsers/anthropic_sse.py:126-136` | such a reply exists: one tool start, no delta |
| `AnthropicTheory.EmptyTextReadsDifferently` | `src/blackbox_ai/telemetry/parsers/anthropic_sse.py:101-102` | a text block without a delta reads as no content, where the single form has "" |
| `AnthropicTheory.EmptyTextBlockStreams` | `src/blackbox_ai/telemetry/parsers/anthropic_sse.py:101-102` | such a reply exists |
| `AnthropicTheory.TruncatedStream` | `src/blackbox_ai/telemetry/parsers/anthropic_sse.py:33-106` | a cut stream as `parse` reads it: an empty body, or its first m events, except that an event cut in two makes the status partial; content and reasoning are prefixes |
| `AnthropicEvents.UsageExactly` | `src/blackbox_ai/telemetry/parsers/anthropic_sse.py:81-147` | input and output are each the last count reported by a `message_start` in its message or by a `message_delta` itself, none when none reports, and the total is their sum |
| `AnthropicEvents.EventIsDispatched` | `src/blackbox_ai/telemetry/parsers/anthropic_sse.py:75-81` | an event that does not decode is passed over; any other goes by its own name, or by its type without one |
| `AnthropicEvents.MessageStartSays` | `src/blackbox_ai/telemetry/parsers/anthropic_sse.py:82-85` | the model unless empty, and the usage of the message |
| `AnthropicEvents.MessageDeltaSays` | `src/blackbox_ai/telemetry/parsers/anthropic_sse.py:96-100` | the stop reason unless empty, and the usage of the event |
| `AnthropicEvents.BlockStartSays` | `src/blackbox_ai/telemetry/parsers/anthropic_sse.py:86-93` | a tool block is (re)started at its index, 0 by default; nothing else is said |
| `AnthropicEvents.TextDeltaSays` | `src/blackbox_ai/telemetry/parsers/anthropic_sse.py:115-120` | text and thinking are appended each to its own list |
| `AnthropicEvents.InputDeltaSays` | `src/blackbox_ai/telemetry/parsers/anthropic_sse.py:121-124` | tool input is appended to its block if that was started, and else dropped |
| `AnthropicEvents.OtherEventsSayNothing` | `src/blackbox_ai/telemetry/parsers/anthropic_sse.py:82-100` | any other event changes nothing |
| `AnthropicEvents.StreamResult` | `src/blackbox_ai/telemetry/parsers/anthropic_sse.py:69-106` | the result of a stream and its status, field by field, from what its events say |
| `AnthropicEvents.SingleBlockSays` | `src/blackbox_ai/telemetry/parsers/anthropic_sse.py:50-63` | one more block of the single form, by its type |
| `AnthropicEvents.SingleResult` | `src/blackbox_ai/telemetry/parsers/anthropic_sse.py:41-67` | the result of the single form, from what its blocks say |
| `Breaker.CircuitBreaker.constructor` | `src/blackbox_ai/telemetry/embeddings.py:44-55` | a new breaker is closed; its threshold is the one given, or 1 when that is less than 1 |
| `Breaker.CircuitBreaker.Allows` | `src/blackbox_ai/telemetry/embeddings.py:57-61` | a call is refused iff the breaker is open and the cooldown has not passed; nothing changes |
| `Breaker.CircuitBreaker.RecordSuccess` | `src/blackbox_ai/telemetry/embeddings.py:63-65` | a success closes the breaker |
| `Breaker.CircuitBreaker.RecordFailure` | `src/blackbox_ai/telemetry/embeddings.py:67-70` | a failure counts, and sets the opening time iff as many as configured have now failed in a row |
| `Breaker.CircuitBreaker.RecordOthers` | `src/blackbox_ai/telemetry/embeddings.py:63-70` | what other tasks record while one waits |
| `Breaker.BreakerRefinesHistory` | `src/blackbox_ai/telemetry/embeddings.py:57-70` | the counter is the trailing run of failures; refusal iff that run is at least one and as long as configured and the last failure is less than the cooldown old |
| `Breaker.TrialIsNotReserved` | `src/blackbox_ai/telemetry/embeddings.py:57-61` | until an outcome is recorded every later caller is let in too |
| `Breaker.CallsAfterTheTrip` | `src/blackbox_ai/telemetry/embeddings.py:57-70` | once tripped, n more sequential failing calls take at least n cooldowns |
| `Breaker.OutageIsPaced` | `src/blackbox_ai/telemetry/embeddings.py:157-176` | from a closed breaker, the n calls after as many failures as configured, or after one, take at least n cooldowns |
| `Breaker.PaceIsAttained` | `src/blackbox_ai/telemetry/embeddings.py:57-70` | that bound is reached, so it cannot be improved |
| `Breaker.CooldownsMultiply` | `src/blackbox_ai/telemetry/embeddings.py:57-70` | n cooldowns added up are n times the cooldown |
| `Embeddings.VoyageEmbedder.EmbedBatch` | `src/blackbox_ai/telemetry/embeddings.py:157-176` | skipped, failed or answered, with the breaker's record and what was sent, whatever other workers record before and during the call |
| `Embeddings.VoyageEmbedder.EmbedMany` | `src/blackbox_ai/telemetry/embeddings.py:144-155` | output length is input length, and each position holds what its own place in its own batch brought |
| `Embeddings.Scatter` | `src/blackbox_ai/telemetry/embeddings.py:153-154` | vectors go back to the positions their texts came from; the shorter list ends it |
| `Embeddings.BatchingIsTransparent` | `src/blackbox_ai/telemetry/embeddings.py:144-155` | for a per-text service each non-blank position holds its own clipped text's vector, or None exactly when its batch was skipped or failed |
| `Embeddings.SkippedExactly` | `src/blackbox_ai/telemetry/embeddings.py:157-160` | a batch is skipped exactly while the breaker is tripped by all outcomes so far, whoever recorded them, for the history built batch by batch |
| `Embeddings.BatchSizeIsIrrelevant` | `src/blackbox_ai/telemetry/embeddings.py:144-155` | nobody's calls failing, any two batch sizes give the same vectors: the pointwise map |
| `Embeddings.SentAtMostOnce` | `src/blackbox_ai/telemetry/embeddings.py:147-150` | each text is sent at most once, clipped, exactly when non-blank and its batch was let through |
| `Embeddings.TurnGrows` | `src/blackbox_ai/telemetry/embeddings.py:157-176` | what one batch adds to the history of outcomes: nothing of its own when skipped, else a success or a failure after what others record |
| `Embeddings.ClipExactly` | `src/blackbox_ai/telemetry/embeddings.py:200-201` | a text is cut to its first 32000 characters |
| `Embeddings.PlaceExactly` | `src/blackbox_ai/telemetry/embeddings.py:148-149` | the batch and the offset of the r-th gathered text |
| `Embeddings.BatchesExactly` | `src/blackbox_ai/telemetry/embeddings.py:148` | as few batches as can hold the texts |
| `Embeddings.StripExactly` | `src/blackbox_ai/telemetry/embeddings.py:193-196` | stripping takes white space off both ends, all of it and nothing else |
| `Embeddings.PreferenceExactly` | `src/blackbox_ai/telemetry/embeddings.py:192-197` | reasoning is embedded if it holds more than white space, else content if it does, else the prompt |
| `Embeddings.EmbedStage.Process` | `src/blackbox_ai/telemetry/stages.py:97-107` | every document gets the vector of its own text and no other; the counter counts them |
| `Embeddings.EmbedStage.Attach` | `src/blackbox_ai/telemetry/stages.py:103-107` | the in-place loop over records and vectors |

## Left out

- SHA-256: a cache key is the text that is hashed, so the digest is taken to be injective; bodies holding lone surrogates, which cannot be encoded, are not modelled.
- Keys.KeyIsExact: assumes separator-free provider names and methods, because without that it is false (`SeparatorInProviderCollides`); `KeyIsFrontAndBody` assumes nothing. `upper` is modelled on ASCII letters only, which is what HTTP methods are made of.
- Numbers in request bodies keep the text Python prints for them; `default=str` never applies to parsed JSON.
- Authentication, client-key derivation, the opt-in header and credential headers are outcomes carried by the request; URL building is absent.
- Timing, latency and request-context fields of captures, metrics labels and logging carry no behaviour here.
- JSON decoding in the response parsers is a partial function; fields of an unexpected type are not modelled, nor is UTF-8 decoding.
- SseStandard.ReadsAsStandardExactly: on text with other break characters only the witness is given, not an exact condition; a mark before a data or type line has its reading described (`ByteOrderMarkLosesLine`), not the condition for agreeing.
- OpenAiTheory.StreamedEqualsSingleExactly: assumes that tool indices first appear as 0, 1, 2, ...; another order only permutes the tools (`InterleavingIsIrrelevant`). The single form is assumed not to read as a whole event stream; JSON can only do that when a string in it holds a raw line break character such as U+2028, and `NoDataLineNoStream` covers every other.
- AnthropicTheory.StreamedEqualsSingleExactly: the single form is assumed not to read as a whole event stream, as above.
- OpenAi.Extend: fragments and complete calls are never mixed in one accumulator, so extending arguments that are not text leaves them unchanged.
- Gemini and Ollama parsers, newline-delimited JSON and replay export: the same loop shapes with less state.
- Worker crashes and exceptions outside the stages' stated fail-open contract; a second `start()` or `stop()` after a stop.
- A body generator that is handed off is started and later finished or closed, and closing the upstream response returns.
- MongoDB drivers, Queryable Encryption, indexes and search: an insert happens or not, a query answers as `find_one` documents.
- The collection is a set, so two identical documents put at the same instant are one.
- Breaker.OutageIsPaced: stated for one sequential caller, because the trial call is not reserved.
- The prompt taken from a request payload for embedding is a parameter of `EmbeddingText`; its provider-specific extraction is not modelled.
- Floating-point rounding: clocks and durations are reals.
