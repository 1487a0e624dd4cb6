// The whole gateway: relay, telemetry pipeline and cache collection under one clock.

module System {
  import opened Common
  import opened Capture
  import opened Stages
  import Relay
  import Pipeline
  import Store

  datatype Config = Config(relay: Relay.Settings, pipeline: Pipeline.Config)

  datatype State = State(
    relay: Relay.State,
    pipeline: Pipeline.State,
    docs: set<Store.CacheDoc>,     // the cache collection
    ever: set<Store.CacheDoc>,     // every document ever inserted
    clock: real,
    reapedAt: real)                // when the TTL reaper last ran

  datatype Event =
    | Data(e: Relay.Event)                              // a step of the relay
    | Telemetry(w: Pipeline.Event, inserted: Option<real>)  // a step of the pipeline; a put samples `inserted`
    | Reap(doomed: set<Store.CacheDoc>)
    | Advance(to: real)

  ghost function Initial(cfg: Config, start: real): State {
    State(Relay.Initial(start), Pipeline.Initial(cfg.pipeline), {}, {}, start, start)
  }

  /** The capture a worker is putting into the cache, if that is where it stands. */
  function PuttingNow(p: Pipeline.State, w: nat): Option<RawCapture> {
    if Pipeline.InPhase(p, w) && p.workers[w].point.phase.Caching? && p.workers[w].point.phase.todo != []
    then Some(p.workers[w].point.phase.todo[0]) else None
  }

  /** A put, failed put or cancelled put may have inserted; a counted put has. */
  predicate InsertionFits(cfg: Config, s: State, w: Pipeline.Event, inserted: Option<real>) {
    match inserted
    case None => !(w.PutDone? && w.ok)
    case Some(at) =>
      && (w.PutDone? || w.Cancel?)
      && PuttingNow(s.pipeline, w.w).Some? && CacheableIdentity(PuttingNow(s.pipeline, w.w).value).Some?
      && at <= s.clock
  }

  predicate Enabled(cfg: Config, s: State, e: Event) {
    match e
    case Data(r) => Relay.Enabled(s.relay, s.docs, r)
    case Telemetry(w, inserted) => !w.Submit? && Pipeline.Enabled(cfg.pipeline, s.pipeline, w)
        && InsertionFits(cfg, s, w, inserted)
    case Reap(doomed) => doomed <= s.docs && forall d :: d in doomed ==> d.expiresAt <= s.clock
    case Advance(to) => s.clock <= to
  }

  /** A relay step; a body generator that finishes submits its capture on the way out. */
  ghost function DoData(cfg: Config, s: State, e: Relay.Event): State {
    var submitted := Relay.Submits(s.relay, s.docs, e);
    s.(relay := Relay.Step(cfg.relay, s.clock, s.docs, s.relay, e),
       pipeline := if submitted.Some? then Pipeline.Step(cfg.pipeline, s.pipeline, Pipeline.Submit(submitted.value))
           else s.pipeline)
  }

  function DoTelemetry(cfg: Config, s: State, w: Pipeline.Event, inserted: Option<real>): State
    requires Enabled(cfg, s, Telemetry(w, inserted))
  {
    var added := if inserted.Some?
        then {Store.DocumentOf(PuttingNow(s.pipeline, w.w).value, inserted.value, cfg.relay.ttl)} else {};
    s.(pipeline := Pipeline.Step(cfg.pipeline, s.pipeline, w), docs := s.docs + added, ever := s.ever + added)
  }

  ghost function Step(cfg: Config, s: State, e: Event): State {
    if !Enabled(cfg, s, e) then s else
    match e
    case Data(r) => DoData(cfg, s, r)
    case Telemetry(w, inserted) => DoTelemetry(cfg, s, w, inserted)
    case Reap(doomed) => s.(docs := s.docs - doomed, reapedAt := s.clock)
    case Advance(to) => s.(clock := to)
  }

  ghost function Run(cfg: Config, start: real, trace: seq<Event>): State {
    if trace == [] then Initial(cfg, start) else Step(cfg, Run(cfg, start, trace[..|trace| - 1]), trace[|trace| - 1])
  }
}
