// The in-process sliding-window rate limiter (src/blackbox_ai/security/rate_limit.py).
//
// `Step` is one check as a function of its state; the class at the end updates buckets
// in place and is proved against it.  `FullDecision` is the reference: it keeps every
// admitted timestamp for ever and counts those newer than `now - window`.

module RateLimit {
  datatype Decision = Decision(allowed: bool, retryAfter: real)

  datatype Arrival = Arrival(key: string, now: real)

  datatype Config = Config(maxRequests: int, window: real) {
    predicate Valid() {
      maxRequests >= 1 && window > 0.0
    }
  }

  type Limits = c: Config | c.Valid() witness Config(1, 1.0)

  datatype State = State(hits: map<string, seq<real>>, lastGc: real)

  // ----- The limiter as a function of its state -------------------------------------------------

  function Bucket(hits: map<string, seq<real>>, key: string): seq<real> {
    if key in hits then hits[key] else []
  }

  /** What is left of a deque once timestamps at or before `cutoff` are popped off its left end. */
  function Prune(bucket: seq<real>, cutoff: real): seq<real> {
    if bucket != [] && bucket[0] <= cutoff then Prune(bucket[1..], cutoff) else bucket
  }

  predicate Stale(bucket: seq<real>, cutoff: real) {
    bucket == [] || bucket[|bucket| - 1] <= cutoff
  }

  /** Opportunistic collection of idle keys, at most once per window. */
  function Collect(limits: Limits, s: State, now: real): State {
    if now - s.lastGc < limits.window then s
    else
      var cutoff := now - limits.window;
      State(map k | k in s.hits && !Stale(s.hits[k], cutoff) :: s.hits[k], now)
  }

  /** The decision taken on a pruned bucket, and the bucket it leaves behind. */
  function Decide(limits: Limits, bucket: seq<real>, now: real): (seq<real>, Decision) {
    if |bucket| >= limits.maxRequests then
      var retry := bucket[0] + limits.window - now;
      (bucket, Decision(false, if retry > 0.0 then retry else 0.0))
    else
      (bucket + [now], Decision(true, 0.0))
  }

  function Step(limits: Limits, s: State, a: Arrival): (State, Decision) {
    var collected := Collect(limits, s, a.now);
    var (bucket, decision) := Decide(limits, Prune(Bucket(collected.hits, a.key), a.now - limits.window), a.now);
    (collected.(hits := collected.hits[a.key := bucket]), decision)
  }

  /** The state of a limiter created at `start` after the checks in `trace`. */
  function After(limits: Limits, start: real, trace: seq<Arrival>): State {
    if trace == [] then State(map[], start)
    else Step(limits, After(limits, start, trace[..|trace| - 1]), trace[|trace| - 1]).0
  }

  /** What the limiter answers to the check at position `i` of `trace`. */
  function Answer(limits: Limits, start: real, trace: seq<Arrival>, i: nat): Decision
    requires i < |trace|
  {
    Step(limits, After(limits, start, trace[..i]), trace[i]).1
  }

  // ----- The reference: full history -------------------------------------------

  function Newer(h: seq<real>, cutoff: real): seq<real> {
    if h == [] then []
    else Newer(h[..|h| - 1], cutoff) + if h[|h| - 1] > cutoff then [h[|h| - 1]] else []
  }

  function FullDecision(limits: Limits, h: seq<real>, now: real): Decision {
    var recent := Newer(h, now - limits.window);
    if |recent| < limits.maxRequests then Decision(true, 0.0)
    else Decision(false, recent[0] + limits.window - now)
  }

  /** Every timestamp of `key` that the reference admits in `trace`. */
  function Admitted(limits: Limits, trace: seq<Arrival>, key: string): seq<real> {
    if trace == [] then []
    else
      var a := trace[|trace| - 1];
      var h := Admitted(limits, trace[..|trace| - 1], key);
      if a.key == key && FullDecision(limits, h, a.now).allowed then h + [a.now] else h
  }

  // ----- Traces under a clock that never goes back -------------------------------

  predicate Ascending(b: seq<real>) {
    forall i, j :: 0 <= i < j < |b| ==> b[i] <= b[j]
  }

  predicate Monotone(start: real, trace: seq<Arrival>) {
    && (forall i :: 0 <= i < |trace| ==> start <= trace[i].now)
    && (forall i, j :: 0 <= i < j < |trace| ==> trace[i].now <= trace[j].now)
  }

  function Clock(start: real, trace: seq<Arrival>): real {
    if trace == [] then start else trace[|trace| - 1].now
  }

  // ----- Pruning and filtering agree on sorted buckets ------------------------------

  lemma {:induction false} PruneIsSuffix(b: seq<real>, c: real)
    ensures |Prune(b, c)| <= |b| && Prune(b, c) == b[|b| - |Prune(b, c)|..]
    ensures forall x :: x in Prune(b, c) ==> x in b
    ensures Ascending(b) ==> Ascending(Prune(b, c))
    ensures Prune(Prune(b, c), c) == Prune(b, c)
  {
    if b != [] && b[0] <= c {
      PruneIsSuffix(b[1..], c);
    }
  }

  lemma {:induction false} PruneHead(b: seq<real>, c: real)
    ensures Prune(b, c) != [] ==> Prune(b, c)[0] > c
  {
    if b != [] && b[0] <= c {
      PruneHead(b[1..], c);
    }
  }

  lemma {:induction false} PruneTwice(b: seq<real>, c: real, d: real)
    requires c <= d
    ensures Prune(Prune(b, c), d) == Prune(b, d)
  {
    if b != [] && b[0] <= c {
      PruneTwice(b[1..], c, d);
    }
  }

  lemma {:induction false} PruneAppend(b: seq<real>, x: real, c: real)
    requires x > c
    ensures Prune(b + [x], c) == Prune(b, c) + [x]
  {
    if b != [] && b[0] <= c {
      assert (b + [x])[1..] == b[1..] + [x];
      PruneAppend(b[1..], x, c);
    }
  }

  lemma {:induction false} PruneNothingLeft(b: seq<real>, c: real)
    requires Ascending(b)
    ensures Stale(b, c) <==> Prune(b, c) == []
  {
    if b != [] && b[0] <= c {
      PruneNothingLeft(b[1..], c);
    }
  }

  lemma {:induction false} NewerSplits(a: seq<real>, b: seq<real>, c: real)
    ensures Newer(a + b, c) == Newer(a, c) + Newer(b, c)
  {
    if b == [] {
      assert a + b == a;
    } else {
      assert (a + b)[..|a + b| - 1] == a + b[..|b| - 1];
      NewerSplits(a, b[..|b| - 1], c);
    }
  }

  lemma {:induction false} NewerKeepsAll(b: seq<real>, c: real)
    requires forall i :: 0 <= i < |b| ==> b[i] > c
    ensures Newer(b, c) == b
  {
    if b != [] {
      NewerKeepsAll(b[..|b| - 1], c);
    }
  }

  lemma {:induction false} PruneIsNewer(b: seq<real>, c: real)
    requires Ascending(b)
    ensures Prune(b, c) == Newer(b, c)
  {
    if b != [] && b[0] <= c {
      PruneIsNewer(b[1..], c);
      NewerSplits(b[..1], b[1..], c);
      assert b == b[..1] + b[1..];
      assert b[..1][..0] == [];
    } else {
      NewerKeepsAll(b, c);
    }
  }

  lemma AscendingAppend(b: seq<real>, x: real)
    requires Ascending(b) && forall y :: y in b ==> y <= x
    ensures Ascending(b + [x]) && forall y :: y in b + [x] ==> y <= x
  {
    forall i | 0 <= i < |b| ensures b[i] <= x {
      assert b[i] in b;
    }
  }

  // ----- The simulation ------------------------------------------------------------

  /** A retained bucket: non-empty, no longer than the limit, sorted, and young enough to have survived collection. */
  predicate GoodBucket(limits: Limits, s: State, b: seq<real>) {
    && 0 < |b| <= limits.maxRequests
    && Ascending(b)
    && b[|b| - 1] > s.lastGc - limits.window
  }

  /** A bucket and a full history that no later check can tell apart. */
  predicate Agree(bucket: seq<real>, h: seq<real>, now: real, window: real) {
    && Ascending(h)
    && (forall x :: x in h ==> x <= now)
    && (forall x :: x in bucket ==> x <= now)
    && Prune(bucket, now - window) == Prune(h, now - window)
  }

  predicate Tracks(limits: Limits, s: State, now: real, key: string, h: seq<real>) {
    Agree(Bucket(s.hits, key), h, now, limits.window)
  }

  ghost predicate Simulates(limits: Limits, start: real, trace: seq<Arrival>) {
    var s, now := After(limits, start, trace), Clock(start, trace);
    && s.lastGc <= now
    && (trace != [] ==> now - s.lastGc < limits.window)
    && (forall k :: k in s.hits ==> GoodBucket(limits, s, s.hits[k]))
    && (forall k :: Tracks(limits, s, now, k, Admitted(limits, trace, k)))
  }

  /** Collection changes no bucket that still counts at `now`. */
  lemma CollectIsInvisible(limits: Limits, s: State, now: real, key: string)
    requires key in s.hits ==> Ascending(s.hits[key])
    ensures Prune(Bucket(Collect(limits, s, now).hits, key), now - limits.window)
         == Prune(Bucket(s.hits, key), now - limits.window)
  {
    if key in s.hits {
      PruneNothingLeft(s.hits[key], now - limits.window);
    }
  }

  lemma DecideKeepsBucket(limits: Limits, b: seq<real>, now: real)
    requires Ascending(b) && |b| <= limits.maxRequests && forall x :: x in b ==> x <= now
    ensures var b' := Decide(limits, Prune(b, now - limits.window), now).0;
      && 0 < |b'| <= limits.maxRequests && Ascending(b')
      && (forall x :: x in b' ==> x <= now)
      && (b'[|b'| - 1] > now - limits.window || (b != [] && b'[|b'| - 1] == b[|b| - 1]))
  {
    PruneIsSuffix(b, now - limits.window);
    if |Prune(b, now - limits.window)| < limits.maxRequests {
      AscendingAppend(Prune(b, now - limits.window), now);
    }
  }

  lemma StepKeepsBuckets(limits: Limits, s: State, a: Arrival)
    requires s.lastGc <= a.now
    requires forall k :: k in s.hits ==> GoodBucket(limits, s, s.hits[k])
    requires forall k, x :: k in s.hits && x in s.hits[k] ==> x <= a.now
    ensures var s' := Step(limits, s, a).0;
      && s'.lastGc <= a.now && a.now - s'.lastGc < limits.window
      && (forall k :: k in s'.hits ==> GoodBucket(limits, s', s'.hits[k]))
      && (forall k, x :: k in s'.hits && x in s'.hits[k] ==> x <= a.now)
  {
    var b := Bucket(Collect(limits, s, a.now).hits, a.key);
    DecideKeepsBucket(limits, b, a.now);
  }

  lemma StepTracksOther(limits: Limits, s: State, now: real, a: Arrival, key: string, h: seq<real>)
    requires now <= a.now && key != a.key
    requires key in s.hits ==> Ascending(s.hits[key])
    requires Tracks(limits, s, now, key, h)
    ensures Tracks(limits, Step(limits, s, a).0, a.now, key, h)
  {
    var cutoff := a.now - limits.window;
    CollectIsInvisible(limits, s, a.now, key);
    PruneTwice(Bucket(s.hits, key), now - limits.window, cutoff);
    PruneTwice(h, now - limits.window, cutoff);
  }

  lemma AgreementCarriesForward(raw: seq<real>, h: seq<real>, c: real, d: real)
    requires c <= d && Prune(raw, c) == Prune(h, c)
    ensures Prune(raw, d) == Prune(h, d)
  {
    PruneTwice(raw, c, d);
    PruneTwice(h, c, d);
  }

  lemma PrunedAgrees(h: seq<real>, now: real, window: real)
    requires Ascending(h) && forall x :: x in h ==> x <= now
    ensures Agree(Prune(h, now - window), h, now, window)
  {
    PruneIsSuffix(h, now - window);
  }

  lemma AgreeAfterAdmission(p: seq<real>, h: seq<real>, now: real, window: real)
    requires Agree(p, h, now, window) && window > 0.0
    ensures Agree(p + [now], h + [now], now, window)
  {
    PruneAppend(p, now, now - window);
    PruneAppend(h, now, now - window);
    AscendingAppend(h, now);
    assert forall x :: x in p + [now] ==> x in p || x == now;
  }

  /** Deciding on the pruned history is deciding on the full history. */
  lemma DecideIsFullDecision(limits: Limits, h: seq<real>, now: real)
    requires Ascending(h)
    ensures Decide(limits, Prune(h, now - limits.window), now).1 == FullDecision(limits, h, now)
  {
    PruneHead(h, now - limits.window);
    PruneIsNewer(h, now - limits.window);
  }

  lemma DecideAgrees(limits: Limits, h: seq<real>, now: real)
    requires Ascending(h) && forall x :: x in h ==> x <= now
    ensures var (bucket, decision) := Decide(limits, Prune(h, now - limits.window), now);
      Agree(bucket, if decision.allowed then h + [now] else h, now, limits.window)
  {
    var p := Prune(h, now - limits.window);
    PrunedAgrees(h, now, limits.window);
    if |p| < limits.maxRequests {
      AgreeAfterAdmission(p, h, now, limits.window);
    }
  }

  /** What a step does to its own key, by the pruned bucket alone. */
  lemma StepDecides(limits: Limits, s: State, a: Arrival, p: seq<real>)
    requires p == Prune(Bucket(Collect(limits, s, a.now).hits, a.key), a.now - limits.window)
    ensures Step(limits, s, a).1 == Decide(limits, p, a.now).1
    ensures Bucket(Step(limits, s, a).0.hits, a.key) == Decide(limits, p, a.now).0
  {
  }

  lemma StepTracksSame(limits: Limits, s: State, now: real, a: Arrival, h: seq<real>)
    requires now <= a.now
    requires a.key in s.hits ==> Ascending(s.hits[a.key])
    requires Tracks(limits, s, now, a.key, h)
    ensures Step(limits, s, a).1 == FullDecision(limits, h, a.now)
    ensures Tracks(limits, Step(limits, s, a).0, a.now, a.key,
                   if FullDecision(limits, h, a.now).allowed then h + [a.now] else h)
  {
    CollectIsInvisible(limits, s, a.now, a.key);
    AgreementCarriesForward(Bucket(s.hits, a.key), h, now - limits.window, a.now - limits.window);
    DecideIsFullDecision(limits, h, a.now);
    DecideAgrees(limits, h, a.now);
    StepDecides(limits, s, a, Prune(h, a.now - limits.window));
  }

  lemma {:induction false} SimulationHolds(limits: Limits, start: real, trace: seq<Arrival>)
    requires Monotone(start, trace)
    ensures Simulates(limits, start, trace)
  {
    if trace != [] {
      var n := |trace| - 1;
      var before, a := trace[..n], trace[n];
      SimulationHolds(limits, start, before);
      var s, now := After(limits, start, before), Clock(start, before);
      assert forall k :: Tracks(limits, s, now, k, Admitted(limits, before, k));
      forall k, x | k in s.hits && x in s.hits[k] ensures x <= a.now {
        assert Tracks(limits, s, now, k, Admitted(limits, before, k));
      }
      StepKeepsBuckets(limits, s, a);
      forall k ensures Tracks(limits, After(limits, start, trace), a.now, k, Admitted(limits, trace, k)) {
        if k == a.key {
          StepTracksSame(limits, s, now, a, Admitted(limits, before, k));
        } else {
          StepTracksOther(limits, s, now, a, k, Admitted(limits, before, k));
        }
      }
    }
  }

  lemma PrefixMonotone(start: real, trace: seq<Arrival>, i: nat)
    requires i <= |trace| && Monotone(start, trace)
    ensures Monotone(start, trace[..i])
    ensures i < |trace| ==> Clock(start, trace[..i]) <= trace[i].now
  {
  }

  /** Refinement: pruning and collection never change an answer. */
  lemma LimiterRefinesFullHistory(limits: Limits, start: real, trace: seq<Arrival>, i: nat)
    requires Monotone(start, trace) && i < |trace|
    ensures Answer(limits, start, trace, i)
         == FullDecision(limits, Admitted(limits, trace[..i], trace[i].key), trace[i].now)
  {
    PrefixMonotone(start, trace, i);
    SimulationHolds(limits, start, trace[..i]);
    var s, now := After(limits, start, trace[..i]), Clock(start, trace[..i]);
    assert Tracks(limits, s, now, trace[i].key, Admitted(limits, trace[..i], trace[i].key));
    StepTracksSame(limits, s, now, trace[i], Admitted(limits, trace[..i], trace[i].key));
  }

  /** Bounded memory: what is retained after any run, and how recently each retained key was admitted. */
  lemma RetainedStateIsBounded(limits: Limits, start: real, trace: seq<Arrival>, key: string)
    requires Monotone(start, trace) && key in After(limits, start, trace).hits
    ensures var b := After(limits, start, trace).hits[key];
      && 0 < |b| <= limits.maxRequests
      && Ascending(b)
      && Clock(start, trace) - 2.0 * limits.window < b[|b| - 1] <= Clock(start, trace)
  {
    SimulationHolds(limits, start, trace);
    var s := After(limits, start, trace);
    assert Tracks(limits, s, Clock(start, trace), key, Admitted(limits, trace, key));
    assert GoodBucket(limits, s, s.hits[key]);
    var b := Bucket(s.hits, key);
    assert b[|b| - 1] in b;
    assert trace != [];
  }

  // ----- The limiter as it is written: buckets and the table change in place -----------

  class SlidingWindowRateLimiter {
    const limits: Limits
    var hits: map<string, seq<real>>
    var lastGc: real

    function Contents(): State
      reads this
    {
      State(hits, lastGc)
    }

    constructor (limits: Limits, now: real)
      ensures this.limits == limits && Contents() == After(limits, now, [])
    {
      this.limits := limits;
      hits := map[];
      lastGc := now;
    }

    /** The source's argument checks: `null` stands for the ValueError. */
    static method Create(maxRequests: int, window: real, now: real) returns (limiter: SlidingWindowRateLimiter?)
      ensures limiter == null <==> maxRequests < 1 || window <= 0.0
      ensures limiter != null ==> fresh(limiter) && limiter.limits == Config(maxRequests, window)
      ensures limiter != null ==> limiter.Contents() == After(limiter.limits, now, [])
    {
      if maxRequests < 1 || window <= 0.0 {
        return null;
      }
      limiter := new SlidingWindowRateLimiter(Config(maxRequests, window), now);
    }

    method Check(key: string, now: real) returns (decision: Decision)
      modifies this
      ensures (Contents(), decision) == Step(limits, old(Contents()), Arrival(key, now))
    {
      MaybeGc(now);
      var cutoff := now - limits.window;
      if key !in hits {
        hits := hits[key := []];
      }
      while hits[key] != [] && hits[key][0] <= cutoff
        invariant key in hits
        invariant Prune(hits[key], cutoff) == Prune(Bucket(Collect(limits, old(Contents()), now).hits, key), cutoff)
        invariant hits == Collect(limits, old(Contents()), now).hits[key := hits[key]]
        invariant lastGc == Collect(limits, old(Contents()), now).lastGc
        decreases |hits[key]|
      {
        hits := hits[key := hits[key][1..]];
      }
      if |hits[key]| >= limits.maxRequests {
        var retryAfter := hits[key][0] + limits.window - now;
        return Decision(false, if retryAfter > 0.0 then retryAfter else 0.0);
      }
      hits := hits[key := hits[key] + [now]];
      assert hits == Collect(limits, old(Contents()), now).hits[key := hits[key]];
      return Decision(true, 0.0);
    }

    method MaybeGc(now: real)
      modifies this
      ensures Contents() == Collect(limits, old(Contents()), now)
      ensures now - old(lastGc) < limits.window ==> Contents() == old(Contents())
      ensures now - old(lastGc) >= limits.window ==>
        && lastGc == now
        && (forall k :: k in hits ==> k in old(hits) && hits[k] == old(hits)[k])
        && forall k :: k in old(hits) ==>
            (k in hits <==> old(hits)[k] != [] && old(hits)[k][|old(hits)[k]| - 1] > now - limits.window)
    {
      if now - lastGc < limits.window {
        return;
      }
      lastGc := now;
      var cutoff := now - limits.window;
      var stale := set k | k in hits && Stale(hits[k], cutoff);
      var doomed := stale;
      while doomed != {}
        invariant doomed <= stale
        invariant hits == old(hits) - (stale - doomed)
        invariant lastGc == now
        decreases doomed
      {
        var key :| key in doomed;
        hits := hits - {key};
        doomed := doomed - {key};
      }
    }
  }
}
