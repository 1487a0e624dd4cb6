// The circuit breaker (telemetry/embeddings.py): two fields that stand for the whole history
// of outcomes, and what they guarantee during an outage.

module Breaker {
  import opened Common

  datatype Config = Config(threshold: int, cooldown: real)

  datatype State = State(failures: nat, openedAt: Option<real>)

  const CLOSED := State(0, None)

  function Threshold(cfg: Config): nat {
    if cfg.threshold > 1 then cfg.threshold else 1
  }

  function Allow(cfg: Config, s: State, now: real): bool {
    s.openedAt.None? || now - s.openedAt.value >= cfg.cooldown
  }

  function Success(s: State): State {
    CLOSED
  }

  function Failure(cfg: Config, s: State, now: real): State {
    State(s.failures + 1, if s.failures + 1 >= Threshold(cfg) then Some(now) else s.openedAt)
  }

  datatype Outcome = Succeeded | FailedAt(time: real)

  function Record(cfg: Config, s: State, o: Outcome): State {
    match o
    case Succeeded => Success(s)
    case FailedAt(t) => Failure(cfg, s, t)
  }

  function RecordAll(cfg: Config, s: State, h: seq<Outcome>): State {
    if h == [] then s else Record(cfg, RecordAll(cfg, s, h[..|h| - 1]), h[|h| - 1])
  }

  lemma {:induction false} RecordAllSplits(cfg: Config, s: State, a: seq<Outcome>, b: seq<Outcome>)
    ensures RecordAll(cfg, s, a + b) == RecordAll(cfg, RecordAll(cfg, s, a), b)
  {
    if b == [] {
      assert a + b == a;
    } else {
      assert (a + b)[..|a + b| - 1] == a + b[..|b| - 1];
      RecordAllSplits(cfg, s, a, b[..|b| - 1]);
    }
  }

  class CircuitBreaker {
    const cfg: Config
    const threshold: int
    var failures: nat
    var openedAt: Option<real>

    function Contents(): State
      reads this
    {
      State(failures, openedAt)
    }

    constructor (threshold: int, cooldown: real)
      ensures cfg == Config(threshold, cooldown) && failures == 0 && openedAt == None
      ensures this.threshold == if threshold >= 1 then threshold else 1
    {
      cfg := Config(threshold, cooldown);
      this.threshold := if 1 >= threshold then 1 else threshold;
      failures, openedAt := 0, None;
    }

    method Allows(now: real) returns (yes: bool)
      ensures yes == Allow(cfg, Contents(), now)
      ensures !yes <==> openedAt.Some? && now - openedAt.value < cfg.cooldown
    {
      if openedAt.None? {
        return true;
      }
      return now - openedAt.value >= cfg.cooldown;
    }

    method RecordSuccess()
      modifies this
      ensures Contents() == Success(old(Contents())) && failures == 0 && openedAt == None
    {
      failures, openedAt := 0, None;
    }

    method RecordFailure(now: real)
      requires threshold == Threshold(cfg)
      modifies this
      ensures Contents() == Failure(cfg, old(Contents()), now)
      ensures failures == old(failures) + 1
      ensures openedAt == if failures >= cfg.threshold then Some(now) else old(openedAt)
    {
      failures := failures + 1;
      if failures >= threshold {
        openedAt := Some(now);
      }
    }

    /** What other tasks record while this one waits. */
    method RecordOthers(outcomes: seq<Outcome>)
      requires threshold == Threshold(cfg)
      modifies this
      ensures Contents() == RecordAll(cfg, old(Contents()), outcomes)
    {
      for k := 0 to |outcomes|
        invariant Contents() == RecordAll(cfg, old(Contents()), outcomes[..k])
      {
        assert outcomes[..k + 1][..k] == outcomes[..k];
        match outcomes[k] {
          case Succeeded => RecordSuccess();
          case FailedAt(t) => RecordFailure(t);
        }
      }
      assert outcomes[..|outcomes|] == outcomes;
    }
  }

  // ----- The history behind the two fields ------------------------------------------------

  /** A breaker created closed, after a history of outcomes. */
  function After(cfg: Config, h: seq<Outcome>): State {
    RecordAll(cfg, CLOSED, h)
  }

  /** How many of the latest outcomes are failures in a row. */
  function TrailingRun(h: seq<Outcome>): (n: nat)
    ensures n <= |h|
    ensures forall j :: |h| - n <= j < |h| ==> h[j].FailedAt?
    ensures n < |h| ==> h[|h| - n - 1].Succeeded?
  {
    if h == [] || h[|h| - 1].Succeeded? then 0 else 1 + TrailingRun(h[..|h| - 1])
  }

  /** As many failures in a row as configured, and at least one. */
  ghost predicate LongRun(cfg: Config, h: seq<Outcome>) {
    TrailingRun(h) >= 1 && TrailingRun(h) >= cfg.threshold
  }

  /** Open: a long run, its last failure less than the cooldown ago. */
  ghost predicate Tripped(cfg: Config, h: seq<Outcome>, now: real) {
    LongRun(cfg, h) && now - h[|h| - 1].time < cfg.cooldown
  }

  lemma {:induction false} FieldsFollowHistory(cfg: Config, h: seq<Outcome>)
    ensures After(cfg, h).failures == TrailingRun(h)
    ensures After(cfg, h).openedAt == if LongRun(cfg, h) then Some(h[|h| - 1].time) else None
  {
    if h != [] {
      FieldsFollowHistory(cfg, h[..|h| - 1]);
    }
  }

  /** The breaker refines its history: calls are refused exactly while it is tripped. */
  lemma BreakerRefinesHistory(cfg: Config, h: seq<Outcome>, now: real)
    ensures After(cfg, h).failures == TrailingRun(h)
    ensures !Allow(cfg, After(cfg, h), now) <==> Tripped(cfg, h, now)
  {
    FieldsFollowHistory(cfg, h);
  }

  /** The trial call is not reserved: until an outcome is recorded, every later caller is let in too. */
  lemma TrialIsNotReserved(cfg: Config, h: seq<Outcome>, now: real, later: real)
    requires !Tripped(cfg, h, now) && now <= later
    ensures Allow(cfg, After(cfg, h), later)
  {
    BreakerRefinesHistory(cfg, h, now);
  }

  // ----- An outage seen by one sequential caller ------------------------------------------------

  /** One call: when it was let in and when its failure was recorded. */
  datatype Attempt = Attempt(start: real, end: real)

  function Outage(h: seq<Outcome>, calls: seq<Attempt>): seq<Outcome> {
    if calls == [] then h else Outage(h, calls[..|calls| - 1]) + [FailedAt(calls[|calls| - 1].end)]
  }

  /** Every call was allowed, came after the one before it was recorded, and failed. */
  ghost predicate SequentialOutage(cfg: Config, h: seq<Outcome>, calls: seq<Attempt>) {
    calls != [] ==>
      var before, call := calls[..|calls| - 1], calls[|calls| - 1];
      && SequentialOutage(cfg, h, before)
      && Allow(cfg, After(cfg, Outage(h, before)), call.start)
      && call.start <= call.end
      && (before != [] ==> before[|before| - 1].end <= call.start)
  }

  lemma {:induction false} OutageGrowsTheRun(cfg: Config, h: seq<Outcome>, calls: seq<Attempt>)
    ensures TrailingRun(Outage(h, calls)) == TrailingRun(h) + |calls|
    ensures calls != [] ==>
        Outage(h, calls) != [] && Outage(h, calls)[|Outage(h, calls)| - 1] == FailedAt(calls[|calls| - 1].end)
  {
    if calls != [] {
      OutageGrowsTheRun(cfg, h, calls[..|calls| - 1]);
      var before := Outage(h, calls[..|calls| - 1]);
      assert (before + [FailedAt(calls[|calls| - 1].end)])[..|before|] == before;
    }
  }

  /** n cooldowns, added up. */
  function Cooldowns(n: nat, cooldown: real): real {
    if n == 0 then 0.0 else Cooldowns(n - 1, cooldown) + cooldown
  }

  lemma {:induction false} CooldownsMultiply(n: nat, cooldown: real)
    ensures Cooldowns(n, cooldown) == n as real * cooldown
  {
    if n > 0 {
      CooldownsMultiply(n - 1, cooldown);
      OneMore((n - 1) as real, cooldown);
    }
  }

  lemma OneMore(r: real, cooldown: real)
    ensures (r + 1.0) * cooldown == r * cooldown + cooldown
  {
  }

  /** The next call of an outage starts a cooldown after the last failure. */
  lemma NextCallWaits(cfg: Config, h: seq<Outcome>, start: real)
    requires LongRun(cfg, h) && Allow(cfg, After(cfg, h), start)
    ensures start >= h[|h| - 1].time + cfg.cooldown
  {
    BreakerRefinesHistory(cfg, h, start);
  }

  /** Once tripped, n more calls of an unbroken outage take at least n cooldowns. */
  lemma {:induction false} CallsAfterTheTrip(cfg: Config, h: seq<Outcome>, calls: seq<Attempt>)
    requires LongRun(cfg, h) && SequentialOutage(cfg, h, calls) && calls != []
    ensures calls[|calls| - 1].start >= h[|h| - 1].time + Cooldowns(|calls|, cfg.cooldown)
  {
    var before, call := calls[..|calls| - 1], calls[|calls| - 1];
    OutageGrowsTheRun(cfg, h, before);
    NextCallWaits(cfg, Outage(h, before), call.start);
    assert Cooldowns(|calls|, cfg.cooldown) == Cooldowns(|before|, cfg.cooldown) + cfg.cooldown;
    if before != [] {
      CallsAfterTheTrip(cfg, h, before);
      assert before[|before| - 1].start <= before[|before| - 1].end;
    }
  }

  lemma {:induction false} OutageSplits(cfg: Config, h: seq<Outcome>, a: seq<Attempt>, b: seq<Attempt>)
    requires SequentialOutage(cfg, h, a + b)
    ensures SequentialOutage(cfg, h, a) && SequentialOutage(cfg, Outage(h, a), b)
    ensures Outage(h, a + b) == Outage(Outage(h, a), b)
    decreases |b|
  {
    if b == [] {
      assert a + b == a;
    } else {
      var init := b[..|b| - 1];
      assert (a + b)[..|a + b| - 1] == a + init;
      OutageSplits(cfg, h, a, init);
      assert init != [] ==> (a + init)[|a + init| - 1] == init[|init| - 1];
    }
  }

  /**
   * An unbroken outage from a closed breaker: the n calls made after the configured number of
   * failures, or after the first if fewer are configured, take at least n cooldowns.
   */
  lemma OutageIsPaced(cfg: Config, first: seq<Attempt>, more: seq<Attempt>)
    requires SequentialOutage(cfg, [], first + more) && more != []
    requires |first| == if cfg.threshold >= 1 then cfg.threshold else 1
    ensures more[|more| - 1].start - first[|first| - 1].end >= Cooldowns(|more|, cfg.cooldown)
  {
    OutageSplits(cfg, [], first, more);
    OutageGrowsTheRun(cfg, [], first);
    CallsAfterTheTrip(cfg, Outage([], first), more);
  }

  /** Calls at exactly one cooldown apart, each failing at once. */
  function Paced(from: real, cooldown: real, n: nat): seq<Attempt> {
    if n == 0 then []
    else
      var t := from + Cooldowns(n, cooldown);
      Paced(from, cooldown, n - 1) + [Attempt(t, t)]
  }

  /** The pace is reached, so the bound cannot be improved. */
  lemma {:induction false} PaceIsAttained(cfg: Config, h: seq<Outcome>, n: nat)
    requires LongRun(cfg, h) && cfg.cooldown >= 0.0
    ensures var calls := Paced(h[|h| - 1].time, cfg.cooldown, n);
      && |calls| == n && SequentialOutage(cfg, h, calls)
      && (n > 0 ==> calls[n - 1].start == calls[n - 1].end == h[|h| - 1].time + Cooldowns(n, cfg.cooldown))
  {
    if n > 0 {
      var from := h[|h| - 1].time;
      PaceIsAttained(cfg, h, n - 1);
      var t := from + Cooldowns(n, cfg.cooldown);
      assert t == from + Cooldowns(n - 1, cfg.cooldown) + cfg.cooldown;
      TrialAfterCooldown(cfg, h, Paced(from, cfg.cooldown, n - 1), t);
    }
  }

  /** One more instant trial, at least a cooldown after the last failure. */
  lemma TrialAfterCooldown(cfg: Config, h: seq<Outcome>, before: seq<Attempt>, t: real)
    requires LongRun(cfg, h) && SequentialOutage(cfg, h, before) && cfg.cooldown >= 0.0
    requires t - (if before == [] then h[|h| - 1].time else before[|before| - 1].end) >= cfg.cooldown
    ensures SequentialOutage(cfg, h, before + [Attempt(t, t)])
  {
    OutageGrowsTheRun(cfg, h, before);
    BreakerRefinesHistory(cfg, Outage(h, before), t);
    assert (before + [Attempt(t, t)])[..|before|] == before;
  }
}
