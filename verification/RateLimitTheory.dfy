// Whole-trace theorems about the limiter: its own admissions fit every window, no other
// selection of arrivals that fits every window admits more, and retry times are exact.

module RateLimitTheory {
  import opened RateLimit

  // ----- Windows ----------------------------------------------------------------

  /** How many timestamps lie in the half-open window (x, x + window]. */
  function WindowCount(s: seq<real>, x: real, window: real): nat {
    if s == [] then 0
    else WindowCount(s[..|s| - 1], x, window) + if x < s[|s| - 1] <= x + window then 1 else 0
  }

  ghost predicate Fits(limits: Limits, s: seq<real>) {
    forall x :: WindowCount(s, x, limits.window) <= limits.maxRequests
  }

  /** The window bound on sorted timestamps, index by index. */
  ghost predicate Spaced(limits: Limits, s: seq<real>) {
    forall i, j :: 0 <= i && i + limits.maxRequests == j < |s| ==> s[i] <= s[j] - limits.window
  }

  lemma {:induction false} WindowCountAtLeast(s: seq<real>, x: real, window: real, from: nat)
    requires from <= |s|
    requires forall i :: from <= i < |s| ==> x < s[i] <= x + window
    ensures WindowCount(s, x, window) >= |s| - from
  {
    if from < |s| {
      WindowCountAtLeast(s[..|s| - 1], x, window, from);
    }
  }

  lemma {:induction false} WindowCountOfPrefix(s: seq<real>, n: nat, x: real, window: real)
    requires n <= |s|
    ensures WindowCount(s[..n], x, window) <= WindowCount(s, x, window) <= WindowCount(s[..n], x, window) + |s| - n
  {
    if n < |s| {
      assert s[..|s| - 1][..n] == s[..n];
      WindowCountOfPrefix(s[..|s| - 1], n, x, window);
    } else {
      assert s[..n] == s;
    }
  }

  lemma {:induction false} WindowCountNone(s: seq<real>, x: real, window: real)
    requires forall i :: 0 <= i < |s| ==> s[i] <= x
    ensures WindowCount(s, x, window) == 0
  {
    if s != [] {
      WindowCountNone(s[..|s| - 1], x, window);
    }
  }

  lemma FitsIsSpaced(limits: Limits, s: seq<real>)
    requires Ascending(s) && Fits(limits, s)
    ensures Spaced(limits, s)
  {
    forall i, j | 0 <= i && i + limits.maxRequests == j < |s| ensures s[i] <= s[j] - limits.window {
      var x := s[j] - limits.window;
      assert WindowCount(s, x, limits.window) <= limits.maxRequests;
      WindowCountOfPrefix(s, j + 1, x, limits.window);
      if s[i] > x {
        WindowCountAtLeast(s[..j + 1], x, limits.window, i);
      }
    }
  }

  lemma {:induction false} SpacedFitsAt(limits: Limits, s: seq<real>, x: real)
    requires Ascending(s) && Spaced(limits, s)
    ensures WindowCount(s, x, limits.window) <= limits.maxRequests
  {
    var n := |s| - 1;
    if s != [] && x < s[n] <= x + limits.window {
      if n >= limits.maxRequests {
        var m := n - limits.maxRequests;
        assert s[m] <= s[n] - limits.window;
        WindowCountNone(s[..m + 1], x, limits.window);
        WindowCountOfPrefix(s, m + 1, x, limits.window);
      } else {
        WindowCountOfPrefix(s, 0, x, limits.window);
      }
    } else if s != [] {
      SpacedFitsAt(limits, s[..n], x);
    }
  }

  // ----- Histories -----------------------------------------------------------------

  /** On a sorted history, what is newer than the cutoff is a suffix, and nothing before it is newer. */
  lemma NewerBoundary(h: seq<real>, c: real)
    requires Ascending(h)
    ensures |Newer(h, c)| <= |h|
    ensures Newer(h, c) == h[|h| - |Newer(h, c)|..]
    ensures forall i :: 0 <= i < |h| - |Newer(h, c)| ==> h[i] <= c
    ensures forall i :: |h| - |Newer(h, c)| <= i < |h| ==> h[i] > c
  {
    PruneIsNewer(h, c);
    PruneIsSuffix(h, c);
    PruneHead(h, c);
    DroppedIsOld(h, c);
  }

  lemma {:induction false} DroppedIsOld(b: seq<real>, c: real)
    ensures |Prune(b, c)| <= |b|
    ensures forall i :: 0 <= i < |b| - |Prune(b, c)| ==> b[i] <= c
  {
    if b != [] && b[0] <= c {
      DroppedIsOld(b[1..], c);
    }
  }

  /** When an arrival is admitted, in terms of the history alone. */
  lemma AdmissionByIndex(limits: Limits, h: seq<real>, now: real)
    requires Ascending(h)
    ensures FullDecision(limits, h, now).allowed
       <==> |h| < limits.maxRequests || h[|h| - limits.maxRequests] <= now - limits.window
  {
    NewerBoundary(h, now - limits.window);
  }

  lemma AdmissionKeepsSpaced(limits: Limits, h: seq<real>, now: real)
    requires Ascending(h) && Spaced(limits, h) && FullDecision(limits, h, now).allowed
    ensures Spaced(limits, h + [now])
  {
    AdmissionByIndex(limits, h, now);
  }

  lemma {:induction false} HistoryIsSpaced(limits: Limits, start: real, trace: seq<Arrival>, key: string)
    requires Monotone(start, trace)
    ensures var h := Admitted(limits, trace, key);
      && Ascending(h) && Spaced(limits, h) && (forall x :: x in h ==> x <= Clock(start, trace))
  {
    if trace != [] {
      var before := trace[..|trace| - 1];
      HistoryIsSpaced(limits, start, before, key);
      var h := Admitted(limits, before, key);
      assert Clock(start, before) <= Clock(start, trace);
      if FullDecision(limits, h, Clock(start, trace)).allowed {
        AdmissionKeepsSpaced(limits, h, Clock(start, trace));
      }
      AscendingAppend(h, Clock(start, trace));
    }
  }

  // ----- Selections of arrivals --------------------------------------------------------

  /** The timestamps of one key's arrivals picked by a selection. */
  function Chosen(trace: seq<Arrival>, key: string, selection: seq<bool>): seq<real>
    requires |selection| == |trace|
  {
    if trace == [] then []
    else
      var n := |trace| - 1;
      Chosen(trace[..n], key, selection[..n])
        + if trace[n].key == key && selection[n] then [trace[n].now] else []
  }

  /** The selection the limiter itself makes. */
  function Granted(limits: Limits, start: real, trace: seq<Arrival>): (g: seq<bool>)
    ensures |g| == |trace|
  {
    seq(|trace|, i requires 0 <= i < |trace| => Answer(limits, start, trace, i).allowed)
  }

  lemma GrantedOfPrefix(limits: Limits, start: real, trace: seq<Arrival>, n: nat)
    requires n <= |trace|
    ensures Granted(limits, start, trace)[..n] == Granted(limits, start, trace[..n])
  {
    forall i | 0 <= i < n ensures Granted(limits, start, trace)[i] == Granted(limits, start, trace[..n])[i] {
      assert trace[..n][..i] == trace[..i];
    }
  }

  lemma {:induction false} GrantedIsAdmitted(limits: Limits, start: real, trace: seq<Arrival>, key: string)
    requires Monotone(start, trace)
    ensures Chosen(trace, key, Granted(limits, start, trace)) == Admitted(limits, trace, key)
  {
    if trace != [] {
      var n := |trace| - 1;
      GrantedIsAdmitted(limits, start, trace[..n], key);
      LimiterRefinesFullHistory(limits, start, trace, n);
      GrantedOfPrefix(limits, start, trace, n);
    }
  }

  lemma {:induction false} ChosenIsAscending(start: real, trace: seq<Arrival>, key: string, selection: seq<bool>)
    requires Monotone(start, trace) && |selection| == |trace|
    ensures var s := Chosen(trace, key, selection);
      Ascending(s) && forall x :: x in s ==> x <= Clock(start, trace)
  {
    if trace != [] {
      var n := |trace| - 1;
      ChosenIsAscending(start, trace[..n], key, selection[..n]);
      assert Clock(start, trace[..n]) <= trace[n].now;
      AscendingAppend(Chosen(trace[..n], key, selection[..n]), trace[n].now);
    }
  }

  ghost predicate Ahead(g: seq<real>, s: seq<real>) {
    |s| <= |g| && forall i :: 0 <= i < |s| ==> g[i] <= s[i]
  }

  /** One more pick of a spaced competitor cannot overtake a limiter that is ahead. */
  lemma PickKeepsAhead(limits: Limits, g: seq<real>, s: seq<real>, now: real)
    requires Ascending(g) && (forall x :: x in g ==> x <= now)
    requires Ahead(g, s) && Spaced(limits, s + [now])
    ensures Ahead(if FullDecision(limits, g, now).allowed then g + [now] else g, s + [now])
  {
    AdmissionByIndex(limits, g, now);
    if |g| > |s| {
      assert g[|s|] in g;
    } else if |s| >= limits.maxRequests {
      var i, j, picked := |s| - limits.maxRequests, |s|, s + [now];
      assert i + limits.maxRequests == j < |picked|;
      assert picked[i] <= picked[j] - limits.window;
    }
  }

  /** Stay-ahead: the i-th admission of the limiter is never later than the i-th of a competitor. */
  lemma {:induction false} StayAhead(limits: Limits, start: real, trace: seq<Arrival>, key: string,
                                     selection: seq<bool>)
    requires Monotone(start, trace) && |selection| == |trace|
    requires Spaced(limits, Chosen(trace, key, selection))
    ensures Ahead(Admitted(limits, trace, key), Chosen(trace, key, selection))
  {
    if trace != [] {
      var n := |trace| - 1;
      var s := Chosen(trace[..n], key, selection[..n]);
      assert forall i :: 0 <= i < |s| ==> s[i] == Chosen(trace, key, selection)[i];
      StayAhead(limits, start, trace[..n], key, selection[..n]);
      HistoryIsSpaced(limits, start, trace[..n], key);
      assert Clock(start, trace[..n]) <= trace[n].now;
      if trace[n].key == key && selection[n] {
        PickKeepsAhead(limits, Admitted(limits, trace[..n], key), s, trace[n].now);
      }
    }
  }

  /**
   * Greedy optimality.  What the limiter grants one key fits every window of length
   * `window`, and no selection of that key's arrivals that fits every window is larger.
   */
  lemma LimiterIsOptimal(limits: Limits, start: real, trace: seq<Arrival>, key: string,
                                            selection: seq<bool>)
    requires Monotone(start, trace) && |selection| == |trace|
    ensures Fits(limits, Chosen(trace, key, Granted(limits, start, trace)))
    ensures Fits(limits, Chosen(trace, key, selection))
        ==> |Chosen(trace, key, selection)| <= |Chosen(trace, key, Granted(limits, start, trace))|
  {
    var g := Admitted(limits, trace, key);
    GrantedIsAdmitted(limits, start, trace, key);
    HistoryIsSpaced(limits, start, trace, key);
    forall x ensures WindowCount(g, x, limits.window) <= limits.maxRequests {
      SpacedFitsAt(limits, g, x);
    }
    if Fits(limits, Chosen(trace, key, selection)) {
      ChosenIsAscending(start, trace, key, selection);
      FitsIsSpaced(limits, Chosen(trace, key, selection));
      StayAhead(limits, start, trace, key, selection);
    }
  }

  // ----- Retry times --------------------------------------------------------------------

  lemma SpacedHistoryIsCapped(limits: Limits, h: seq<real>, now: real)
    requires Ascending(h) && Spaced(limits, h) && (forall x :: x in h ==> x <= now)
    ensures |Newer(h, now - limits.window)| <= limits.maxRequests
  {
    NewerBoundary(h, now - limits.window);
    if |h| > limits.maxRequests {
      var j := |h| - 1;
      var i := j - limits.maxRequests;
      assert i + limits.maxRequests == j;
      assert h[j] in h;
      assert h[i] <= h[j] - limits.window;
    }
  }

  /** A denial counts exactly the last `maxRequests` admissions and quotes when the oldest of them leaves. */
  lemma DenialQuotesOldest(limits: Limits, h: seq<real>, now: real)
    requires Ascending(h) && Spaced(limits, h) && (forall x :: x in h ==> x <= now)
    requires !FullDecision(limits, h, now).allowed
    ensures |h| >= limits.maxRequests
    ensures FullDecision(limits, h, now).retryAfter == h[|h| - limits.maxRequests] + limits.window - now
    ensures now - limits.window < h[|h| - limits.maxRequests] <= now
  {
    SpacedHistoryIsCapped(limits, h, now);
    NewerBoundary(h, now - limits.window);
    assert h[|h| - limits.maxRequests] in h;
  }

  /** Denied at `now` with this history: denied until the quoted instant, admitted from it on. */
  lemma DenialLastsExactly(limits: Limits, h: seq<real>, now: real, later: real)
    requires Ascending(h) && Spaced(limits, h) && now <= later && (forall x :: x in h ==> x <= now)
    requires !FullDecision(limits, h, now).allowed
    ensures var r := FullDecision(limits, h, now).retryAfter;
      0.0 < r <= limits.window && (FullDecision(limits, h, later).allowed <==> later >= now + r)
  {
    DenialQuotesOldest(limits, h, now);
    AdmissionByIndex(limits, h, later);
  }

  /** No check of `key` after position `i` and before position `j` falls at or after `instant`. */
  ghost predicate QuietBefore(trace: seq<Arrival>, key: string, i: nat, j: nat, instant: real)
    requires j <= |trace|
  {
    forall m :: i < m < j && trace[m].key == key ==> trace[m].now < instant
  }

  lemma {:induction false} DenialFreezesHistory(limits: Limits, start: real, trace: seq<Arrival>, i: nat, j: nat)
    requires Monotone(start, trace) && i < j <= |trace|
    requires !Answer(limits, start, trace, i).allowed
    requires QuietBefore(trace, trace[i].key, i, j, trace[i].now + Answer(limits, start, trace, i).retryAfter)
    ensures Admitted(limits, trace[..j], trace[i].key) == Admitted(limits, trace[..i], trace[i].key)
    decreases j
  {
    var key, h := trace[i].key, Admitted(limits, trace[..i], trace[i].key);
    LimiterRefinesFullHistory(limits, start, trace, i);
    assert trace[..j][..j - 1] == trace[..j - 1];
    if j > i + 1 {
      DenialFreezesHistory(limits, start, trace, i, j - 1);
      if trace[j - 1].key == key {
        PrefixMonotone(start, trace, i);
        HistoryIsSpaced(limits, start, trace[..i], key);
        DenialLastsExactly(limits, h, trace[i].now, trace[j - 1].now);
      }
    }
  }

  /**
   * Exact retry time.  After a denial quoting r, and whatever other keys do, a check of
   * the same key before now + r is denied, and the first one at or after now + r is admitted.
   */
  lemma RetryTimeIsExact(limits: Limits, start: real, trace: seq<Arrival>, i: nat, j: nat)
    requires Monotone(start, trace) && i < j < |trace| && trace[j].key == trace[i].key
    requires !Answer(limits, start, trace, i).allowed
    requires QuietBefore(trace, trace[i].key, i, j, trace[i].now + Answer(limits, start, trace, i).retryAfter)
    ensures var r := Answer(limits, start, trace, i).retryAfter;
      0.0 < r <= limits.window && (Answer(limits, start, trace, j).allowed <==> trace[j].now >= trace[i].now + r)
  {
    DenialFreezesHistory(limits, start, trace, i, j);
    LimiterRefinesFullHistory(limits, start, trace, i);
    LimiterRefinesFullHistory(limits, start, trace, j);
    PrefixMonotone(start, trace, i);
    HistoryIsSpaced(limits, start, trace[..i], trace[i].key);
    DenialLastsExactly(limits, Admitted(limits, trace[..i], trace[i].key), trace[i].now, trace[j].now);
  }

  /** The Retry-After header: whole seconds, rounded up, at least one. */
  function RetryAfterHeader(r: real): int {
    var ceiling := -((-r).Floor);
    if ceiling > 1 then ceiling else 1
  }

  /** The least whole number of seconds that is at least one and not too short. */
  lemma HeaderIsLeast(r: real, seconds: int)
    ensures RetryAfterHeader(r) >= 1 && RetryAfterHeader(r) as real >= r
    ensures seconds >= 1 && seconds as real >= r ==> RetryAfterHeader(r) <= seconds
  {
    var ceiling := -((-r).Floor);
    assert ceiling as real >= r && ceiling as real < r + 1.0;
  }

  /** Waiting the header out is enough when nobody else uses the key meanwhile. */
  lemma WaitingTheHeaderSuffices(limits: Limits, start: real, trace: seq<Arrival>, i: nat, j: nat)
    requires Monotone(start, trace) && i < j < |trace| && trace[j].key == trace[i].key
    requires !Answer(limits, start, trace, i).allowed
    requires forall m :: i < m < j ==> trace[m].key != trace[i].key
    requires trace[j].now >= trace[i].now + RetryAfterHeader(Answer(limits, start, trace, i).retryAfter) as real
    ensures Answer(limits, start, trace, j).allowed
  {
    RetryTimeIsExact(limits, start, trace, i, j);
  }
}
