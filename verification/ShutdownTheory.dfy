// The shutdown protocol: sentinels, live workers, the drain, and termination.

module ShutdownTheory {
  import opened Common
  import opened Capture
  import opened Stages
  import opened Pipeline
  import opened PipelineTheory

  // ----- Sentinel accounting ---------------------------------------------------------

  /** Sentinels `stop()` has put so far. */
  function PutSoFar(s: State): int {
    match s.stop
    case Running => 0
    case Putting(left) => |s.workers| - left
    case _ => |s.workers|
  }

  function Gone(w: Worker): nat {
    if w.point.Cancelled? then 1 else 0
  }

  predicate Accounted(s: State) {
    && (s.stop.Putting? ==> 0 < s.stop.left <= |s.workers|)
    && Sentinels(s.queue) + s.log.broke + s.log.discarded == PutSoFar(s)
    && Sum(Past, s.workers) <= s.log.broke <= Sum(Past, s.workers) + s.log.cancelled
    && (s.log.broke == 0 ==> s.log.discarded == 0)
    && s.log.cancelled == Sum(Gone, s.workers)
    && (s.log.cancelled > 0 ==> s.stop.Cancelling? || s.stop.Stopped?)
    && (s.log.cancelled == 0 ==> s.log.lost == multiset{})
    && (s.stop.Running? ==> s.log.late == 0)
    && (s.log.broke > 0 && s.log.late == 0 ==> Captures(s.queue) == [])
  }

  lemma WorkerStepKeepsAccounts(cfg: Config, s: State, e: Event, w: nat)
    requires Accounted(s) && Enabled(cfg, s, e)
    requires e in {Timeout(w), WriteFailed(w)} || ((e.EmbedDone? || e.WriteOk? || e.PutDone?) && e.w == w)
    ensures Accounted(Step(cfg, s, e))
  {
    SumUpdate(Past, s.workers, w, Step(cfg, s, e).workers[w]);
    SumUpdate(Gone, s.workers, w, Step(cfg, s, e).workers[w]);
  }

  lemma CancelKeepsAccounts(cfg: Config, s: State, w: nat)
    requires Accounted(s) && Enabled(cfg, s, Cancel(w))
    ensures Accounted(DoCancel(s, w))
  {
    SumUpdate(Past, s.workers, w, DoCancel(s, w).workers[w]);
    SumUpdate(Gone, s.workers, w, DoCancel(s, w).workers[w]);
  }

  lemma GetDataKeepsAccounts(cfg: Config, s: State, w: nat)
    requires Accounted(s) && Enabled(cfg, s, Get(w)) && s.queue[0].Data?
    ensures Accounted(DoGet(cfg, s, w))
  {
    SumUpdate(Past, s.workers, w, DoGet(cfg, s, w).workers[w]);
    SumUpdate(Gone, s.workers, w, DoGet(cfg, s, w).workers[w]);
  }

  lemma GetShutdownKeepsAccounts(cfg: Config, s: State, w: nat)
    requires Accounted(s) && Enabled(cfg, s, Get(w)) && s.queue[0].Shutdown?
    ensures Accounted(DoGet(cfg, s, w))
  {
    SumUpdate(Past, s.workers, w, DoGet(cfg, s, w).workers[w]);
    SumUpdate(Gone, s.workers, w, DoGet(cfg, s, w).workers[w]);
  }

  lemma SubmitKeepsAccounts(cfg: Config, s: State, c: RawCapture)
    requires Accounted(s)
    ensures Accounted(DoSubmit(cfg, s, c))
  {
    CapturesSplit(s.queue, [Data(c)]);
    SentinelsSplit(s.queue, [Data(c)]);
  }

  lemma PutKeepsAccounts(cfg: Config, s: State)
    requires Accounted(s) && Enabled(cfg, s, PutShutdown)
    ensures Accounted(Step(cfg, s, PutShutdown))
  {
    CapturesSplit(s.queue, [Shutdown]);
    SentinelsSplit(s.queue, [Shutdown]);
  }

  lemma StepKeepsAccounts(cfg: Config, s: State, e: Event)
    requires Accounted(s)
    ensures Accounted(Step(cfg, s, e))
  {
    if Enabled(cfg, s, e) {
      match e {
        case Submit(c) => SubmitKeepsAccounts(cfg, s, c);
        case PutShutdown => PutKeepsAccounts(cfg, s);
        case Get(w) =>
          if s.queue[0].Data? {
            GetDataKeepsAccounts(cfg, s, w);
          } else {
            GetShutdownKeepsAccounts(cfg, s, w);
          }
        case Cancel(w) => CancelKeepsAccounts(cfg, s, w);
        case StopCalled =>
        case JoinTimeout =>
        case JoinDone =>
        case _ => WorkerStepKeepsAccounts(cfg, s, e, e.w);
      }
    }
  }

  lemma {:induction false} RunIsAccounted(cfg: Config, trace: seq<Event>)
    ensures Accounted(Run(cfg, trace))
  {
    if trace == [] {
      SumBounds(Past, Run(cfg, trace).workers, 0);
      SumBounds(Gone, Run(cfg, trace).workers, 0);
    } else {
      RunIsAccounted(cfg, trace[..|trace| - 1]);
      StepKeepsAccounts(cfg, Run(cfg, trace[..|trace| - 1]), trace[|trace| - 1]);
    }
  }

  // ----- Safety ---------------------------------------------------------------------------

  /** Workers past their loop <= sentinels consumed <= sentinels put. */
  lemma ExitsAreBackedBySentinels(cfg: Config, trace: seq<Event>)
    ensures var s := Run(cfg, trace);
      Sum(Past, s.workers) <= s.log.broke + s.log.discarded <= PutSoFar(s)
  {
    RunIsAccounted(cfg, trace);
  }

  /**
   * An event that moves the shutdown forward: not a submission, an idle timeout, the join timeout or a
   * cancellation.
   */
  predicate Productive(s: State, e: Event) {
    match e
    case Submit(_) => false
    case Timeout(w) => At(s, w) && s.workers[w].batch != []
    case JoinTimeout => false
    case Cancel(_) => false
    case _ => true
  }

  lemma {:induction false} SumZeroAt<T>(f: T -> nat, xs: seq<T>, i: nat)
    requires Sum(f, xs) == 0 && i < |xs|
    ensures f(xs[i]) == 0
  {
    if i < |xs| - 1 {
      SumZeroAt(f, xs[..|xs| - 1], i);
    }
  }

  lemma NobodyGone(s: State, w: nat)
    requires Accounted(s) && s.log.cancelled == 0 && w < |s.workers|
    ensures !s.workers[w].point.Cancelled?
  {
    SumZeroAt(Gone, s.workers, w);
  }

  /** A worker that is flushing can always finish its current await. */
  lemma FlushCanProceed(cfg: Config, s: State, w: nat) returns (e: Event)
    requires WellShaped(cfg, s) && InPhase(s, w)
    ensures Enabled(cfg, s, e) && Productive(s, e)
  {
    assert GoodWorker(cfg, s.workers[w]);
    e := match s.workers[w].point.phase
         case Embedding(_) => EmbedDone(w, 0)
         case Writing(_) => WriteFailed(w)
         case Caching(_) => PutDone(w, false);
  }

  /**
   * While `stop()` still has a sentinel to put, some worker is in its loop, and something other than a
   * timeout can happen.
   */
  lemma NoDeadlockWhilePutting(cfg: Config, trace: seq<Event>) returns (w: nat, e: Event)
    requires Run(cfg, trace).stop.Putting?
    ensures var s := Run(cfg, trace);
      && At(s, w) && !Done(s.workers[w]) && Past(s.workers[w]) == 0
      && Enabled(cfg, s, e) && Productive(s, e)
  {
    RunIsAccounted(cfg, trace);
    RunKeepsInvariants(cfg, trace);
    var s := Run(cfg, trace);
    w := SumBelowLength(Past, s.workers);
    NobodyGone(s, w);
    if !Full(cfg, s.queue) {
      e := PutShutdown;
    } else if s.workers[w].point.Waiting? {
      e := Get(w);
    } else {
      e := FlushCanProceed(cfg, s, w);
    }
  }

  /**
   * The queue stays drained: once a sentinel has ended a loop, and unless something was
   * accepted after `stop()` began, no capture is ever queued again, whatever runs on.
   */
  lemma DrainedQueueStaysEmpty(cfg: Config, trace: seq<Event>, more: seq<Event>)
    requires Run(cfg, trace).log.broke > 0 && Run(cfg, trace + more).log.late == 0
    ensures Captures(Run(cfg, trace + more).queue) == []
  {
    BrokeGrows(cfg, trace, more);
    RunIsAccounted(cfg, trace + more);
  }

  lemma {:induction false} BrokeGrows(cfg: Config, trace: seq<Event>, more: seq<Event>)
    ensures Run(cfg, trace + more).log.broke >= Run(cfg, trace).log.broke
  {
    if more == [] {
      assert trace + more == trace;
    } else {
      assert (trace + more)[..|trace + more| - 1] == trace + more[..|more| - 1];
      BrokeGrows(cfg, trace, more[..|more| - 1]);
    }
  }

  lemma ExitedHoldNothing(cfg: Config, s: State)
    requires WellShaped(cfg, s) && Accounted(s) && cfg.workers > 0
    requires forall w :: w in s.workers ==> w.point.Exited?
    ensures Bag(Batched, s.workers) == multiset{} && Bag(InFlight, s.workers) == multiset{}
    ensures s.log.broke > 0 && s.log.cancelled == 0
  {
    SumAllOnes(Past, s.workers);
    SumBounds(Gone, s.workers, 0);
    forall w | w in s.workers ensures w.batch == [] {
      assert GoodWorker(cfg, w);
    }
    BagAllEmpty(Batched, s.workers);
    BagAllEmpty(InFlight, s.workers);
  }

  /**
   * Nothing is left behind: if no capture was accepted after `stop()` began and every
   * worker left its loop through a sentinel, each accepted capture has been through the stages.
   */
  lemma NormalExitLosesNothing(cfg: Config, trace: seq<Event>)
    requires cfg.workers > 0
    requires Run(cfg, trace).log.late == 0
    requires forall w :: w in Run(cfg, trace).workers ==> w.point.Exited?
    ensures var s := Run(cfg, trace);
      && s.log.accepted == s.log.written + s.log.failed
      && s.log.lost == multiset{} && Captures(s.queue) == []
  {
    RunIsAccounted(cfg, trace);
    RunKeepsInvariants(cfg, trace);
    ExitedHoldNothing(cfg, Run(cfg, trace));
  }

  // ----- Who leaves by itself -------------------------------------------------------------

  lemma {:induction false} SumBelowWhenZeroAt<T>(f: T -> nat, xs: seq<T>, i: nat)
    requires i < |xs| && f(xs[i]) == 0 && forall x :: x in xs ==> f(x) <= 1
    ensures Sum(f, xs) < |xs|
  {
    if i < |xs| - 1 {
      SumBelowWhenZeroAt(f, xs[..|xs| - 1], i);
    } else {
      SumBounds(f, xs[..|xs| - 1], 1);
    }
  }

  /**
   * Once every sentinel is put and none is queued, all workers have left their loops iff no drain
   * swallowed a sentinel.
   */
  lemma LeftIffNoneSwallowed(cfg: Config, trace: seq<Event>)
    requires Run(cfg, trace).stop.Joining? && Sentinels(Run(cfg, trace).queue) == 0
    ensures var s := Run(cfg, trace);
      (forall w :: w in s.workers ==> Past(w) == 1) <==> s.log.discarded == 0
  {
    RunIsAccounted(cfg, trace);
    var s := Run(cfg, trace);
    if forall w :: w in s.workers ==> Past(w) == 1 {
      SumAllOnes(Past, s.workers);
    } else {
      var w :| w in s.workers && Past(w) != 1;
      var i :| 0 <= i < |s.workers| && s.workers[i] == w;
      SumBelowWhenZeroAt(Past, s.workers, i);
    }
  }

  predicate AllPut(s: State) {
    s.stop.Joining? || s.stop.Cancelling? || s.stop.Stopped?
  }

  /** Still in its loop, with no sentinel left to come. */
  predicate Stranded(s: State, w: nat) {
    AllPut(s) && Sentinels(s.queue) == 0 && At(s, w) && Past(s.workers[w]) == 0 && !s.workers[w].point.Cancelled?
  }

  lemma StrandedStep(cfg: Config, s: State, e: Event, w: nat)
    requires Stranded(s, w) && e != Cancel(w)
    ensures Stranded(Step(cfg, s, e), w)
  {
    if e.Submit? {
      SentinelsSplit(s.queue, [Data(e.capture)]);
    }
  }

  /** A stranded worker never leaves except by cancellation, whatever else happens. */
  lemma {:induction false} StrandedUntilCancelled(cfg: Config, trace: seq<Event>, more: seq<Event>, w: nat)
    requires Stranded(Run(cfg, trace), w) && Cancel(w) !in more
    ensures Stranded(Run(cfg, trace + more), w)
  {
    if more == [] {
      assert trace + more == trace;
    } else {
      var n := |more| - 1;
      assert more == more[..n] + [more[n]] && trace + more == trace + more[..n] + [more[n]];
      StrandedUntilCancelled(cfg, trace, more[..n], w);
      Extend(cfg, trace + more[..n], more[n]);
      StrandedStep(cfg, Run(cfg, trace + more[..n]), more[n], w);
    }
  }

  lemma Extend(cfg: Config, trace: seq<Event>, e: Event)
    ensures Run(cfg, trace + [e]) == Step(cfg, Run(cfg, trace), e)
    ensures Legal(cfg, trace + [e]) <==> Legal(cfg, trace) && Enabled(cfg, Run(cfg, trace), e)
  {
    assert (trace + [e])[..|trace|] == trace;
  }

  // ----- Exactly which configurations can strand a worker -----------------------------------

  /** Two workers, and room for two sentinels at once. */
  predicate CanStrand(cfg: Config) {
    cfg.workers >= 2 && cfg.maxsize != 1
  }

  lemma TinyQueueStep(cfg: Config, s: State, e: Event)
    requires |s.queue| <= 1
    ensures Step(cfg, s, e).log.discarded == s.log.discarded
  {
    if |s.queue| == 1 {
      assert s.queue[1..] == [];
    }
  }

  /** A queue of at most one item never gives a drain a second sentinel. */
  lemma {:induction false} TinyQueueSwallowsNothing(cfg: Config, trace: seq<Event>)
    requires cfg.maxsize == 1
    ensures Run(cfg, trace).log.discarded == 0
  {
    if trace != [] {
      var before := trace[..|trace| - 1];
      TinyQueueSwallowsNothing(cfg, before);
      RunKeepsInvariants(cfg, before);
      TinyQueueStep(cfg, Run(cfg, before), trace[|trace| - 1]);
    }
  }

  /** With one worker, or none, no sentinel is ever swallowed. */
  lemma OneWorkerSwallowsNothing(cfg: Config, trace: seq<Event>)
    requires cfg.workers <= 1
    ensures Run(cfg, trace).log.discarded == 0
    ensures Run(cfg, trace).log.broke > 0 ==> Sentinels(Run(cfg, trace).queue) == 0
  {
    RunIsAccounted(cfg, trace);
    RunKeepsInvariants(cfg, trace);
  }

  /** A stranded worker means that some drain swallowed a sentinel. */
  lemma StrandedMeansSwallowed(cfg: Config, trace: seq<Event>, w: nat)
    requires Stranded(Run(cfg, trace), w)
    ensures Run(cfg, trace).log.discarded > 0
  {
    RunIsAccounted(cfg, trace);
    var s := Run(cfg, trace);
    PastOrGone(s.workers);
    SumBelowWhenZeroAt(PastOrCancelled, s.workers, w);
  }

  /** 1 for a worker past its loop, by sentinel or by cancellation. */
  function PastOrCancelled(w: Worker): nat {
    if w.point.Cancelled? then 1 else Past(w)
  }

  lemma {:induction false} PastOrGone(workers: seq<Worker>)
    ensures Sum(PastOrCancelled, workers) == Sum(Past, workers) + Sum(Gone, workers)
  {
    if workers != [] {
      PastOrGone(workers[..|workers| - 1]);
    }
  }

  /** k workers have exited and all others wait. */
  function Waiters(n: nat, k: nat): seq<Worker>
    requires k <= n
  {
    seq(n, i => if i < k then Worker([], Exited) else Worker([], Waiting))
  }

  /** `stop()` is left with n - 1 - k sentinels to put after k workers exited, one sentinel having been swallowed. */
  predicate Thinning(cfg: Config, s: State, k: nat) {
    && 1 <= k < cfg.workers && s.queue == [] && s.workers == Waiters(cfg.workers, k)
    && s.stop == if k == cfg.workers - 1 then Joining else Putting(cfg.workers - 1 - k)
  }

  /** The first worker's drain takes two sentinels. */
  lemma FirstDrainSwallows(cfg: Config) returns (trace: seq<Event>)
    requires CanStrand(cfg)
    ensures trace == [StopCalled, PutShutdown, PutShutdown, Get(0)]
    ensures Legal(cfg, trace) && Thinning(cfg, Run(cfg, trace), 1) && Run(cfg, trace).log.discarded == 1
  {
    var s0 := Run(cfg, []);
    var t1 := [] + [StopCalled];
    var t2 := t1 + [PutShutdown];
    var t3 := t2 + [PutShutdown];
    Extend(cfg, [], StopCalled);
    Extend(cfg, t1, PutShutdown);
    Extend(cfg, t2, PutShutdown);
    Extend(cfg, t3, Get(0));
    var s3 := Run(cfg, t3);
    assert Run(cfg, t2).queue == [Shutdown];
    assert s3.queue == [Shutdown, Shutdown] && s3.workers == s0.workers;
    TwoSentinels(s3.queue);
    assert s0.workers[0 := Worker([], Exited)] == Waiters(cfg.workers, 1);
    trace := t3 + [Get(0)];
  }

  lemma TwoSentinels(queue: seq<Item>)
    requires queue == [Shutdown, Shutdown]
    ensures Captures(queue[1..]) == [] && Sentinels(queue[1..]) == 1
  {
    assert queue[1..] == [Shutdown] && queue[1..][1..] == [];
  }

  /** One more sentinel is put, and the next worker takes it and exits. */
  lemma OneMoreExits(cfg: Config, trace: seq<Event>, k: nat) returns (longer: seq<Event>)
    requires CanStrand(cfg) && Legal(cfg, trace) && Thinning(cfg, Run(cfg, trace), k) && k < cfg.workers - 1
    ensures Legal(cfg, longer) && Thinning(cfg, Run(cfg, longer), k + 1)
  {
    var put := trace + [PutShutdown];
    longer := put + [Get(k)];
    Extend(cfg, trace, PutShutdown);
    Extend(cfg, put, Get(k));
    var s := Run(cfg, put);
    assert s.queue == [Shutdown] && s.queue[1..] == [];
    assert s.workers[k := Worker([], Exited)] == Waiters(cfg.workers, k + 1);
  }

  lemma {:induction false} AllButOneExit(cfg: Config, trace: seq<Event>, k: nat) returns (longer: seq<Event>)
    requires CanStrand(cfg) && Legal(cfg, trace) && Thinning(cfg, Run(cfg, trace), k)
    ensures Legal(cfg, longer) && Thinning(cfg, Run(cfg, longer), cfg.workers - 1)
    decreases cfg.workers - k
  {
    longer := trace;
    if k < cfg.workers - 1 {
      longer := OneMoreExits(cfg, trace, k);
      longer := AllButOneExit(cfg, longer, k + 1);
    }
  }

  /** A run that strands the last worker. */
  lemma StrandingRun(cfg: Config) returns (trace: seq<Event>)
    requires CanStrand(cfg)
    ensures Legal(cfg, trace) && Stranded(Run(cfg, trace), cfg.workers - 1)
  {
    trace := FirstDrainSwallows(cfg);
    trace := AllButOneExit(cfg, trace, 1);
  }

  lemma SwallowingNeedsRoom(cfg: Config, trace: seq<Event>)
    requires Run(cfg, trace).log.discarded > 0
    ensures CanStrand(cfg)
  {
    if cfg.maxsize == 1 {
      TinyQueueSwallowsNothing(cfg, trace);
    } else if cfg.workers <= 1 {
      OneWorkerSwallowsNothing(cfg, trace);
    }
  }

  ghost predicate Strands(cfg: Config, trace: seq<Event>, w: nat) {
    Legal(cfg, trace) && Stranded(Run(cfg, trace), w)
  }

  ghost predicate Swallows(cfg: Config, trace: seq<Event>) {
    Legal(cfg, trace) && Run(cfg, trace).log.discarded > 0
  }

  /**
   * Exactly when workers can fail to exit on their own sentinels.  Some run strands a worker,
   * which only cancellation then ends, iff there are two workers or more and the queue can
   * hold two items; otherwise no drain of any run swallows a sentinel.
   */
  lemma StrandingExactly(cfg: Config)
    ensures (exists trace, w :: Strands(cfg, trace, w)) <==> CanStrand(cfg)
    ensures (exists trace :: Swallows(cfg, trace)) <==> CanStrand(cfg)
  {
    if CanStrand(cfg) {
      var trace := StrandingRun(cfg);
      StrandedMeansSwallowed(cfg, trace, cfg.workers - 1);
      assert Strands(cfg, trace, cfg.workers - 1) && Swallows(cfg, trace);
    }
    forall trace | Swallows(cfg, trace) ensures CanStrand(cfg) {
      SwallowingNeedsRoom(cfg, trace);
    }
    forall trace, w | Strands(cfg, trace, w) ensures CanStrand(cfg) {
      StrandedMeansSwallowed(cfg, trace, w);
      SwallowingNeedsRoom(cfg, trace);
    }
  }

  /** Where stranding is impossible every worker leaves on a sentinel of its own, once all are put and taken. */
  lemma WorkersExitThemselves(cfg: Config, trace: seq<Event>)
    requires !CanStrand(cfg) && Run(cfg, trace).stop.Joining? && Sentinels(Run(cfg, trace).queue) == 0
    ensures forall w :: w in Run(cfg, trace).workers ==> Past(w) == 1
  {
    if cfg.maxsize == 1 {
      TinyQueueSwallowsNothing(cfg, trace);
    } else {
      OneWorkerSwallowsNothing(cfg, trace);
    }
    LeftIffNoneSwallowed(cfg, trace);
  }

  // ----- Termination --------------------------------------------------------------------------

  /** Steps still owed for what one worker holds. */
  function Owed(w: Worker): nat {
    match w.point
    case Waiting => 1 + 5 * |w.batch|
    case Flushing(Embedding(records), _) => 1 + 4 * |records|
    case Flushing(Writing(records), _) => 1 + 3 * |records|
    case Flushing(Caching(todo), _) => 1 + 2 * |todo|
    case _ => 0
  }

  function StopOwed(s: State): nat {
    match s.stop
    case Running => 4 + 7 * |s.workers|
    case Putting(left) => 3 + 7 * left
    case Joining => 2
    case Cancelling => 1
    case Stopped => 0
  }

  function Work(s: State): nat {
    6 * |s.queue| + Sum(Owed, s.workers) + StopOwed(s)
  }

  lemma {:induction false} QueueSize(queue: seq<Item>)
    ensures |Captures(queue)| + Sentinels(queue) == |queue|
  {
    if queue != [] {
      QueueSize(queue[1..]);
    }
  }

  lemma BeginOwes(cfg: Config, batch: seq<RawCapture>, last: bool)
    ensures Owed(Begin(cfg, batch, last)) <= 1 + 5 * |batch|
  {
  }

  lemma GetCosts(cfg: Config, s: State, w: nat)
    requires Enabled(cfg, s, Get(w))
    ensures Work(DoGet(cfg, s, w)) < Work(s)
  {
    var s', batch := DoGet(cfg, s, w), s.workers[w].batch;
    SumUpdate(Owed, s.workers, w, s'.workers[w]);
    QueueSize(s.queue[1..]);
    match s.queue[0] {
      case Data(c) => BeginOwes(cfg, batch + [c], false);
      case Shutdown => BeginOwes(cfg, batch + Captures(s.queue[1..]), true);
    }
  }

  lemma WorkerStepCosts(cfg: Config, s: State, e: Event, w: nat)
    requires WellShaped(cfg, s) && Enabled(cfg, s, e) && Productive(s, e)
    requires e in {Timeout(w), WriteFailed(w)} || ((e.EmbedDone? || e.WriteOk? || e.PutDone?) && e.w == w)
    ensures Work(Step(cfg, s, e)) < Work(s)
  {
    SumUpdate(Owed, s.workers, w, Step(cfg, s, e).workers[w]);
    assert GoodWorker(cfg, s.workers[w]);
  }

  /** Every productive step, and every cancellation, uses up work; an idle timeout costs nothing. */
  lemma StepCostsWork(cfg: Config, s: State, e: Event)
    requires WellShaped(cfg, s) && Accounted(s) && Enabled(cfg, s, e) && !e.Submit?
    ensures Work(Step(cfg, s, e)) <= Work(s)
    ensures Productive(s, e) || e.JoinTimeout? || e.Cancel? ==> Work(Step(cfg, s, e)) < Work(s)
  {
    match e {
      case StopCalled =>
      case PutShutdown =>
      case JoinTimeout =>
      case JoinDone =>
      case Cancel(w) =>
        SumUpdate(Owed, s.workers, w, Worker([], Cancelled));
      case Timeout(w) =>
        if s.workers[w].batch != [] {
          WorkerStepCosts(cfg, s, e, w);
        } else {
          assert s.workers[w := Worker([], Waiting)] == s.workers;
        }
      case Get(w) => GetCosts(cfg, s, w);
      case EmbedDone(w, _) => WorkerStepCosts(cfg, s, e, w);
      case WriteOk(w, _) => WorkerStepCosts(cfg, s, e, w);
      case WriteFailed(w) => WorkerStepCosts(cfg, s, e, w);
      case PutDone(w, _) => WorkerStepCosts(cfg, s, e, w);
    }
  }

  /** With one worker the shutdown never gets stuck: until `stop()` returns something productive can happen. */
  lemma OneWorkerProgress(cfg: Config, trace: seq<Event>) returns (e: Event)
    requires cfg.workers == 1
    requires var s := Run(cfg, trace); !s.stop.Running? && !s.stop.Stopped? && s.log.cancelled == 0
    ensures Enabled(cfg, Run(cfg, trace), e) && Productive(Run(cfg, trace), e)
  {
    RunIsAccounted(cfg, trace);
    RunKeepsInvariants(cfg, trace);
    var s := Run(cfg, trace);
    var w := s.workers[0];
    NobodyGone(s, 0);
    assert s.workers == [w];
    if w.point.Exited? {
      assert s.workers[..0] == [] && Sum(Past, s.workers) == 1;
      e := JoinDone;
    } else if w.point.Flushing? {
      e := FlushCanProceed(cfg, s, 0);
    } else if s.queue != [] {
      e := Get(0);
    } else {
      assert Sum(Past, s.workers) == 0;
      e := PutShutdown;
    }
  }

  /** How many events of `more` are productive when they happen. */
  function ProductiveSteps(cfg: Config, trace: seq<Event>, more: seq<Event>): nat {
    if more == [] then 0
    else
      var n := |more| - 1;
      ProductiveSteps(cfg, trace, more[..n]) + if Productive(Run(cfg, trace + more[..n]), more[n]) then 1 else 0
  }

  /** Once submissions cease, only finitely many productive steps remain, and a known number bounds them. */
  lemma {:induction false} ProductiveStepsAreBounded(cfg: Config, trace: seq<Event>, more: seq<Event>)
    requires Legal(cfg, trace + more) && forall e :: e in more ==> !e.Submit?
    ensures ProductiveSteps(cfg, trace, more) + Work(Run(cfg, trace + more)) <= Work(Run(cfg, trace))
  {
    if more == [] {
      assert trace + more == trace;
    } else {
      var n := |more| - 1;
      assert (trace + more)[..|trace + more| - 1] == trace + more[..n];
      ProductiveStepsAreBounded(cfg, trace, more[..n]);
      RunIsAccounted(cfg, trace + more[..n]);
      RunKeepsInvariants(cfg, trace + more[..n]);
      StepCostsWork(cfg, Run(cfg, trace + more[..n]), more[n]);
    }
  }
}
