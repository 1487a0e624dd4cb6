// The batched embedder and the stage that uses it (telemetry/embeddings.py, stages.py): texts
// are gathered into batches, sent under the breaker, and their vectors scattered back.

module Embeddings {
  import opened Common
  import opened Parsing
  import opened Breaker

  type Vector = seq<real>

  const MAX_EMBED_CHARS: nat := 32_000

  /**
   * What the clock and the service answer for one batch; no reply means the service failed.
   * Other workers share the breaker: `before` is what they recorded since this call's previous
   * batch, `during` what they record while this batch waits for its answer.
   */
  datatype Turn = Turn(
    before: seq<Outcome>, asked: real, during: seq<Outcome>, reply: Option<seq<Vector>>, answered: real)

  /** One call of the embedder: its settings, the breaker it starts from, and a turn for every batch. */
  datatype Call = Call(cfg: Config, batchSize: nat, breaker: State, world: nat -> Turn)

  // ----- Gathering -----------------------------------------------------------------------

  function Clip(t: string): string {
    t[..Min(MAX_EMBED_CHARS, |t|)]
  }

  /** The first 32000 characters, and all of them when there are fewer. */
  lemma ClipExactly(t: string)
    ensures Clip(t) <= t && |Clip(t)| <= 32_000 && (|t| <= 32_000 ==> Clip(t) == t)
        && (|t| > 32_000 ==> |Clip(t)| == 32_000)
  {
  }

  datatype Slot = Slot(pos: nat, text: string)

  /** The non-blank texts, clipped, with their positions. */
  function Indexed(texts: seq<string>): (slots: seq<Slot>)
    ensures |slots| <= |texts|
  {
    if texts == [] then []
    else
      var n := |texts| - 1;
      Indexed(texts[..n]) + if Blank(texts[n]) then [] else [Slot(n, Clip(texts[n]))]
  }

  /** How many non-blank texts precede position i. */
  function Rank(texts: seq<string>, i: nat): nat
    requires i <= |texts|
  {
    |Indexed(texts[..i])|
  }

  lemma {:induction false} IndexedByRank(texts: seq<string>, i: nat)
    requires i < |texts| && !Blank(texts[i])
    ensures Rank(texts, i) < |Indexed(texts)| && Indexed(texts)[Rank(texts, i)] == Slot(i, Clip(texts[i]))
  {
    var n := |texts| - 1;
    if i < n {
      IndexedByRank(texts[..n], i);
      assert texts[..n][..i] == texts[..i];
    }
  }

  lemma {:induction false} IndexedIsSound(texts: seq<string>, r: nat)
    requires r < |Indexed(texts)|
    ensures var p := Indexed(texts)[r].pos; p < |texts| && !Blank(texts[p]) && Rank(texts, p) == r
    ensures Indexed(texts)[r].text == Clip(texts[Indexed(texts)[r].pos])
  {
    var n := |texts| - 1;
    if r < |Indexed(texts[..n])| {
      IndexedIsSound(texts[..n], r);
      var p := Indexed(texts[..n])[r].pos;
      assert texts[..n][..p] == texts[..p];
    }
  }

  lemma {:induction false} PositionsIncrease(texts: seq<string>, q: nat, r: nat)
    requires q < r < |Indexed(texts)|
    ensures Indexed(texts)[q].pos < Indexed(texts)[r].pos
  {
    var n := |texts| - 1;
    if r < |Indexed(texts[..n])| {
      PositionsIncrease(texts[..n], q, r);
    } else {
      IndexedIsSound(texts[..n], q);
    }
  }

  // ----- Batches --------------------------------------------------------------------------------

  /** Which batch the r-th gathered text falls into, and where in it. */
  function BatchOf(r: nat, size: nat): nat {
    if size == 0 || r < size then 0 else 1 + BatchOf(r - size, size)
  }

  function OffsetOf(r: nat, size: nat): nat {
    if size == 0 || r < size then r else OffsetOf(r - size, size)
  }

  /** Every place is a batch and an offset within it. */
  lemma {:induction false} PlaceExactly(r: nat, size: nat)
    requires size >= 1
    ensures BatchOf(r, size) * size + OffsetOf(r, size) == r && OffsetOf(r, size) < size
  {
    if r >= size {
      PlaceExactly(r - size, size);
      OneMoreBatch(BatchOf(r - size, size), size);
    }
  }

  lemma OneMoreBatch(k: nat, size: nat)
    ensures (1 + k) * size == size + k * size
  {
  }

  /** How many batches n gathered texts make. */
  function Batches(n: nat, size: nat): nat {
    if n == 0 then 0 else BatchOf(n - 1, size) + 1
  }

  /** As few as can hold them. */
  lemma BatchesExactly(n: nat, size: nat)
    requires size >= 1
    ensures n <= Batches(n, size) * size < n + size
  {
    if n > 0 {
      PlaceExactly(n - 1, size);
      OneMoreBatch(BatchOf(n - 1, size), size);
    }
  }

  /** The k-th batch starts at `start`. */
  ghost predicate StartsAt(start: nat, k: nat, size: nat) {
    forall r :: start <= r < start + size ==> BatchOf(r, size) == k && OffsetOf(r, size) == r - start
  }

  lemma NextBatch(start: nat, k: nat, size: nat)
    requires size >= 1 && StartsAt(start, k, size)
    ensures StartsAt(start + size, k + 1, size)
  {
    forall r | start + size <= r < start + size + size
      ensures BatchOf(r, size) == k + 1 && OffsetOf(r, size) == r - (start + size)
    {
      assert BatchOf(r - size, size) == k && OffsetOf(r - size, size) == r - size - start;
    }
  }

  // ----- One call ------------------------------------------------------------------------------------

  /** The breaker as a batch finds it. */
  function Met(cfg: Config, s: State, turn: Turn): State {
    RecordAll(cfg, s, turn.before)
  }

  function AfterTurn(cfg: Config, s: State, turn: Turn): State {
    var met := Met(cfg, s, turn);
    if !Allow(cfg, met, turn.asked) then met
    else if turn.reply.Some? then Success(RecordAll(cfg, met, turn.during))
    else Failure(cfg, RecordAll(cfg, met, turn.during), turn.answered)
  }

  /** The breaker as this call leaves it after k batches. */
  function BreakerAt(c: Call, k: nat): State {
    if k == 0 then c.breaker else AfterTurn(c.cfg, BreakerAt(c, k - 1), c.world(k - 1))
  }

  predicate Sent(c: Call, k: nat) {
    Allow(c.cfg, Met(c.cfg, BreakerAt(c, k), c.world(k)), c.world(k).asked)
  }

  /** What the k-th batch brings: nothing when skipped or failed. */
  function Reply(c: Call, k: nat): Option<seq<Vector>> {
    if Sent(c, k) then c.world(k).reply else None
  }

  function Placed(c: Call, r: nat): Option<Vector> {
    var reply, j := Reply(c, BatchOf(r, c.batchSize)), OffsetOf(r, c.batchSize);
    if reply.Some? && j < |reply.value| then Some(reply.value[j]) else None
  }

  /** What a call returns for the text at position i. */
  function VectorAt(c: Call, texts: seq<string>, i: nat): Option<Vector>
    requires i < |texts|
  {
    if Blank(texts[i]) then None else Placed(c, Rank(texts, i))
  }

  /** The gathered texts handed to the service, among the first r. */
  function SentSlots(c: Call, slots: seq<Slot>, r: nat): seq<Slot>
    requires r <= |slots|
  {
    if r == 0 then []
    else SentSlots(c, slots, r - 1) + if Sent(c, BatchOf(r - 1, c.batchSize)) then [slots[r - 1]] else []
  }

  lemma WindowGrows(before: seq<Slot>, slots: seq<Slot>, start: nat, end: nat)
    requires start < end <= |slots|
    ensures before + slots[start..end - 1] + [slots[end - 1]] == before + slots[start..end]
  {
    assert slots[start..end] == slots[start..end - 1] + [slots[end - 1]];
  }

  lemma {:induction false} SentWindow(c: Call, slots: seq<Slot>, start: nat, end: nat, k: nat)
    requires start <= end <= |slots|
    requires forall r :: start <= r < end ==> BatchOf(r, c.batchSize) == k
    ensures SentSlots(c, slots, end) == SentSlots(c, slots, start) + if Sent(c, k) then slots[start..end] else []
    decreases end
  {
    if start == end {
      assert slots[start..end] == [];
    } else {
      SentWindow(c, slots, start, end - 1, k);
      assert BatchOf(end - 1, c.batchSize) == k;
      if Sent(c, k) {
        WindowGrows(SentSlots(c, slots, start), slots, start, end);
      } else {
        NothingMore(SentSlots(c, slots, start));
      }
    }
  }

  lemma AfterWindow(c: Call, slots: seq<Slot>, start: nat, end: nat, k: nat)
    requires c.batchSize >= 1 && start < end <= |slots| && end <= start + c.batchSize && StartsAt(start, k, c.batchSize)
    ensures SentSlots(c, slots, end) == SentSlots(c, slots, start) + if Sent(c, k) then slots[start..end] else []
    ensures Batches(end, c.batchSize) == k + 1 && StartsAt(start + c.batchSize, k + 1, c.batchSize)
  {
    SentWindow(c, slots, start, end, k);
    NextBatch(start, k, c.batchSize);
    assert BatchOf(end - 1, c.batchSize) == k;
  }

  // ----- Scattering ---------------------------------------------------------------------------------

  /** The first r gathered texts have their vectors; every other position is still None. */
  ghost predicate Scattered(c: Call, texts: seq<string>, out: seq<Option<Vector>>, r: nat)
    requires |out| == |texts|
  {
    forall i :: 0 <= i < |out| ==>
      out[i] == if Blank(texts[i]) || Rank(texts, i) >= r then None else Placed(c, Rank(texts, i))
  }

  lemma NothingYet(c: Call, texts: seq<string>, out: seq<Option<Vector>>, sent: seq<Slot>)
    requires |out| == |texts| && forall i :: 0 <= i < |out| ==> out[i] == None
    ensures Scattered(c, texts, out, 0) && sent + SentSlots(c, Indexed(texts), 0) == sent
    ensures StartsAt(0, 0, c.batchSize) && Batches(0, c.batchSize) == 0
  {
  }

  lemma AllScattered(c: Call, texts: seq<string>, out: seq<Option<Vector>>)
    requires |out| == |texts| && Scattered(c, texts, out, |Indexed(texts)|)
    ensures forall i :: 0 <= i < |texts| ==> out[i] == VectorAt(c, texts, i)
  {
    forall i | 0 <= i < |texts| ensures out[i] == VectorAt(c, texts, i) {
      if !Blank(texts[i]) {
        IndexedByRank(texts, i);
      }
    }
  }

  lemma NothingPlaced(c: Call, texts: seq<string>, out: seq<Option<Vector>>, start: nat, end: nat, k: nat)
    requires |out| == |texts| && start <= end && Scattered(c, texts, out, start)
    requires forall r :: start <= r < end ==> BatchOf(r, c.batchSize) == k
    requires Reply(c, k) == None
    ensures Scattered(c, texts, out, end)
  {
    forall i | 0 <= i < |out| && !Blank(texts[i]) && start <= Rank(texts, i) < end
      ensures Placed(c, Rank(texts, i)) == None
    {
      assert BatchOf(Rank(texts, i), c.batchSize) == k;
    }
  }

  /** One gathered text gets its vector. */
  lemma PlaceOne(c: Call, texts: seq<string>, out: seq<Option<Vector>>, r: nat, v: Option<Vector>)
    requires |out| == |texts| && r < |Indexed(texts)| && Scattered(c, texts, out, r) && v == Placed(c, r)
    ensures Indexed(texts)[r].pos < |out| && Scattered(c, texts, out[Indexed(texts)[r].pos := v], r + 1)
  {
    IndexedIsSound(texts, r);
    var p := Indexed(texts)[r].pos;
    forall i | 0 <= i < |out| && !Blank(texts[i]) && Rank(texts, i) == r ensures i == p {
      IndexedByRank(texts, i);
    }
  }

  /** `zip(window, vectors)`: the shorter of the two ends it, and the rest stays None. */
  method Scatter(ghost c: Call, texts: seq<string>, before: seq<Option<Vector>>, start: nat, end: nat, ghost k: nat,
                 window: seq<Slot>, vectors: seq<Vector>)
    returns (out: seq<Option<Vector>>)
    requires |before| == |texts| && start <= end <= |Indexed(texts)| && window == Indexed(texts)[start..end]
    requires Scattered(c, texts, before, start) && Reply(c, k) == Some(vectors)
    requires forall r :: start <= r < end ==> BatchOf(r, c.batchSize) == k && OffsetOf(r, c.batchSize) == r - start
    ensures |out| == |texts| && Scattered(c, texts, out, end)
  {
    out := before;
    var n := Min(|window|, |vectors|);
    for j := 0 to n
      invariant |out| == |texts| && Scattered(c, texts, out, start + j)
    {
      var r := start + j;
      assert BatchOf(r, c.batchSize) == k && OffsetOf(r, c.batchSize) == j;
      assert window[j] == Indexed(texts)[r];
      PlaceOne(c, texts, out, r, Some(vectors[j]));
      out := out[window[j].pos := Some(vectors[j])];
    }
    forall i | 0 <= i < |out| && !Blank(texts[i]) && start + n <= Rank(texts, i) < end
      ensures Placed(c, Rank(texts, i)) == None
    {
      var r := Rank(texts, i);
      assert BatchOf(r, c.batchSize) == k && OffsetOf(r, c.batchSize) == r - start;
    }
  }

  // ----- The embedder as it is written ----------------------------------------------------------------

  class VoyageEmbedder {
    const breaker: CircuitBreaker
    const batchSize: nat
    const modelName: string
    const dims: nat
    ghost var sent: seq<Slot>   // everything handed to the service, in order

    ghost predicate Valid() {
      breaker.threshold == Threshold(breaker.cfg) && batchSize >= 1
    }

    constructor (breaker: CircuitBreaker, batchSize: nat, modelName: string, dims: nat)
      requires breaker.threshold == Threshold(breaker.cfg) && batchSize >= 1
      ensures Valid() && sent == [] && this.breaker == breaker && this.batchSize == batchSize
    {
      this.breaker, this.batchSize, this.modelName, this.dims := breaker, batchSize, modelName, dims;
      sent := [];
    }

    function CallWith(world: nat -> Turn): Call
      reads breaker
    {
      Call(breaker.cfg, batchSize, breaker.Contents(), world)
    }

    method EmbedBatch(window: seq<Slot>, turn: Turn) returns (vectors: Option<seq<Vector>>)
      requires Valid()
      modifies breaker, `sent
      ensures var allowed := Allow(breaker.cfg, Met(breaker.cfg, old(breaker.Contents()), turn), turn.asked);
        && vectors == (if allowed then turn.reply else None)
        && sent == old(sent) + if allowed then window else []
      ensures breaker.Contents() == AfterTurn(breaker.cfg, old(breaker.Contents()), turn)
    {
      breaker.RecordOthers(turn.before);
      var allowed := breaker.Allows(turn.asked);
      if !allowed {
        return None;
      }
      sent := sent + window;
      breaker.RecordOthers(turn.during);
      if turn.reply.None? {
        breaker.RecordFailure(turn.answered);
        return None;
      }
      breaker.RecordSuccess();
      return turn.reply;
    }

    /** One window: ask, and scatter what comes back. */
    method EmbedWindow(texts: seq<string>, before: seq<Option<Vector>>, start: nat, end: nat, turn: Turn,
                       ghost c: Call, ghost k: nat)
      returns (out: seq<Option<Vector>>)
      requires Valid() && c.cfg == breaker.cfg && c.world(k) == turn && breaker.Contents() == BreakerAt(c, k)
      requires |before| == |texts| && start <= end <= |Indexed(texts)| && Scattered(c, texts, before, start)
      requires StartsAt(start, k, c.batchSize) && end <= start + c.batchSize
      modifies breaker, `sent
      ensures breaker.Contents() == BreakerAt(c, k + 1)
      ensures |out| == |texts| && Scattered(c, texts, out, end)
      ensures sent == old(sent) + if Sent(c, k) then Indexed(texts)[start..end] else []
    {
      var window := Indexed(texts)[start..end];
      var vectors := EmbedBatch(window, turn);
      assert vectors == Reply(c, k);
      if vectors.Some? {
        out := Scatter(c, texts, before, start, end, k, window, vectors.value);
      } else {
        NothingPlaced(c, texts, before, start, end, k);
        out := before;
      }
    }

    /** The next window, and what it does to everything sent since `base`. */
    method EmbedNext(texts: seq<string>, before: seq<Option<Vector>>, start: nat, end: nat, turn: Turn, ghost c: Call,
                     ghost k: nat, ghost base: seq<Slot>)
      returns (out: seq<Option<Vector>>)
      requires Valid() && c.cfg == breaker.cfg && c.world(k) == turn && breaker.Contents() == BreakerAt(c, k)
      requires |before| == |texts| && start < end <= |Indexed(texts)| && Scattered(c, texts, before, start)
      requires StartsAt(start, k, c.batchSize) && end <= start + c.batchSize
      requires sent == base + SentSlots(c, Indexed(texts), start)
      modifies breaker, `sent
      ensures breaker.Contents() == BreakerAt(c, k + 1)
      ensures |out| == |texts| && Scattered(c, texts, out, end)
      ensures sent == base + SentSlots(c, Indexed(texts), end)
      ensures Batches(end, c.batchSize) == k + 1 && StartsAt(start + c.batchSize, k + 1, c.batchSize)
    {
      AfterWindow(c, Indexed(texts), start, end, k);
      ghost var part := if Sent(c, k) then Indexed(texts)[start..end] else [];
      assert base + SentSlots(c, Indexed(texts), start) + part == base + SentSlots(c, Indexed(texts), end);
      out := EmbedWindow(texts, before, start, end, turn, c, k);
    }

    method EmbedMany(texts: seq<string>, world: nat -> Turn) returns (out: seq<Option<Vector>>)
      requires Valid()
      modifies breaker, `sent
      ensures |out| == |texts|
      ensures forall i :: 0 <= i < |texts| ==> out[i] == VectorAt(old(CallWith(world)), texts, i)
      ensures sent == old(sent) + SentSlots(old(CallWith(world)), Indexed(texts), |Indexed(texts)|)
      ensures breaker.Contents() == BreakerAt(old(CallWith(world)), Batches(|Indexed(texts)|, batchSize))
    {
      ghost var c := CallWith(world);
      out := seq(|texts|, i => None);
      var indexed := Indexed(texts);
      var start, k, done := 0, 0, 0;
      NothingYet(c, texts, out, old(sent));
      while start < |indexed|
        invariant done == Min(start, |indexed|) && StartsAt(start, k, c.batchSize) && k == Batches(done, c.batchSize)
        invariant breaker.Contents() == BreakerAt(c, k)
        invariant sent == old(sent) + SentSlots(c, indexed, done)
        invariant |out| == |texts| && Scattered(c, texts, out, done)
        decreases |indexed| - start
      {
        var end := Min(start + batchSize, |indexed|);
        out := EmbedNext(texts, out, start, end, world(k), c, k, old(sent));
        start, k, done := start + batchSize, k + 1, end;
      }
      AllScattered(c, texts, out);
    }
  }

  // ----- What batching is meant not to change ------------------------------------------------------------

  /** A service that embeds each text by itself, whenever it answers. */
  ghost predicate PerText(c: Call, texts: seq<string>, embed: string -> Vector) {
    var slots := Indexed(texts);
    forall r :: 0 <= r < |slots| && c.world(BatchOf(r, c.batchSize)).reply.Some? ==>
      var vectors := c.world(BatchOf(r, c.batchSize)).reply.value;
      OffsetOf(r, c.batchSize) < |vectors| && vectors[OffsetOf(r, c.batchSize)] == embed(slots[r].text)
  }

  /** Each position holds the vector of its own clipped text, or None exactly when its batch was skipped or failed. */
  lemma BatchingIsTransparent(c: Call, texts: seq<string>, embed: string -> Vector, i: nat)
    requires PerText(c, texts, embed) && i < |texts| && !Blank(texts[i])
    ensures var k := BatchOf(Rank(texts, i), c.batchSize);
      VectorAt(c, texts, i) == if Sent(c, k) && c.world(k).reply.Some? then Some(embed(Clip(texts[i]))) else None
  {
    IndexedByRank(texts, i);
  }

  /**
   * What one batch adds to the history of outcomes: others record before it asks; unless the
   * breaker is tripped then, they record while it waits, and its own outcome comes last.
   */
  ghost function Grown(cfg: Config, h: seq<Outcome>, turn: Turn): seq<Outcome> {
    var met := h + turn.before;
    if Tripped(cfg, met, turn.asked) then met
    else met + turn.during + [if turn.reply.Some? then Succeeded else FailedAt(turn.answered)]
  }

  /** `seen(k)` is the history before batch k, batch by batch. */
  ghost predicate Sees(c: Call, seen: nat -> seq<Outcome>, k: nat) {
    seen(k + 1) == Grown(c.cfg, seen(k), c.world(k))
  }

  lemma TurnGrows(cfg: Config, h: seq<Outcome>, turn: Turn)
    ensures AfterTurn(cfg, After(cfg, h), turn) == After(cfg, Grown(cfg, h, turn))
    ensures Allow(cfg, Met(cfg, After(cfg, h), turn), turn.asked) <==> !Tripped(cfg, h + turn.before, turn.asked)
  {
    var met := h + turn.before;
    RecordAllSplits(cfg, CLOSED, h, turn.before);
    BreakerRefinesHistory(cfg, met, turn.asked);
    RecordAllSplits(cfg, CLOSED, met, turn.during);
    var own := if turn.reply.Some? then Succeeded else FailedAt(turn.answered);
    assert (met + turn.during + [own])[..|met + turn.during|] == met + turn.during;
  }

  /** A batch is skipped exactly while the breaker is tripped by all outcomes so far, whoever recorded them. */
  lemma {:induction false} SkippedExactly(c: Call, k: nat, seen: nat -> seq<Outcome>)
    requires c.breaker == After(c.cfg, seen(0)) && forall j :: 0 <= j < k ==> Sees(c, seen, j)
    ensures BreakerAt(c, k) == After(c.cfg, seen(k))
    ensures !Sent(c, k) <==> Tripped(c.cfg, seen(k) + c.world(k).before, c.world(k).asked)
  {
    if k > 0 {
      SkippedExactly(c, k - 1, seen);
      assert Sees(c, seen, k - 1);
      TurnGrows(c.cfg, seen(k - 1), c.world(k - 1));
    }
    TurnGrows(c.cfg, seen(k), c.world(k));
  }

  /** Nobody's call fails. */
  ghost predicate AllAnswered(c: Call) {
    forall j :: c.world(j).reply.Some?
             && (forall o :: o in c.world(j).before ==> o.Succeeded?)
             && (forall o :: o in c.world(j).during ==> o.Succeeded?)
  }

  lemma {:induction false} SuccessesKeepClosed(cfg: Config, s: State, h: seq<Outcome>)
    requires s.openedAt.None? && forall o :: o in h ==> o.Succeeded?
    ensures RecordAll(cfg, s, h).openedAt.None?
  {
    if h != [] {
      assert h[|h| - 1] in h;
      SuccessesKeepClosed(cfg, s, h[..|h| - 1]);
    }
  }

  /** With an always-answering service and a closed breaker every batch is sent. */
  lemma {:induction false} AnsweredBreakerStaysClosed(c: Call, k: nat)
    requires c.breaker.openedAt.None? && AllAnswered(c)
    ensures BreakerAt(c, k).openedAt.None? && Sent(c, k)
  {
    if k > 0 {
      AnsweredBreakerStaysClosed(c, k - 1);
      assert c.world(k - 1).reply.Some?;
    }
    assert c.world(k).reply.Some?;
    SuccessesKeepClosed(c.cfg, BreakerAt(c, k), c.world(k).before);
  }

  /** The batch size does not matter: two calls that are always answered return the same vectors. */
  lemma BatchSizeIsIrrelevant(c: Call, d: Call, texts: seq<string>, embed: string -> Vector, i: nat)
    requires PerText(c, texts, embed) && PerText(d, texts, embed) && i < |texts|
    requires c.breaker.openedAt.None? && d.breaker.openedAt.None? && AllAnswered(c) && AllAnswered(d)
    ensures VectorAt(c, texts, i) == VectorAt(d, texts, i) == if Blank(texts[i]) then None
        else Some(embed(Clip(texts[i])))
  {
    if !Blank(texts[i]) {
      var r := Rank(texts, i);
      BatchingIsTransparent(c, texts, embed, i);
      BatchingIsTransparent(d, texts, embed, i);
      AnsweredBreakerStaysClosed(c, BatchOf(r, c.batchSize));
      AnsweredBreakerStaysClosed(d, BatchOf(r, d.batchSize));
      assert c.world(BatchOf(r, c.batchSize)).reply.Some? && d.world(BatchOf(r, d.batchSize)).reply.Some?;
    }
  }

  lemma {:induction false} SentMembers(c: Call, slots: seq<Slot>, r: nat)
    requires r <= |slots|
    ensures forall s ::
      s in SentSlots(c, slots, r) <==> exists q :: 0 <= q < r && slots[q] == s && Sent(c, BatchOf(q, c.batchSize))
  {
    if r > 0 {
      SentMembers(c, slots, r - 1);
      forall s
        ensures s in SentSlots(c, slots, r) <==>
                exists q :: 0 <= q < r && slots[q] == s && Sent(c, BatchOf(q, c.batchSize))
      {
        if q :| 0 <= q < r && slots[q] == s && Sent(c, BatchOf(q, c.batchSize)) {
          assert q < r - 1 || q == r - 1;
        }
      }
    }
  }

  lemma {:induction false} SentIncreases(c: Call, texts: seq<string>, r: nat, a: nat, b: nat)
    requires r <= |Indexed(texts)| && a < b < |SentSlots(c, Indexed(texts), r)|
    ensures SentSlots(c, Indexed(texts), r)[a].pos < SentSlots(c, Indexed(texts), r)[b].pos
  {
    var slots := Indexed(texts);
    var before := SentSlots(c, slots, r - 1);
    if b < |before| {
      SentIncreases(c, texts, r - 1, a, b);
    } else {
      SentMembers(c, slots, r - 1);
      assert before[a] in before;
      var q :| 0 <= q < r - 1 && slots[q] == before[a] && Sent(c, BatchOf(q, c.batchSize));
      PositionsIncrease(texts, q, r - 1);
    }
  }

  /**
   * Each text is sent at most once: what is sent lists the non-blank texts of the batches the
   * breaker let through, clipped, in increasing position.
   */
  lemma SentAtMostOnce(c: Call, texts: seq<string>)
    ensures var sent := SentSlots(c, Indexed(texts), |Indexed(texts)|);
      && (forall a, b :: 0 <= a < b < |sent| ==> sent[a].pos < sent[b].pos)
      && (forall i :: 0 <= i < |texts| ==>
          (Slot(i, Clip(texts[i])) in sent <==> !Blank(texts[i]) && Sent(c, BatchOf(Rank(texts, i), c.batchSize))))
      && (forall s :: s in sent ==> s.pos < |texts| && s.text == Clip(texts[s.pos]))
  {
    var slots := Indexed(texts);
    var sent := SentSlots(c, slots, |slots|);
    SentMembers(c, slots, |slots|);
    forall a, b | 0 <= a < b < |sent| ensures sent[a].pos < sent[b].pos {
      SentIncreases(c, texts, |slots|, a, b);
    }
    forall i | 0 <= i < |texts|
      ensures Slot(i, Clip(texts[i])) in sent <==> !Blank(texts[i]) && Sent(c, BatchOf(Rank(texts, i), c.batchSize))
    {
      if Slot(i, Clip(texts[i])) in sent {
        var q :| 0 <= q < |slots| && slots[q] == Slot(i, Clip(texts[i])) && Sent(c, BatchOf(q, c.batchSize));
        IndexedIsSound(texts, q);
      } else if !Blank(texts[i]) {
        IndexedByRank(texts, i);
      }
    }
    forall s | s in sent ensures s.pos < |texts| && s.text == Clip(texts[s.pos]) {
      var q :| 0 <= q < |slots| && slots[q] == s && Sent(c, BatchOf(q, c.batchSize));
      IndexedIsSound(texts, q);
    }
  }

  // ----- The stage -----------------------------------------------------------------------------------------

  function Strip(t: string): string {
    if t != "" && Space(t[0]) then Strip(t[1..])
    else if t != "" && Space(t[|t| - 1]) then Strip(t[..|t| - 1])
    else t
  }

  /** Blank text goes at both ends, and all of it. */
  lemma {:induction false} StripExactly(t: string) returns (a: string, b: string)
    ensures t == a + Strip(t) + b && Blank(a) && Blank(b)
    ensures Strip(t) != "" ==> !Space(Strip(t)[0]) && !Space(Strip(t)[|Strip(t)| - 1])
  {
    if t != "" && Space(t[0]) {
      var front, back := StripExactly(t[1..]);
      a, b := [t[0]] + front, back;
      assert t == [t[0]] + t[1..] == [t[0]] + (front + Strip(t) + back);
    } else if t != "" && Space(t[|t| - 1]) {
      var front, back := StripExactly(t[..|t| - 1]);
      a, b := front, back + [t[|t| - 1]];
      assert t == t[..|t| - 1] + [t[|t| - 1]] == front + Strip(t) + back + [t[|t| - 1]];
    } else {
      a, b := "", "";
    }
  }

  /** The text a document is embedded by: its reasoning, else its content, else the prompt. */
  function EmbeddingText(thinking: Option<string>, content: Option<string>, prompt: Option<string>): Option<string> {
    if thinking.Some? && !Blank(thinking.value) then Some(Strip(thinking.value))
    else if content.Some? && !Blank(content.value) then Some(Strip(content.value))
    else prompt
  }

  /** A text with something other than white space in it. */
  predicate Speaks(t: Option<string>) {
    t.Some? && exists c :: c in t.value && !Space(c)
  }

  /** The order of preference; white space alone never speaks. */
  lemma PreferenceExactly(thinking: Option<string>, content: Option<string>, prompt: Option<string>)
    ensures Speaks(thinking) ==> EmbeddingText(thinking, content, prompt) == Some(Strip(thinking.value))
    ensures !Speaks(thinking) && Speaks(content) ==>
        EmbeddingText(thinking, content, prompt) == Some(Strip(content.value))
    ensures !Speaks(thinking) && !Speaks(content) ==> EmbeddingText(thinking, content, prompt) == prompt
  {
  }

  class Document {
    const thinking: Option<string>
    const content: Option<string>
    const prompt: Option<string>
    var embedding: Option<Vector>
    var embeddingModel: Option<string>

    constructor (thinking: Option<string>, content: Option<string>, prompt: Option<string>)
      ensures this.thinking == thinking && this.content == content && this.prompt == prompt
      ensures embedding == None && embeddingModel == None
    {
      this.thinking, this.content, this.prompt := thinking, content, prompt;
      embedding, embeddingModel := None, None;
    }
  }

  function TextOf(doc: Document): string {
    var text := EmbeddingText(doc.thinking, doc.content, doc.prompt);
    if text.Some? then text.value else ""
  }

  function TextsOf(docs: seq<Document>): seq<string> {
    seq(|docs|, i requires 0 <= i < |docs| => TextOf(docs[i]))
  }

  ghost function Present(vectors: seq<Option<Vector>>): nat {
    if vectors == [] then 0 else Present(vectors[..|vectors| - 1]) + if vectors[|vectors| - 1].Some? then 1 else 0
  }

  lemma {:induction false} PresentExactly(vectors: seq<Option<Vector>>)
    ensures Present(vectors) == |set i: nat | i < |vectors| && vectors[i].Some?|
  {
    var all := set i: nat | i < |vectors| && vectors[i].Some?;
    if vectors == [] {
      assert all == {};
    } else {
      var n := |vectors| - 1;
      PresentExactly(vectors[..n]);
      var before := set i: nat | i < n && vectors[..n][i].Some?;
      assert all == before + if vectors[n].Some? then {n} else {};
    }
  }

  /** The positions whose texts got a vector. */
  ghost function Placements(c: Call, texts: seq<string>): set<nat> {
    set i: nat | i < |texts| && VectorAt(c, texts, i).Some?
  }

  lemma PresentPlaces(c: Call, texts: seq<string>, vectors: seq<Option<Vector>>)
    requires |vectors| == |texts| && forall i :: 0 <= i < |texts| ==> vectors[i] == VectorAt(c, texts, i)
    ensures Present(vectors) == |Placements(c, texts)|
  {
    PresentExactly(vectors);
    assert Placements(c, texts) == set i: nat | i < |vectors| && vectors[i].Some?;
  }

  class EmbedStage {
    const embedder: VoyageEmbedder
    var embedded: nat

    constructor (embedder: VoyageEmbedder)
      ensures this.embedder == embedder && embedded == 0
    {
      this.embedder, embedded := embedder, 0;
    }

    /** Attaches to every document the vector of its own text, and to no other. */
    method Process(docs: seq<Document>, world: nat -> Turn)
      requires embedder.Valid()
      requires forall i, j :: 0 <= i < j < |docs| ==> docs[i] != docs[j]
      modifies this, embedder.breaker, embedder`sent, docs
      ensures forall i :: 0 <= i < |docs| ==>
        var v := if embedder.dims == 0 then None else VectorAt(old(embedder.CallWith(world)), TextsOf(docs), i);
        && docs[i].embedding == (if v.Some? then v else old(docs[i].embedding))
        && docs[i].embeddingModel == if v.Some? then Some(embedder.modelName) else old(docs[i].embeddingModel)
      ensures embedded == old(embedded)
          + if embedder.dims == 0 then 0 else |Placements(old(embedder.CallWith(world)), TextsOf(docs))|
    {
      ghost var c := embedder.CallWith(world);
      if embedder.dims == 0 || docs == [] {
        assert docs == [] ==> Placements(c, TextsOf(docs)) == {};
        return;
      }
      var texts := TextsOf(docs);
      var vectors := embedder.EmbedMany(texts, world);
      PresentPlaces(c, texts, vectors);
      Attach(docs, vectors);
    }

    /** `zip(records, vectors)` */
    method Attach(docs: seq<Document>, vectors: seq<Option<Vector>>)
      requires |vectors| == |docs|
      requires forall i, j :: 0 <= i < j < |docs| ==> docs[i] != docs[j]
      modifies `embedded, docs
      ensures forall i :: 0 <= i < |docs| ==>
        && docs[i].embedding == (if vectors[i].Some? then vectors[i] else old(docs[i].embedding))
        && docs[i].embeddingModel == if vectors[i].Some? then Some(embedder.modelName) else old(docs[i].embeddingModel)
      ensures embedded == old(embedded) + Present(vectors)
    {
      for i := 0 to |docs|
        invariant embedded == old(embedded) + Present(vectors[..i])
        invariant forall j :: 0 <= j < |docs| ==>
          && docs[j].embedding == (if j < i && vectors[j].Some? then vectors[j] else old(docs[j].embedding))
          && docs[j].embeddingModel == if j < i && vectors[j].Some? then Some(embedder.modelName)
               else old(docs[j].embeddingModel)
      {
        assert vectors[..i + 1][..i] == vectors[..i];
        if vectors[i].Some? {
          docs[i].embedding := vectors[i];
          docs[i].embeddingModel := Some(embedder.modelName);
          embedded := embedded + 1;
        }
      }
      assert vectors[..|docs|] == vectors;
    }
  }
}
