// Completions with several choices.  The stream parser never looks at a choice's index, so it
// folds all choices into one; the single form reads only the first.  Exactly when do they agree?

module OpenAiChoices {
  import opened Common
  import opened Sse
  import opened Parsing
  import opened OpenAi
  import opened OpenAiTheory

  // ----- Entries by choice ----------------------------------------------------------------

  /** The entries of choice i, in order of arrival. */
  function Own(choices: seq<Choice>, i: nat): seq<Choice> {
    if choices == [] then []
    else
      var n := |choices| - 1;
      Own(choices[..n], i) + if choices[n].index == i then [choices[n]] else []
  }

  /** The entries of all choices but the first. */
  function Others(choices: seq<Choice>): seq<Choice> {
    if choices == [] then []
    else
      var n := |choices| - 1;
      Others(choices[..n]) + if choices[n].index != 0 then [choices[n]] else []
  }

  lemma {:induction false} OwnMembers(choices: seq<Choice>, i: nat)
    ensures forall ch :: ch in Own(choices, i) <==> ch in choices && ch.index == i
  {
    if choices != [] {
      var n := |choices| - 1;
      OwnMembers(choices[..n], i);
      assert choices == choices[..n] + [choices[n]];
    }
  }

  lemma {:induction false} OthersMembers(choices: seq<Choice>)
    ensures forall ch :: ch in Others(choices) <==> ch in choices && ch.index != 0
  {
    if choices != [] {
      var n := |choices| - 1;
      OthersMembers(choices[..n]);
      assert choices == choices[..n] + [choices[n]];
    }
  }

  /** Any interleaving of any splittings of the choices of a completion. */
  ghost predicate SplitsChoices(choices: seq<Choice>, c: Completion) {
    && c.choices != []
    && (forall ch :: ch in choices ==> ch.index < |c.choices|)
    && forall i :: 0 <= i < |c.choices| ==> SplitsMessage(Own(choices, i), c.choices[i])
  }

  // ----- Content ------------------------------------------------------------------------------

  function ContentOf(choices: seq<Choice>): string {
    Concat(Flat(DeltaOf, choices))
  }

  lemma ContentSnoc(choices: seq<Choice>, ch: Choice)
    ensures ContentOf(choices + [ch]) == ContentOf(choices) + TextIn(ch.content)
  {
    FlatSnoc(DeltaOf, choices, ch);
    if ch.content.Some? {
      var parts := Flat(DeltaOf, choices);
      assert (parts + [ch.content.value])[..|parts|] == parts;
    } else {
      NothingMore(Flat(DeltaOf, choices));
      assert ContentOf(choices) + "" == ContentOf(choices);
    }
  }

  lemma {:induction false} NoContent(choices: seq<Choice>)
    ensures ContentOf(choices) == "" <==> forall ch :: ch in choices ==> TextIn(ch.content) == ""
  {
    if choices != [] {
      var before, ch := choices[..|choices| - 1], choices[|choices| - 1];
      NoContent(before);
      assert choices == before + [ch];
      ContentSnoc(before, ch);
    }
  }

  /** Length adds up over the first choice and the others; with nothing of the others the text is the first's. */
  lemma {:induction false} ContentOfTwoParts(choices: seq<Choice>)
    ensures |ContentOf(choices)| == |ContentOf(Own(choices, 0))| + |ContentOf(Others(choices))|
    ensures ContentOf(Others(choices)) == "" ==> ContentOf(choices) == ContentOf(Own(choices, 0))
  {
    if choices != [] {
      var before, ch := choices[..|choices| - 1], choices[|choices| - 1];
      ContentOfTwoParts(before);
      assert choices == before + [ch];
      ContentSnoc(before, ch);
      if ch.index == 0 {
        ContentSnoc(Own(before, 0), ch);
        NothingMore(Others(before));
      } else {
        ContentSnoc(Others(before), ch);
        NothingMore(Own(before, 0));
      }
    }
  }

  /** Every choice after the first contributes no text. */
  ghost predicate SilentOthers(c: Completion) {
    forall i :: 1 <= i < |c.choices| ==> TextIn(c.choices[i].content) == ""
  }

  lemma OthersAreSilentExactly(choices: seq<Choice>, c: Completion)
    requires SplitsChoices(choices, c)
    ensures ContentOf(Others(choices)) == "" <==> SilentOthers(c)
  {
    NoContent(Others(choices));
    OthersMembers(choices);
    forall i | 1 <= i < |c.choices|
      ensures TextIn(c.choices[i].content) == ""
          <==> forall ch :: ch in choices && ch.index == i ==> TextIn(ch.content) == ""
    {
      assert SplitsMessage(Own(choices, i), c.choices[i]);
      NoContent(Own(choices, i));
      OwnMembers(choices, i);
    }
    if SilentOthers(c) {
      forall ch | ch in choices && ch.index != 0 ensures TextIn(ch.content) == "" {
        assert TextIn(c.choices[ch.index].content) == "";
      }
    }
  }

  /**
   * The two forms agree on content exactly when no choice after the first contributes text,
   * and a content delta arrives, for whatever choice, exactly if the first choice has content.
   */
  lemma ContentOfChoicesExactly(choices: seq<Choice>, c: Completion)
    requires SplitsChoices(choices, c)
    ensures JoinText(Flat(DeltaOf, choices)) == c.choices[0].content
       <==> SilentOthers(c) && (HasDelta(choices) <==> c.choices[0].content.Some?)
  {
    assert SplitsMessage(Own(choices, 0), c.choices[0]);
    ContentOfTwoParts(choices);
    OthersAreSilentExactly(choices, c);
    if SilentOthers(c) {
      ContentAgreesExactly(choices, c.choices[0].content);
    }
  }

  // ----- Values where the last non-empty one wins ---------------------------------------------

  /** The choice that sent the last non-empty value of a field, if any did. */
  function LastGiver(field: Choice -> seq<Option<string>>, choices: seq<Choice>): Option<nat> {
    if choices == [] then None
    else
      var ch := choices[|choices| - 1];
      if Latest(field(ch)).Some? then Some(ch.index) else LastGiver(field, choices[..|choices| - 1])
  }

  lemma {:induction false} LatestSplits(a: seq<Option<string>>, b: seq<Option<string>>)
    ensures Latest(a + b) == if Latest(b).Some? then Latest(b) else Latest(a)
  {
    if b == [] {
      NothingMore(a);
    } else {
      assert (a + b)[..|a + b| - 1] == a + b[..|b| - 1];
      LatestSplits(a, b[..|b| - 1]);
    }
  }

  lemma {:induction false} FlatMember<T, U>(f: T -> seq<U>, xs: seq<T>, x: T, v: U)
    requires x in xs && v in f(x)
    ensures v in Flat(f, xs)
  {
    var n := |xs| - 1;
    if x != xs[n] {
      assert xs == xs[..n] + [xs[n]];
      FlatMember(f, xs[..n], x, v);
    }
  }

  /** What is left of a field is what the last giver sent. */
  lemma {:induction false} LatestIsGivers(field: Choice -> seq<Option<string>>, choices: seq<Choice>)
    ensures LastGiver(field, choices).None? ==> Latest(Flat(field, choices)) == None
    ensures LastGiver(field, choices).Some? ==>
      var v := Latest(Flat(field, choices));
      Truthy(v) && exists ch :: ch in choices && ch.index == LastGiver(field, choices).value && v in field(ch)
  {
    if choices != [] {
      var before, ch := choices[..|choices| - 1], choices[|choices| - 1];
      LatestIsGivers(field, before);
      LatestSplits(Flat(field, before), field(ch));
      LatestIsAmong(field(ch));
      assert choices == before + [ch];
    }
  }

  /** With each choice sending its own value: the last giver's value is what is left. */
  lemma GiversValueIsLeft(field: Choice -> seq<Option<string>>, choices: seq<Choice>, targets: seq<Option<string>>)
    requires forall ch :: ch in choices ==> ch.index < |targets|
    requires forall i :: 0 <= i < |targets| ==> Delivers(Flat(field, Own(choices, i)), targets[i])
    ensures match LastGiver(field, choices)
      case None => Latest(Flat(field, choices)) == None
      case Some(j) => j < |targets| && Latest(Flat(field, choices)) == targets[j] && Truthy(targets[j])
  {
    LatestIsGivers(field, choices);
    if LastGiver(field, choices).Some? {
      var j, v := LastGiver(field, choices).value, Latest(Flat(field, choices));
      var ch :| ch in choices && ch.index == j && v in field(ch);
      OwnMembers(choices, j);
      FlatMember(field, Own(choices, j), ch, v);
    }
  }

  function FinishesOf(c: Completion): seq<Option<string>> {
    seq(|c.choices|, i requires 0 <= i < |c.choices| => c.choices[i].finish)
  }

  lemma FinishesDelivered(choices: seq<Choice>, c: Completion)
    requires SplitsChoices(choices, c)
    ensures forall i :: 0 <= i < |c.choices| ==> Delivers(Flat(FinishOf, Own(choices, i)), FinishesOf(c)[i])
  {
    forall i | 0 <= i < |c.choices| ensures Delivers(Flat(FinishOf, Own(choices, i)), FinishesOf(c)[i]) {
      assert SplitsMessage(Own(choices, i), c.choices[i]);
    }
  }

  /** The last giver has the first choice's value, or nobody gave one and the first choice has none. */
  predicate GivesAsFirst(giver: Option<nat>, targets: seq<Option<string>>)
    requires targets != []
  {
    match giver
    case None => targets[0] == None
    case Some(j) => j < |targets| && targets[j] == targets[0]
  }

  /**
   * The two forms agree on the finish reason exactly when the choice that sent the last
   * non-empty one has the first choice's, or none was sent and the first choice has none.
   */
  lemma FinishOfChoicesExactly(choices: seq<Choice>, c: Completion)
    requires SplitsChoices(choices, c)
    ensures Latest(Flat(FinishOf, choices)) == c.choices[0].finish
       <==> GivesAsFirst(LastGiver(FinishOf, choices), FinishesOf(c))
  {
    var targets := FinishesOf(c);
    FinishesDelivered(choices, c);
    GiversValueIsLeft(FinishOf, choices, targets);
    assert targets[0] == c.choices[0].finish;
  }

  // ----- Tool slots: fragments of all choices land in the same indices ------------------------

  lemma {:induction false} OfSplits(a: seq<Fragment>, b: seq<Fragment>, k: int)
    ensures Of(a + b, k) == Of(a, k) + Of(b, k)
  {
    if b == [] {
      NothingMore(a);
      NothingMore(Of(a, k));
    } else {
      assert (a + b)[..|a + b| - 1] == a + b[..|b| - 1];
      OfSplits(a, b[..|b| - 1], k);
    }
  }

  /** The ids a choice entry sends to slot k. */
  function IdsAt(k: int): Choice -> seq<Option<string>> {
    (ch: Choice) => Flat(IdOf, Of(ch.fragments, k))
  }

  function NamesAt(k: int): Choice -> seq<Option<string>> {
    (ch: Choice) => Flat(NameOf, Of(ch.fragments, k))
  }

  function FragmentsIn(choices: seq<Choice>): seq<Fragment> {
    Flat(FragmentsOf, choices)
  }

  lemma {:induction false} FieldsAtSlot(choices: seq<Choice>, k: int)
    ensures Flat(IdsAt(k), choices) == Flat(IdOf, Of(FragmentsIn(choices), k))
    ensures Flat(NamesAt(k), choices) == Flat(NameOf, Of(FragmentsIn(choices), k))
  {
    if choices != [] {
      var before, ch := choices[..|choices| - 1], choices[|choices| - 1];
      FieldsAtSlot(before, k);
      OfSplits(FragmentsIn(before), ch.fragments, k);
      FlatSplits(IdOf, Of(FragmentsIn(before), k), Of(ch.fragments, k));
      FlatSplits(NameOf, Of(FragmentsIn(before), k), Of(ch.fragments, k));
    }
  }

  // ----- Order: slots of all choices together still appear as 0, 1, 2, … -----------------------

  ghost predicate InOrder(fs: seq<Fragment>) {
    FirstSeen(fs) == Upto(|FirstSeen(fs)|)
  }

  lemma {:induction false} FirstSeenGrows(a: seq<Fragment>, b: seq<Fragment>)
    ensures FirstSeen(a) <= FirstSeen(a + b)
    decreases |b|
  {
    if b == [] {
      NothingMore(a);
    } else {
      assert (a + b)[..|a + b| - 1] == a + b[..|b| - 1];
      FirstSeenGrows(a, b[..|b| - 1]);
    }
  }

  lemma {:induction false} FirstSeenMembers(fs: seq<Fragment>)
    ensures forall k :: k in FirstSeen(fs) <==> exists f :: f in fs && Slot(f) == k
  {
    if fs != [] {
      var n := |fs| - 1;
      FirstSeenMembers(fs[..n]);
      assert fs == fs[..n] + [fs[n]];
    }
  }

  lemma {:induction false} UptoPrefix(n: nat, m: nat)
    requires m <= n
    ensures |Upto(n)| == n && Upto(n)[..m] == Upto(m)
  {
    UptoMembers(n);
    if m < n {
      UptoPrefix(n - 1, m);
      assert Upto(n)[..m] == Upto(n - 1)[..m];
    } else {
      assert Upto(n)[..n] == Upto(n);
    }
  }

  lemma PrefixInOrder(a: seq<Fragment>, b: seq<Fragment>)
    requires InOrder(a + b)
    ensures InOrder(a)
  {
    FirstSeenGrows(a, b);
    UptoPrefix(|FirstSeen(a + b)|, |FirstSeen(a)|);
    assert FirstSeen(a) == FirstSeen(a + b)[..|FirstSeen(a)|];
  }

  lemma FirstSeenSnoc(fs: seq<Fragment>, f: Fragment)
    ensures FirstSeen(fs + [f]) == if Slot(f) in FirstSeen(fs) then FirstSeen(fs) else FirstSeen(fs) + [Slot(f)]
  {
    assert (fs + [f])[..|fs|] == fs;
  }

  lemma UptoNext(n: nat, m: nat, x: int)
    requires m <= n && (x in Upto(m) || Upto(m) + [x] == Upto(m + 1))
    ensures x !in Upto(n) ==> m == n && Upto(n) + [x] == Upto(n + 1)
  {
    UptoMembers(m);
    UptoMembers(n);
    if x !in Upto(m) {
      assert (Upto(m) + [x])[m] == x && (Upto(m) + [m])[m] == m;
    }
  }

  lemma FirstSeenIs(fs: seq<Fragment>, n: nat)
    requires FirstSeen(fs) == Upto(n)
    ensures InOrder(fs) && |FirstSeen(fs)| == n
  {
    UptoMembers(n);
  }

  /** One more fragment of a choice that is itself in order. */
  lemma NextInOrder(all: seq<Fragment>, own: seq<Fragment>, f: Fragment)
    requires InOrder(all) && InOrder(own) && InOrder(own + [f]) && |FirstSeen(own)| <= |FirstSeen(all)|
    ensures InOrder(all + [f]) && |FirstSeen(own + [f])| <= |FirstSeen(all + [f])|
  {
    var m, n, x := |FirstSeen(own)|, |FirstSeen(all)|, Slot(f);
    FirstSeenSnoc(all, f);
    FirstSeenSnoc(own, f);
    UptoNext(n, m, x);
    if x !in Upto(n) {
      FirstSeenIs(all + [f], n + 1);
    } else if x !in Upto(m) {
      UptoMembers(m + 1);
      UptoMembers(n);
      assert Upto(m + 1)[m] == m && (Upto(m) + [x])[m] == x;
    }
  }

  lemma {:induction false} EntryInOrder(all: seq<Fragment>, own: seq<Fragment>, fs: seq<Fragment>)
    requires InOrder(all) && InOrder(own + fs) && |FirstSeen(own)| <= |FirstSeen(all)|
    ensures InOrder(all + fs) && |FirstSeen(own + fs)| <= |FirstSeen(all + fs)|
    decreases |fs|
  {
    if fs == [] {
      NothingMore(all);
      NothingMore(own);
    } else {
      var before, f := fs[..|fs| - 1], fs[|fs| - 1];
      assert fs == before + [f];
      assert own + fs == (own + before) + [f] && all + fs == (all + before) + [f];
      PrefixInOrder(own + before, [f]);
      EntryInOrder(all, own, before);
      NextInOrder(all + before, own + before, f);
    }
  }

  lemma OwnNext(before: seq<Choice>, ch: Choice, j: nat)
    ensures FragmentsIn(Own(before + [ch], j))
         == FragmentsIn(Own(before, j)) + if ch.index == j then ch.fragments else []
  {
    assert (before + [ch])[..|before|] == before;
    if ch.index == j {
      FlatSnoc(FragmentsOf, Own(before, j), ch);
    } else {
      NothingMore(Own(before, j));
      NothingMore(FragmentsIn(Own(before, j)));
    }
  }

  /** Each choice's slots appear as 0, 1, 2, …, by themselves. */
  ghost predicate EachInOrder(choices: seq<Choice>) {
    forall j: nat :: InOrder(FragmentsIn(Own(choices, j)))
  }

  lemma EarlierInOrder(before: seq<Choice>, ch: Choice)
    requires EachInOrder(before + [ch])
    ensures EachInOrder(before)
  {
    forall j: nat ensures InOrder(FragmentsIn(Own(before, j))) {
      assert InOrder(FragmentsIn(Own(before + [ch], j)));
      OwnNext(before, ch, j);
      PrefixInOrder(FragmentsIn(Own(before, j)), if ch.index == j then ch.fragments else []);
    }
  }

  /** Choices in order by themselves are in order together, and together see at least as far. */
  lemma {:induction false} TogetherInOrder(choices: seq<Choice>, i: nat)
    requires EachInOrder(choices)
    ensures InOrder(FragmentsIn(choices))
    ensures |FirstSeen(FragmentsIn(Own(choices, i)))| <= |FirstSeen(FragmentsIn(choices))|
  {
    if choices != [] {
      var before, ch := choices[..|choices| - 1], choices[|choices| - 1];
      assert choices == before + [ch];
      EarlierInOrder(before, ch);
      TogetherInOrder(before, i);
      TogetherInOrder(before, ch.index);
      EntryTogether(before, ch, i);
    }
  }

  lemma EntryTogether(before: seq<Choice>, ch: Choice, i: nat)
    requires EachInOrder(before + [ch]) && InOrder(FragmentsIn(before))
    requires |FirstSeen(FragmentsIn(Own(before, i)))| <= |FirstSeen(FragmentsIn(before))|
    requires |FirstSeen(FragmentsIn(Own(before, ch.index)))| <= |FirstSeen(FragmentsIn(before))|
    ensures InOrder(FragmentsIn(before + [ch]))
    ensures |FirstSeen(FragmentsIn(Own(before + [ch], i)))| <= |FirstSeen(FragmentsIn(before + [ch]))|
  {
    var all, own := FragmentsIn(before), FragmentsIn(Own(before, ch.index));
    FlatSnoc(FragmentsOf, before, ch);
    OwnNext(before, ch, ch.index);
    OwnNext(before, ch, i);
    assert InOrder(FragmentsIn(Own(before + [ch], ch.index)));
    EntryInOrder(all, own, ch.fragments);
    FirstSeenGrows(all, ch.fragments);
    NothingMore(FragmentsIn(Own(before, i)));
  }

  // ----- What each slot holds ----------------------------------------------------------------------

  function SlotText(fs: seq<Fragment>, k: int): string {
    Concat(Flat(TextOf, Of(fs, k)))
  }

  lemma SlotTextSplits(a: seq<Fragment>, b: seq<Fragment>, k: int)
    ensures SlotText(a + b, k) == SlotText(a, k) + SlotText(b, k)
  {
    OfSplits(a, b, k);
    FlatSplits(TextOf, Of(a, k), Of(b, k));
    ConcatSplits(Flat(TextOf, Of(a, k)), Flat(TextOf, Of(b, k)));
  }

  /** A slot's text adds up like the content: nothing of the others leaves the first choice's. */
  lemma {:induction false} SlotTextOfTwoParts(choices: seq<Choice>, k: int)
    ensures |SlotText(FragmentsIn(choices), k)|
         == |SlotText(FragmentsIn(Own(choices, 0)), k)| + |SlotText(FragmentsIn(Others(choices)), k)|
    ensures SlotText(FragmentsIn(Others(choices)), k) == "" ==>
      SlotText(FragmentsIn(choices), k) == SlotText(FragmentsIn(Own(choices, 0)), k)
  {
    if choices != [] {
      var before, ch := choices[..|choices| - 1], choices[|choices| - 1];
      SlotTextOfTwoParts(before, k);
      assert choices == before + [ch];
      SlotTextSplits(FragmentsIn(before), ch.fragments, k);
      if ch.index == 0 {
        SlotTextSplits(FragmentsIn(Own(before, 0)), ch.fragments, k);
        OwnNext(before, ch, 0);
        NothingMore(Others(before));
      } else {
        SlotTextSplits(FragmentsIn(Others(before)), ch.fragments, k);
        FlatSnoc(FragmentsOf, Others(before), ch);
        NothingMore(Own(before, 0));
      }
    }
  }

  function ArgumentText(f: Fragment): string {
    TextIn(f.arguments)
  }

  lemma ArgumentsSnoc(fs: seq<Fragment>, f: Fragment)
    ensures Concat(Flat(TextOf, fs + [f])) == Concat(Flat(TextOf, fs)) + ArgumentText(f)
  {
    FlatSnoc(TextOf, fs, f);
    var parts := Flat(TextOf, fs);
    if f.arguments.Some? {
      assert (parts + [f.arguments.value])[..|parts|] == parts;
    } else {
      NothingMore(parts);
      assert Concat(parts) + "" == Concat(parts);
    }
  }

  lemma {:induction false} NoArgumentText(fs: seq<Fragment>)
    ensures Concat(Flat(TextOf, fs)) == "" <==> forall f :: f in fs ==> ArgumentText(f) == ""
  {
    if fs != [] {
      var before, f := fs[..|fs| - 1], fs[|fs| - 1];
      NoArgumentText(before);
      assert fs == before + [f];
      ArgumentsSnoc(before, f);
    }
  }

  lemma {:induction false} OfMembers(fs: seq<Fragment>, k: int)
    ensures forall f :: f in Of(fs, k) <==> f in fs && Slot(f) == k
  {
    if fs != [] {
      var n := |fs| - 1;
      OfMembers(fs[..n], k);
      assert fs == fs[..n] + [fs[n]];
    }
  }

  // ----- How many slots -----------------------------------------------------------------------------

  /** No other choice has more tool calls than the first. */
  ghost predicate FirstHasMostCalls(c: Completion)
    requires c.choices != []
  {
    forall i :: 0 <= i < |c.choices| ==> |c.choices[i].calls| <= |c.choices[0].calls|
  }

  lemma OwnIsInOrder(choices: seq<Choice>, c: Completion, i: nat)
    requires SplitsChoices(choices, c)
    ensures InOrder(FragmentsIn(Own(choices, i)))
    ensures i < |c.choices| ==> |FirstSeen(FragmentsIn(Own(choices, i)))| == |c.choices[i].calls|
    ensures i < |c.choices| ==>
      forall k :: k in FirstSeen(FragmentsIn(Own(choices, i))) <==> 0 <= k < |c.choices[i].calls|
  {
    if i < |c.choices| {
      assert SplitsMessage(Own(choices, i), c.choices[i]);
      FirstSeenIs(FragmentsIn(Own(choices, i)), |c.choices[i].calls|);
      UptoMembers(|c.choices[i].calls|);
    } else {
      OwnMembers(choices, i);
      assert Own(choices, i) == [] by {
        if Own(choices, i) != [] {
          assert Own(choices, i)[0] in Own(choices, i);
        }
      }
    }
  }

  /** A slot that appears at all appears in some choice. */
  lemma SlotComesFromChoice(choices: seq<Choice>, k: int) returns (i: nat)
    requires k in FirstSeen(FragmentsIn(choices))
    ensures k in FirstSeen(FragmentsIn(Own(choices, i))) && exists ch :: ch in choices && ch.index == i
  {
    FirstSeenMembers(FragmentsIn(choices));
    var f :| f in FragmentsIn(choices) && Slot(f) == k;
    var ch := EntryOf(choices, f);
    i := ch.index;
    OwnMembers(choices, i);
    FlatMember(FragmentsOf, Own(choices, i), ch, f);
    FirstSeenMembers(FragmentsIn(Own(choices, i)));
  }

  lemma {:induction false} EntryOf(choices: seq<Choice>, f: Fragment) returns (ch: Choice)
    requires f in FragmentsIn(choices)
    ensures ch in choices && f in ch.fragments
  {
    var n := |choices| - 1;
    if f in choices[n].fragments {
      ch := choices[n];
    } else {
      ch := EntryOf(choices[..n], f);
    }
  }

  lemma SlotCountExactly(choices: seq<Choice>, c: Completion)
    requires SplitsChoices(choices, c)
    ensures InOrder(FragmentsIn(choices)) && |FirstSeen(FragmentsIn(choices))| >= |c.choices[0].calls|
    ensures |FirstSeen(FragmentsIn(choices))| == |c.choices[0].calls| <==> FirstHasMostCalls(c)
  {
    forall j: nat ensures InOrder(FragmentsIn(Own(choices, j))) {
      OwnIsInOrder(choices, c, j);
    }
    var seen, n := FirstSeen(FragmentsIn(choices)), |c.choices[0].calls|;
    forall i | 0 <= i < |c.choices| ensures |c.choices[i].calls| <= |seen| {
      TogetherInOrder(choices, i);
      OwnIsInOrder(choices, c, i);
    }
    TogetherInOrder(choices, 0);
    UptoMembers(|seen|);
    if FirstHasMostCalls(c) && |seen| > n {
      var i := SlotComesFromChoice(choices, n);
      OwnIsInOrder(choices, c, i);
      assert false;
    }
  }

  // ----- The table of tool calls ---------------------------------------------------------------------

  function IdsSent(c: Completion, k: nat): seq<Option<string>> {
    seq(|c.choices|, i requires 0 <= i < |c.choices| =>
      if k < |c.choices[i].calls| then c.choices[i].calls[k].id else None)
  }

  function NamesSent(c: Completion, k: nat): seq<Option<string>> {
    seq(|c.choices|, i requires 0 <= i < |c.choices| =>
      if k < |c.choices[i].calls| then c.choices[i].calls[k].name else None)
  }

  lemma {:induction false} NothingAtSlot(fs: seq<Fragment>, k: int)
    requires k !in FirstSeen(fs)
    ensures Of(fs, k) == []
  {
    if fs != [] {
      NothingAtSlot(fs[..|fs| - 1], k);
    }
  }

  lemma FieldsDelivered(choices: seq<Choice>, c: Completion, k: nat, i: nat)
    requires SplitsChoices(choices, c) && i < |c.choices|
    ensures Delivers(Flat(IdsAt(k), Own(choices, i)), IdsSent(c, k)[i])
    ensures Delivers(Flat(NamesAt(k), Own(choices, i)), NamesSent(c, k)[i])
  {
    var own := Own(choices, i);
    assert SplitsMessage(own, c.choices[i]);
    FieldsAtSlot(own, k);
    if k < |c.choices[i].calls| {
      assert SpellsOut(Of(FragmentsIn(own), k), c.choices[i].calls[k]);
    } else {
      OwnIsInOrder(choices, c, i);
      NothingAtSlot(FragmentsIn(own), k);
    }
  }

  /** No other choice sent argument text to slot k. */
  ghost predicate OthersSilentAt(choices: seq<Choice>, k: nat) {
    forall f :: f in FragmentsIn(Others(choices)) && Slot(f) == k ==> ArgumentText(f) == ""
  }

  /** Slot k agrees with the first choice's k-th call. */
  ghost predicate SlotKept(choices: seq<Choice>, c: Completion, k: nat)
    requires c.choices != [] && k < |c.choices[0].calls|
  {
    && GivesAsFirst(LastGiver(IdsAt(k), choices), IdsSent(c, k))
    && GivesAsFirst(LastGiver(NamesAt(k), choices), NamesSent(c, k))
    && Completed(c.choices[0].calls[k]).arguments.Raw?
    && OthersSilentAt(choices, k)
  }

  lemma FieldsLeft(choices: seq<Choice>, c: Completion, k: nat)
    requires SplitsChoices(choices, c) && k < |c.choices[0].calls|
    ensures var slot, call := Of(FragmentsIn(choices), k), c.choices[0].calls[k];
      && (Latest(Flat(IdOf, slot)) == call.id <==> GivesAsFirst(LastGiver(IdsAt(k), choices), IdsSent(c, k)))
      && (Latest(Flat(NameOf, slot)) == call.name <==> GivesAsFirst(LastGiver(NamesAt(k), choices), NamesSent(c, k)))
  {
    forall i | 0 <= i < |c.choices|
      ensures Delivers(Flat(IdsAt(k), Own(choices, i)), IdsSent(c, k)[i])
      ensures Delivers(Flat(NamesAt(k), Own(choices, i)), NamesSent(c, k)[i])
    {
      FieldsDelivered(choices, c, k, i);
    }
    FieldsAtSlot(choices, k);
    GiversValueIsLeft(IdsAt(k), choices, IdsSent(c, k));
    GiversValueIsLeft(NamesAt(k), choices, NamesSent(c, k));
  }

  lemma SlotAgreesExactly(choices: seq<Choice>, c: Completion, k: nat)
    requires SplitsChoices(choices, c) && k < |c.choices[0].calls|
    ensures Spelled(Of(FragmentsIn(choices), k)) == Completed(c.choices[0].calls[k]) <==> SlotKept(choices, c, k)
  {
    FieldsLeft(choices, c, k);
    OfMembers(FragmentsIn(Others(choices)), k);
    NoArgumentText(Of(FragmentsIn(Others(choices)), k));
    SlotTextOfTwoParts(choices, k);
    assert SplitsMessage(Own(choices, 0), c.choices[0]);
    assert SpellsOut(Of(FragmentsIn(Own(choices, 0)), k), c.choices[0].calls[k]);
  }

  /** What a table of tool calls needs to be the first choice's: no further calls, and each slot kept. */
  ghost predicate TableKept(choices: seq<Choice>, c: Completion)
    requires c.choices != []
  {
    FirstHasMostCalls(c) && forall k :: 0 <= k < |c.choices[0].calls| ==> SlotKept(choices, c, k)
  }

  lemma SlotInPlace(choices: seq<Choice>, c: Completion, k: nat)
    requires SplitsChoices(choices, c) && FirstHasMostCalls(c) && k < |c.choices[0].calls|
    ensures Assemble(FragmentsIn(choices)).At(k) == Collect(c.choices[0].calls).At(k) <==> SlotKept(choices, c, k)
  {
    var a := Assemble(FragmentsIn(choices));
    SlotCountExactly(choices, c);
    OrderIsFirstSeen(FragmentsIn(choices));
    SlotSpellsItsFragments(FragmentsIn(choices), k);
    CollectIsInOrder(c.choices[0].calls);
    UptoMembers(|c.choices[0].calls|);
    SlotAgreesExactly(choices, c, k);
    assert k in a.order && a.At(k).Some?;
  }

  /**
   * Fragments of all choices land in the same slots.  The table is the first choice's exactly
   * when no other choice has more calls and, slot by slot, the last non-empty id and name were
   * sent by a choice that has the first one's, the first choice's arguments are text, and no
   * other choice sent argument text.
   */
  lemma ToolsOfChoicesExactly(choices: seq<Choice>, c: Completion)
    requires SplitsChoices(choices, c)
    ensures Assemble(FragmentsIn(choices)) == Collect(c.choices[0].calls) <==> TableKept(choices, c)
  {
    var calls := c.choices[0].calls;
    var a, b := Assemble(FragmentsIn(choices)), Collect(calls);
    SlotCountExactly(choices, c);
    OrderIsFirstSeen(FragmentsIn(choices));
    CollectIsInOrder(calls);
    UptoMembers(|calls|);
    if FirstHasMostCalls(c) {
      forall k | 0 <= k < |calls| ensures a.At(k) == b.At(k) <==> SlotKept(choices, c, k) {
        SlotInPlace(choices, c, k);
      }
      if TableKept(choices, c) {
        SameOrderSameSlots(a, b, |calls|);
      }
    }
  }

  lemma SameOrderSameSlots(a: Tools, b: Tools, n: nat)
    requires a.Valid() && b.Valid() && a.order == b.order == Upto(n)
    requires forall k :: 0 <= k < n ==> a.At(k) == b.At(k)
    ensures a == b
  {
    UptoMembers(n);
    forall k ensures a.At(k) == b.At(k) {
      assert k in a.order <==> 0 <= k < n;
    }
    SlotsByLookup(a, b);
  }

  /**
   * The text of slot k stands for the first choice's arguments: nobody else added to it, or what
   * it became decodes to the value the arguments have or decode to; null arguments have none.
   */
  ghost predicate ArgumentsStand(loads: Loads, choices: seq<Choice>, k: nat, a: Arguments) {
    var text := SlotText(FragmentsIn(choices), k);
    match a
    case Raw(own) => OthersSilentAt(choices, k)
                     || (own != "" && loads(own).Some? && text != "" && loads(text) == loads(own))
    case Decoded(v) => text != "" && loads(text) == Some(v)
    case Missing => false
  }

  lemma OthersSilentExactly(choices: seq<Choice>, c: Completion, k: nat)
    requires SplitsChoices(choices, c) && k < |c.choices[0].calls|
    requires Completed(c.choices[0].calls[k]).arguments.Raw?
    ensures OthersSilentAt(choices, k)
       <==> SlotText(FragmentsIn(choices), k) == Completed(c.choices[0].calls[k]).arguments.text
  {
    OfMembers(FragmentsIn(Others(choices)), k);
    NoArgumentText(Of(FragmentsIn(Others(choices)), k));
    SlotTextOfTwoParts(choices, k);
    assert SplitsMessage(Own(choices, 0), c.choices[0]);
    assert SpellsOut(Of(FragmentsIn(Own(choices, 0)), k), c.choices[0].calls[k]);
  }

  lemma ArgumentsStandExactly(loads: Loads, choices: seq<Choice>, c: Completion, k: nat)
    requires SplitsChoices(choices, c) && k < |c.choices[0].calls|
    ensures var a := Completed(c.choices[0].calls[k]).arguments;
      ReadArguments(loads, Raw(SlotText(FragmentsIn(choices), k))) == ReadArguments(loads, a)
      <==> ArgumentsStand(loads, choices, k, a)
  {
    if Completed(c.choices[0].calls[k]).arguments.Raw? {
      OthersSilentExactly(choices, c, k);
    }
  }

  /** Slot k is listed as the first choice's k-th call. */
  ghost predicate SlotListed(loads: Loads, choices: seq<Choice>, c: Completion, k: nat)
    requires c.choices != [] && k < |c.choices[0].calls|
  {
    && GivesAsFirst(LastGiver(IdsAt(k), choices), IdsSent(c, k))
    && GivesAsFirst(LastGiver(NamesAt(k), choices), NamesSent(c, k))
    && ArgumentsStand(loads, choices, k, Completed(c.choices[0].calls[k]).arguments)
  }

  ghost predicate ListKept(loads: Loads, choices: seq<Choice>, c: Completion)
    requires c.choices != []
  {
    FirstHasMostCalls(c) && forall k :: 0 <= k < |c.choices[0].calls| ==> SlotListed(loads, choices, c, k)
  }

  lemma EntryListedExactly(loads: Loads, choices: seq<Choice>, c: Completion, k: nat)
    requires SplitsChoices(choices, c) && k < |c.choices[0].calls|
    ensures Entry(loads, Spelled(Of(FragmentsIn(choices), k))) == Entry(loads, Completed(c.choices[0].calls[k]))
       <==> SlotListed(loads, choices, c, k)
  {
    FieldsLeft(choices, c, k);
    ArgumentsStandExactly(loads, choices, c, k);
  }

  lemma ListLength(loads: Loads, choices: seq<Choice>, c: Completion)
    requires SplitsChoices(choices, c)
    ensures |Finalize(loads, Assemble(FragmentsIn(choices)))| == |Finalize(loads, Collect(c.choices[0].calls))|
       <==> FirstHasMostCalls(c)
  {
    var a, b := Assemble(FragmentsIn(choices)), Collect(c.choices[0].calls);
    SlotCountExactly(choices, c);
    OrderIsFirstSeen(FragmentsIn(choices));
    CollectIsInOrder(c.choices[0].calls);
    UptoMembers(|c.choices[0].calls|);
    ListingAt(loads, a.order, a.slots);
    ListingAt(loads, b.order, b.slots);
  }

  lemma CallInPlace(loads: Loads, calls: seq<Call>, k: nat)
    requires k < |calls|
    ensures |Finalize(loads, Collect(calls))| == |calls|
    ensures Finalize(loads, Collect(calls))[k] == Entry(loads, Completed(calls[k]))
  {
    var b := Collect(calls);
    CollectIsInOrder(calls);
    UptoAt(|calls|, k);
    ListingAt(loads, b.order, b.slots);
    assert b.At(k) == Some(Completed(calls[k]));
  }

  lemma SlotListedInPlace(loads: Loads, fs: seq<Fragment>, n: nat, k: nat)
    requires FirstSeen(fs) == Upto(n) && k < n
    ensures |Finalize(loads, Assemble(fs))| == n
    ensures Finalize(loads, Assemble(fs))[k] == Entry(loads, Spelled(Of(fs, k)))
  {
    var a := Assemble(fs);
    OrderIsFirstSeen(fs);
    UptoAt(n, k);
    ListingAt(loads, a.order, a.slots);
    SlotSpellsItsFragments(fs, k);
    assert a.order[k] == k;
    assert a.At(k).Some?;
  }

  lemma EntryInPlace(loads: Loads, choices: seq<Choice>, c: Completion, k: nat)
    requires SplitsChoices(choices, c) && FirstHasMostCalls(c) && k < |c.choices[0].calls|
    ensures var a, b := Finalize(loads, Assemble(FragmentsIn(choices))), Finalize(loads, Collect(c.choices[0].calls));
      && |a| == |b| == |c.choices[0].calls|
      && a[k] == Entry(loads, Spelled(Of(FragmentsIn(choices), k)))
      && b[k] == Entry(loads, Completed(c.choices[0].calls[k]))
  {
    SlotCountExactly(choices, c);
    CallInPlace(loads, c.choices[0].calls, k);
    SlotListedInPlace(loads, FragmentsIn(choices), |c.choices[0].calls|, k);
  }

  lemma CollectListLength(loads: Loads, calls: seq<Call>)
    ensures |Finalize(loads, Collect(calls))| == |calls|
  {
    CollectIsInOrder(calls);
    UptoMembers(|calls|);
    ListingAt(loads, Collect(calls).order, Collect(calls).slots);
  }

  lemma EntriesListedExactly(loads: Loads, choices: seq<Choice>, c: Completion, a: seq<Tool>,
                                                b: seq<Tool>)
    requires SplitsChoices(choices, c) && FirstHasMostCalls(c) && |a| == |b| == |c.choices[0].calls|
    requires a == Finalize(loads, Assemble(FragmentsIn(choices))) && b == Finalize(loads, Collect(c.choices[0].calls))
    ensures forall k :: 0 <= k < |a| ==> (a[k] == b[k] <==> SlotListed(loads, choices, c, k))
  {
    forall k | 0 <= k < |a| ensures a[k] == b[k] <==> SlotListed(loads, choices, c, k) {
      EntryInPlace(loads, choices, c, k);
      EntryListedExactly(loads, choices, c, k);
    }
  }

  /** Lists of the same length are equal exactly when they are place by place. */
  lemma PlaceByPlace(a: seq<Tool>, b: seq<Tool>, kept: nat -> bool)
    requires |a| == |b| && forall k :: 0 <= k < |a| ==> (a[k] == b[k] <==> kept(k))
    ensures a == b <==> forall k :: 0 <= k < |a| ==> kept(k)
  {
  }

  /** The same for the list of tools a parse returns, where two texts may read as the same arguments. */
  lemma ToolListOfChoicesExactly(loads: Loads, choices: seq<Choice>, c: Completion)
    requires SplitsChoices(choices, c)
    ensures Finalize(loads, Assemble(FragmentsIn(choices))) == Finalize(loads, Collect(c.choices[0].calls))
       <==> ListKept(loads, choices, c)
  {
    var a, b := Finalize(loads, Assemble(FragmentsIn(choices))), Finalize(loads, Collect(c.choices[0].calls));
    var n := |c.choices[0].calls|;
    ListLength(loads, choices, c);
    CollectListLength(loads, c.choices[0].calls);
    if FirstHasMostCalls(c) {
      EntriesListedExactly(loads, choices, c, a, b);
      PlaceByPlace(a, b, (k: nat) => k < n && SlotListed(loads, choices, c, k));
    }
  }

  // ----- Several choices, all fields ---------------------------------------------------------------------

  /** Any splitting of a completion, with any number of choices, into chunks. */
  ghost predicate SplitsAll(chunks: seq<Chunk>, c: Completion) {
    && Delivers(Flat(ModelOf, chunks), c.model)
    && ReportsUsage(chunks, UsageOf(c.usage))
    && SplitsChoices(Flat(ChoicesOf, chunks), c)
  }

  /** Content, finish reason and tools each survive the folding of all choices into one. */
  ghost predicate Survives(loads: Loads, choices: seq<Choice>, c: Completion)
    requires c.choices != []
  {
    && SilentOthers(c) && (HasDelta(choices) <==> c.choices[0].content.Some?)
    && GivesAsFirst(LastGiver(FinishOf, choices), FinishesOf(c))
    && ListKept(loads, choices, c)
  }

  lemma ChunksOfChoicesExactly(loads: Loads, chunks: seq<Chunk>, c: Completion)
    requires SplitsAll(chunks, c)
    ensures Summary(loads, chunks, Complete) == SingleResult(loads, c)
       <==> c.model != Some("") && Survives(loads, Flat(ChoicesOf, chunks), c)
  {
    var choices, u := Flat(ChoicesOf, chunks), UsageOf(c.usage);
    DeliveredIsLatest(Flat(ModelOf, chunks), c.model);
    ReportedIsLatest(Flat(InputOf, chunks), u.input);
    ReportedIsLatest(Flat(OutputOf, chunks), u.output);
    ReportedIsLatest(Flat(TotalOf, chunks), u.total);
    ContentOfChoicesExactly(choices, c);
    FinishOfChoicesExactly(choices, c);
    ToolListOfChoicesExactly(loads, choices, c);
  }

  /**
   * For any number of choices: the streamed form, whose choices are folded into one, parses as the
   * single form, whose first choice is read, exactly when the model is not an empty string,
   * content, finish reason and tools each survive the folding, and the single form, which is not
   * itself an event stream, is not taken for one.
   */
  lemma SeveralChoicesExactly(d: Decoder, eol: string, es: seq<SseEvent>,
                                                 streamType: Option<string>, streamed: bool, single: string,
                                                 singleType: Option<string>, chunked: bool, c: Completion)
    requires Terminator(eol) && (forall e :: e in es ==> Printable(e)) && Payloads(es) != []
    requires ParsedAsStream(Print(eol, es), streamType, streamed)
    requires AllDecode(d, Payloads(es)) && SplitsAll(Chunks(d, Payloads(es)), c)
    requires d.completion(single) == Some(c) && !Blank(single) && !WholeStream(d, single)
    ensures var choices := Flat(ChoicesOf, Chunks(d, Payloads(es)));
      Read(d, Print(eol, es), streamType, streamed) == Read(d, single, singleType, chunked) <==>
      c.model != Some("") && Survives(d.loads, choices, c) && ParsedAsSingle(single, singleType, chunked)
  {
    PrintedReads(d, eol, es, streamType, streamed);
    SingleReads(d, single, singleType, chunked, c);
    ChunksOfChoicesExactly(d.loads, Chunks(d, Payloads(es)), c);
  }

  lemma OneEntrySplits(ch: Choice, m: Message)
    requires ch.content.Some? && ch.fragments == [] && ch.finish == None && m == Message(ch.content, [], None)
    ensures SplitsMessage([ch], m)
  {
    FlatOfTwo(DeltaOf, ch, ch);
    FlatOfTwo(FinishOf, ch, ch);
    FlatOfTwo(FragmentsOf, ch, ch);
    var t := ch.content.value;
    assert [t][..0] == [] && Concat([t]) == t;
  }

  lemma OwnOfTwo(a: Choice, b: Choice)
    requires a.index == 0 && b.index == 1
    ensures Own([a, b], 0) == [a] && Own([a, b], 1) == [b]
  {
    assert [a, b][..1] == [a] && [a][..0] == [];
    assert Own([a], 0) == [a] && Own([a], 1) == [];
  }

  lemma JoinedPair(x: string, y: string)
    ensures JoinText([x, y]) == Some(x + y)
  {
    assert [x, y][..1] == [x] && [x][..0] == [];
    assert Concat([x]) == x;
  }

  /** Two choices with text: the stream folds them into one, the single form reads the first. */
  lemma TwoChoicesFold(x: string, y: string, a: Choice, b: Choice, c: Completion)
    requires y != "" && a == Choice(0, Some(x), [], None) && b == Choice(1, Some(y), [], None)
    requires c == Completion(None, None, [Message(Some(x), [], None), Message(Some(y), [], None)])
    ensures SplitsChoices([a, b], c) && !SilentOthers(c)
    ensures JoinText(Flat(DeltaOf, [a, b])) == Some(x + y) != c.choices[0].content
  {
    OwnOfTwo(a, b);
    OneEntrySplits(a, c.choices[0]);
    OneEntrySplits(b, c.choices[1]);
    assert TextIn(c.choices[1].content) == y;
    FlatOfTwo(DeltaOf, a, b);
    assert [x] + [y] == [x, y] && |x + y| > |x|;
    JoinedPair(x, y);
  }
}
