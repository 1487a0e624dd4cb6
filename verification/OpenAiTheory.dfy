// What the OpenAI parser is for: the streamed and the single-object form of one completion
// read alike, and a truncated stream reads as the part of it that survived.

module OpenAiTheory {
  import opened Common
  import opened Sse
  import opened Parsing
  import opened OpenAi

  // ----- Streamed form and single form ---------------------------------------------------

  function Upto(n: nat): seq<int> {
    if n == 0 then [] else Upto(n - 1) + [n - 1]
  }

  lemma {:induction false} UptoMembers(n: nat)
    ensures |Upto(n)| == n && forall i :: i in Upto(n) <==> 0 <= i < n
  {
    if n > 0 {
      UptoMembers(n - 1);
    }
  }

  /** These fragments spell out one complete call: any cutting of its arguments, id and name at any time. */
  ghost predicate SpellsOut(fs: seq<Fragment>, call: Call) {
    && Delivers(Flat(IdOf, fs), call.id)
    && Delivers(Flat(NameOf, fs), call.name)
    && match Completed(call).arguments
       case Raw(text) => Concat(Flat(TextOf, fs)) == text
       case Missing => Concat(Flat(TextOf, fs)) == ""
       case Decoded(_) => true
  }

  ghost predicate SpellOutAll(fs: seq<Fragment>, calls: seq<Call>) {
    FirstSeen(fs) == Upto(|calls|) && forall i :: 0 <= i < |calls| ==> SpellsOut(Of(fs, i), calls[i])
  }

  /**
   * What keeps a spelled-out call the same: an id and a name that are not empty strings, and
   * arguments that are text, or a value that the text decodes to; null arguments never are.
   */
  ghost predicate CallKept(loads: Loads, fs: seq<Fragment>, call: Call) {
    && call.id != Some("") && call.name != Some("")
    && match Completed(call).arguments
       case Raw(_) => true
       case Missing => false
       case Decoded(v) => Concat(Flat(TextOf, fs)) != "" && loads(Concat(Flat(TextOf, fs))) == Some(v)
  }

  ghost predicate CallsKept(loads: Loads, fs: seq<Fragment>, calls: seq<Call>) {
    forall i :: 0 <= i < |calls| ==> CallKept(loads, Of(fs, i), calls[i])
  }

  ghost predicate ReportsUsage(chunks: seq<Chunk>, u: Usage) {
    && Reports(Flat(InputOf, chunks), u.input)
    && Reports(Flat(OutputOf, chunks), u.output)
    && Reports(Flat(TotalOf, chunks), u.total)
  }

  /** Any splitting of one message into choice entries. */
  ghost predicate SplitsMessage(choices: seq<Choice>, m: Message) {
    && Concat(Flat(DeltaOf, choices)) == TextIn(m.content)
    && Delivers(Flat(FinishOf, choices), m.finish)
    && SpellOutAll(Flat(FragmentsOf, choices), m.calls)
  }

  /** Any splitting of a one-choice completion into chunks. */
  ghost predicate Splits(chunks: seq<Chunk>, c: Completion) {
    && |c.choices| == 1
    && Delivers(Flat(ModelOf, chunks), c.model)
    && ReportsUsage(chunks, UsageOf(c.usage))
    && SplitsMessage(Flat(ChoicesOf, chunks), c.choices[0])
  }

  /** Some entry has a content delta. */
  ghost predicate HasDelta(choices: seq<Choice>) {
    exists ch :: ch in choices && ch.content.Some?
  }

  /** Nothing of the completion is lost on the way. */
  ghost predicate NothingLost(loads: Loads, chunks: seq<Chunk>, c: Completion)
    requires |c.choices| == 1
  {
    var choices := Flat(ChoicesOf, chunks);
    && c.model != Some("") && c.choices[0].finish != Some("")
    && (HasDelta(choices) <==> c.choices[0].content.Some?)
    && CallsKept(loads, Flat(FragmentsOf, choices), c.choices[0].calls)
  }

  /** Complete calls land in slots 0, 1, 2, … in order. */
  lemma {:induction false} CollectIsInOrder(calls: seq<Call>)
    ensures Collect(calls).order == Upto(|calls|)
    ensures forall i :: 0 <= i < |calls| ==> Collect(calls).At(i) == Some(Completed(calls[i]))
  {
    if calls != [] {
      var n := |calls| - 1;
      CollectIsInOrder(calls[..n]);
      UptoMembers(n);
      assert |Collect(calls[..n]).order| == n;
      CollectOneMore(Collect(calls[..n]), calls[..n], calls[n]);
      assert calls == calls[..n] + [calls[n]];
    }
  }

  lemma CollectOneMore(t: Tools, calls: seq<Call>, call: Call)
    requires |t.order| == |calls| && forall i :: 0 <= i < |calls| ==> t.At(i) == Some(Completed(calls[i]))
    ensures forall i :: 0 <= i <= |calls| ==>
        t.Put(|calls|, Completed(call)).At(i) == Some(Completed((calls + [call])[i]))
  {
    forall i | 0 <= i < |calls| ensures t.Put(|calls|, Completed(call)).At(i) == Some(Completed(calls[i])) {
      assert t.At(i) == Some(Completed(calls[i]));
    }
  }

  /** A spelled-out call is listed as the single form lists it exactly when it is kept. */
  lemma CallAgreesExactly(loads: Loads, fs: seq<Fragment>, call: Call)
    requires SpellsOut(fs, call)
    ensures Entry(loads, Spelled(fs)) == Entry(loads, Completed(call)) <==> CallKept(loads, fs, call)
  {
    DeliveredIsLatest(Flat(IdOf, fs), call.id);
    DeliveredIsLatest(Flat(NameOf, fs), call.name);
  }

  lemma SlotsOfSpelled(fs: seq<Fragment>, calls: seq<Call>, i: nat)
    requires SpellOutAll(fs, calls) && i < |calls|
    ensures Assemble(fs).order == Collect(calls).order == Upto(|calls|)
    ensures |Upto(|calls|)| == |calls| && Upto(|calls|)[i] == i && Assemble(fs).At(i) == Some(Spelled(Of(fs, i)))
    ensures Collect(calls).At(i) == Some(Completed(calls[i]))
  {
    SlotsSpellTheirFragments(fs);
    CollectIsInOrder(calls);
    UptoMembers(|calls|);
    UptoAt(|calls|, i);
    assert Assemble(fs).Valid();
    assert i in Assemble(fs).order;
    assert Assemble(fs).At(i).Some?;
  }

  lemma {:induction false} UptoAt(n: nat, i: nat)
    requires i < n
    ensures |Upto(n)| == n && Upto(n)[i] == i
  {
    UptoMembers(n);
    if i < n - 1 {
      UptoAt(n - 1, i);
      UptoMembers(n - 1);
    } else {
      UptoMembers(n - 1);
    }
  }

  lemma ToolsAgreeExactly(loads: Loads, fs: seq<Fragment>, calls: seq<Call>)
    requires SpellOutAll(fs, calls)
    ensures Finalize(loads, Assemble(fs)) == Finalize(loads, Collect(calls)) <==> CallsKept(loads, fs, calls)
  {
    var a, b := Assemble(fs), Collect(calls);
    SlotsSpellTheirFragments(fs);
    CollectIsInOrder(calls);
    UptoMembers(|calls|);
    ListingAt(loads, a.order, a.slots);
    ListingAt(loads, b.order, b.slots);
    forall i | 0 <= i < |calls|
      ensures Finalize(loads, a)[i] == Finalize(loads, b)[i] <==> CallKept(loads, Of(fs, i), calls[i])
    {
      SlotsOfSpelled(fs, calls, i);
      CallAgreesExactly(loads, Of(fs, i), calls[i]);
    }
  }

  lemma ContentAgreesExactly(choices: seq<Choice>, content: Option<string>)
    requires Concat(Flat(DeltaOf, choices)) == TextIn(content)
    ensures JoinText(Flat(DeltaOf, choices)) == content <==> (HasDelta(choices) <==> content.Some?)
  {
    FlatIsEmpty(DeltaOf, choices);
    JoinedExactly(Flat(DeltaOf, choices), content);
  }

  function SingleResult(loads: Loads, c: Completion): ParseResult
    requires c.choices != []
  {
    var m := c.choices[0];
    ParseResult(c.model, UsageOf(c.usage), m.content, None, Finalize(loads, Collect(m.calls)), m.finish, Complete, None)
  }

  lemma SummaryAgreesExactly(loads: Loads, chunks: seq<Chunk>, c: Completion)
    requires Splits(chunks, c)
    ensures Summary(loads, chunks, Complete) == SingleResult(loads, c) <==> NothingLost(loads, chunks, c)
  {
    var choices, u := Flat(ChoicesOf, chunks), UsageOf(c.usage);
    DeliveredIsLatest(Flat(ModelOf, chunks), c.model);
    DeliveredIsLatest(Flat(FinishOf, choices), c.choices[0].finish);
    ReportedIsLatest(Flat(InputOf, chunks), u.input);
    ReportedIsLatest(Flat(OutputOf, chunks), u.output);
    ReportedIsLatest(Flat(TotalOf, chunks), u.total);
    ContentAgreesExactly(choices, c.choices[0].content);
    ToolsAgreeExactly(loads, Flat(FragmentsOf, choices), c.choices[0].calls);
  }

  /** The text reads as an event stream, every payload of which decodes. */
  ghost predicate WholeStream(d: Decoder, text: string) {
    StatusOf(d, Payloads(Events(text))) == Complete
  }

  lemma NoDataLineNoStream(d: Decoder, text: string)
    requires NoDataLine(text)
    ensures !WholeStream(d, text) && ReadStream(d, text) == Summary(d.loads, [], Unparsed)
  {
    NoEvents(text);
  }

  /** The single form is given to the single-object parser. */
  predicate ParsedAsSingle(single: string, singleType: Option<string>, chunked: bool) {
    !ParsedAsStream(single, singleType, chunked)
  }

  /** A printed stream that decodes is read as its chunks say. */
  lemma PrintedReads(d: Decoder, eol: string, es: seq<SseEvent>, streamType: Option<string>, streamed: bool)
    requires Terminator(eol) && (forall e :: e in es ==> Printable(e)) && Payloads(es) != []
    requires ParsedAsStream(Print(eol, es), streamType, streamed) && AllDecode(d, Payloads(es))
    ensures Read(d, Print(eol, es), streamType, streamed) == Summary(d.loads, Chunks(d, Payloads(es)), Complete)
  {
    PrintThenRead(eol, es, "");
    PrintedIsNotBlank(eol, es);
  }

  /** A single object is read as its first choice says, or, taken for a stream, never completely. */
  lemma SingleReads(d: Decoder, single: string, singleType: Option<string>, chunked: bool, c: Completion)
    requires d.completion(single) == Some(c) && c.choices != [] && !Blank(single) && !WholeStream(d, single)
    ensures var r := Read(d, single, singleType, chunked);
      if ParsedAsSingle(single, singleType, chunked) then r == SingleResult(d.loads, c) else r.status != Complete
  {
  }

  /**
   * The streamed and the single form of a one-choice completion parse to the same model,
   * usage, content, tool calls, finish reason and status, exactly when nothing of it is lost on
   * the way (no empty model, finish reason, id or name; content that is there in both forms or
   * in neither; tool arguments that are text, or a value their text decodes to) and the single
   * form, which is not itself an event stream, is not taken for one: it did not come chunked,
   * its type does not say so, and `data:` is not among its first 512 characters.
   */
  lemma StreamedEqualsSingleExactly(d: Decoder, eol: string, es: seq<SseEvent>,
                                                       streamType: Option<string>, streamed: bool, single: string,
                                                       singleType: Option<string>, chunked: bool, c: Completion)
    requires Terminator(eol) && (forall e :: e in es ==> Printable(e)) && Payloads(es) != []
    requires ParsedAsStream(Print(eol, es), streamType, streamed)
    requires AllDecode(d, Payloads(es)) && Splits(Chunks(d, Payloads(es)), c)
    requires d.completion(single) == Some(c) && !Blank(single) && !WholeStream(d, single)
    ensures Read(d, Print(eol, es), streamType, streamed) == Read(d, single, singleType, chunked)
       <==> NothingLost(d.loads, Chunks(d, Payloads(es)), c) && ParsedAsSingle(single, singleType, chunked)
  {
    PrintedReads(d, eol, es, streamType, streamed);
    SingleReads(d, single, singleType, chunked, c);
    SummaryAgreesExactly(d.loads, Chunks(d, Payloads(es)), c);
  }

  /**
   * So a well-formed completion reads alike in both forms, unless the single one is taken for a stream
   * and not parsed.
   */
  lemma StreamedEqualsSingle(d: Decoder, eol: string, es: seq<SseEvent>, single: string,
                                                singleType: Option<string>, chunked: bool, c: Completion)
    requires Terminator(eol) && (forall e :: e in es ==> Printable(e)) && Payloads(es) != []
    requires AllDecode(d, Payloads(es)) && Splits(Chunks(d, Payloads(es)), c)
    requires NothingLost(d.loads, Chunks(d, Payloads(es)), c)
    requires d.completion(single) == Some(c) && !Blank(single) && NoDataLine(single)
    ensures Read(d, single, singleType, chunked) ==
      if ParsedAsSingle(single, singleType, chunked) then Read(d, Print(eol, es), None, true)
      else Summary(d.loads, [], Unparsed)
  {
    NoDataLineNoStream(d, single);
    StreamedEqualsSingleExactly(d, eol, es, None, true, single, singleType, chunked, c);
  }

  /**
   * Two families of such replies: JSON that quotes `data:` early, and any one-line JSON that came
   * chunked; both read as nothing.
   */
  lemma SingleTakenForStream(d: Decoder, json: string, contentType: Option<string>)
    requires json != "" && json[0] == '{' && Clean(json)
    ensures Read(d, json, contentType, true) == Summary(d.loads, [], Unparsed)
    ensures Quotes(json) ==> Read(d, json, contentType, false) == Summary(d.loads, [], Unparsed)
  {
    JsonIsNoDataLine(json);
    NoDataLineNoStream(d, json);
    if Quotes(json) {
      QuotingReply(json, contentType);
    }
  }

  /** Content null streamed as an empty delta reads as "", and content "" streamed without a delta reads as null. */
  lemma NullAndEmptyContentDiffer()
    ensures var empty, none := [Choice(0, Some(""), [], None)], [Choice(0, None, [], None)];
      && SplitsMessage(empty, Message(None, [], None)) && JoinText(Flat(DeltaOf, empty)) == Some("")
      && SplitsMessage(none, Message(Some(""), [], None)) && JoinText(Flat(DeltaOf, none)) == None
  {
    var empty, none := Choice(0, Some(""), [], None), Choice(0, None, [], None);
    FlatOfTwo(DeltaOf, empty, empty);
    FlatOfTwo(DeltaOf, none, none);
    FlatOfTwo(FinishOf, empty, empty);
    FlatOfTwo(FinishOf, none, none);
    FlatOfTwo(FragmentsOf, empty, empty);
    FlatOfTwo(FragmentsOf, none, none);
    assert [""][..0] == [] && Concat([""]) == "";
  }

  // ----- Truncation ---------------------------------------------------------------------------

  lemma {:induction false} ChunksSplit(d: Decoder, a: seq<string>, b: seq<string>)
    ensures Chunks(d, a + b) == Chunks(d, a) + Chunks(d, b)
  {
    if b == [] {
      assert a + b == a;
    } else {
      assert (a + b)[..|a + b| - 1] == a + b[..|b| - 1];
      ChunksSplit(d, a, b[..|b| - 1]);
    }
  }

  function Surviving(d: Decoder, es: seq<SseEvent>): seq<Chunk> {
    Chunks(d, Payloads(es))
  }

  lemma SurvivingSplits(d: Decoder, a: seq<SseEvent>, b: seq<SseEvent>)
    ensures Surviving(d, a + b) == Surviving(d, a) + Surviving(d, b)
  {
    FlatSplits(Payload, a, b);
    ChunksSplit(d, Payloads(a), Payloads(b));
  }

  lemma ContentGrows(loads: Loads, a: seq<Chunk>, b: seq<Chunk>, s: Status, t: Status)
    ensures TextIn(Summary(loads, a, s).content) <= TextIn(Summary(loads, a + b, t).content)
    ensures Gather(Flat(ChoicesOf, a)).fragments <= Gather(Flat(ChoicesOf, a + b)).fragments
  {
    var x, y := Flat(ChoicesOf, a), Flat(ChoicesOf, b);
    FlatSplits(ChoicesOf, a, b);
    FlatSplits(DeltaOf, x, y);
    FlatSplits(FragmentsOf, x, y);
    ConcatSplits(Flat(DeltaOf, x), Flat(DeltaOf, y));
  }

  /** No strict prefix of an event's data decodes. */
  ghost predicate RejectsCuts(d: Decoder, es: seq<SseEvent>) {
    forall e, p: string :: e in es && p < e.data ==> d.chunk(p).None?
  }

  /** What is left of a cut event decodes to nothing, unless it is the whole event. */
  lemma CutEventDecodesToNothing(d: Decoder, tail: SseEvent, e: SseEvent)
    requires tail.name == e.name && tail.data <= e.data
    requires forall p: string :: p < e.data ==> d.chunk(p).None?
    ensures tail == e || d.chunk(tail.data).None?
    ensures Payloads([tail]) == if tail.data == "[DONE]" then [] else [tail.data]
  {
    assert [tail][..0] == [] && Flat(Payload, [tail][..0]) == [];
  }

  /** The last event of a cut stream is the whole one, or yields at most a payload that does not decode. */
  lemma TailPayloads(d: Decoder, before: seq<SseEvent>, tail: SseEvent, e: SseEvent) returns (more: seq<string>)
    requires tail.name == e.name && tail.data <= e.data && tail != e
    requires forall p: string :: p < e.data ==> d.chunk(p).None?
    ensures Payloads(before + [tail]) == Payloads(before) + more
    ensures more == [] || (|more| == 1 && d.chunk(more[0]).None?)
  {
    CutEventDecodesToNothing(d, tail, e);
    FlatSplits(Payload, before, [tail]);
    more := Payloads([tail]);
  }

  /** The payloads of a cut stream: those of its first m events, then perhaps one that does not decode. */
  lemma CutPayloads(d: Decoder, eol: string, es: seq<SseEvent>, n: nat) returns (m: nat, more: seq<string>)
    requires Terminator(eol) && (forall e :: e in es ==> Printable(e)) && RejectsCuts(d, es)
    requires n <= |Print(eol, es)|
    ensures m <= |es| && Payloads(Events(Print(eol, es)[..n])) == Payloads(es[..m]) + more
    ensures more == [] || (|more| == 1 && d.chunk(more[0]).None?)
  {
    var k, tail := CutPrintedStream(eol, es, n);
    m, more := k, [];
    if tail == [] {
      NothingMore(es[..k]);
      NothingMore(Payloads(es[..k]));
    } else if tail[0] == es[k] {
      m := k + 1;
      assert es[..k] + tail == es[..m];
      NothingMore(Payloads(es[..m]));
    } else {
      assert tail == [tail[0]];
      more := TailPayloads(d, es[..k], tail[0], es[k]);
    }
  }

  /** A payload that does not decode adds no chunk and makes the status partial. */
  lemma UndecodedTail(d: Decoder, payloads: seq<string>, more: seq<string>)
    requires more == [] || (|more| == 1 && d.chunk(more[0]).None?)
    ensures Chunks(d, payloads + more) == Chunks(d, payloads)
    ensures StatusOf(d, payloads + more) == if more == [] then StatusOf(d, payloads) else Partial
  {
    if more == [] {
      NothingMore(payloads);
    } else {
      assert more == [more[0]];
      ChunksSnoc(d, payloads, more[0]);
      AllDecodeSnoc(d, payloads, more[0]);
      NothingMore(Chunks(d, payloads));
    }
  }

  lemma CutReads(d: Decoder, eol: string, es: seq<SseEvent>, n: nat) returns (m: nat)
    requires Terminator(eol) && (forall e :: e in es ==> Printable(e)) && RejectsCuts(d, es)
    requires n <= |Print(eol, es)|
    ensures m <= |es|
    ensures var cut := Payloads(Events(Print(eol, es)[..n]));
      Chunks(d, cut) == Surviving(d, es[..m])
          && (StatusOf(d, cut) == StatusOf(d, Payloads(es[..m])) || StatusOf(d, cut) == Partial)
  {
    var more;
    m, more := CutPayloads(d, eol, es, n);
    UndecodedTail(d, Payloads(es[..m]), more);
  }

  /**
   * A stream cut anywhere, as `parse` reads it.  Cut to nothing it is an empty body; still taken
   * for a stream it parses exactly as its first m events do, except that a payload cut in two
   * makes the status partial, and content and tool fragments are prefixes of the whole's; no
   * longer taken for one, it goes to the single-object parser.
   */
  lemma TruncatedStream(d: Decoder, eol: string, es: seq<SseEvent>, n: nat,
                                           contentType: Option<string>, streamed: bool) returns (m: nat)
    requires Terminator(eol) && (forall e :: e in es ==> Printable(e)) && RejectsCuts(d, es)
    requires n <= |Print(eol, es)|
    ensures m <= |es|
    ensures var cut := Print(eol, es)[..n];
      var r, whole := Read(d, cut, contentType, streamed), ReadStream(d, Print(eol, es));
      && (n == 0 ==> r == Failed("empty response body"))
      && (n > 0 && !ParsedAsStream(cut, contentType, streamed) ==> r == ReadSingle(d, cut))
      && (n > 0 && ParsedAsStream(cut, contentType, streamed) ==>
            && r == Summary(d.loads, Surviving(d, es[..m]), r.status)
            && (r.status == StatusOf(d, Payloads(es[..m])) || r.status == Partial)
            && TextIn(r.content) <= TextIn(whole.content))
    ensures Gather(Flat(ChoicesOf, Surviving(d, es[..m]))).fragments
        <= Gather(Flat(ChoicesOf, Surviving(d, es))).fragments
  {
    m := CutReads(d, eol, es, n);
    CutIsNotBlank(eol, es, n);
    PrintThenRead(eol, es, "");
    assert es == es[..m] + es[m..];
    SurvivingSplits(d, es[..m], es[m..]);
    var r, whole := ReadStream(d, Print(eol, es)[..n]), ReadStream(d, Print(eol, es));
    ContentGrows(d.loads, Surviving(d, es[..m]), Surviving(d, es[m..]), r.status, whole.status);
  }
}
