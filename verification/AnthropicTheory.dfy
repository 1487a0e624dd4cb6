// What the Anthropic parser is for: tool blocks depend only on their own index's events, the
// streamed and the single form of a reply read alike, and truncation keeps a prefix.

module AnthropicTheory {
  import opened Common
  import opened Sse
  import opened Parsing
  import opened Anthropic
  import opened AnthropicEvents
  import Json

  // ----- What each block ends up holding ---------------------------------------------------

  function Of(ss: seq<Step>, i: int): seq<Step> {
    if ss == [] then []
    else Of(ss[..|ss| - 1], i) + if ss[|ss| - 1].index == i then [ss[|ss| - 1]] else []
  }

  /** Indices in the order of their first start. */
  function FirstOpened(ss: seq<Step>): seq<int> {
    if ss == [] then []
    else
      var before, s := FirstOpened(ss[..|ss| - 1]), ss[|ss| - 1];
      if s.Open? && s.index !in before then before + [s.index] else before
  }

  /** The position of the last start, or -1. */
  function LastOpen(ss: seq<Step>): (k: int)
    ensures -1 <= k < |ss|
    ensures k >= 0 ==> ss[k].Open?
    ensures forall j :: k < j < |ss| ==> ss[j].More?
  {
    if ss == [] then -1 else if ss[|ss| - 1].Open? then |ss| - 1 else LastOpen(ss[..|ss| - 1])
  }

  function Piece(s: Step): seq<string> { if s.More? then [s.text] else [] }

  /** What the last start and the pieces after it spell. */
  function SpelledFrom(ss: seq<Step>, k: nat): Tool
    requires k < |ss| && ss[k].Open?
  {
    Tool(ss[k].id, ss[k].name, Raw(Concat(Flat(Piece, ss[k + 1..]))))
  }

  /** The block one index's steps spell out: the last start and every piece after it. */
  function Spelled(ss: seq<Step>): Option<Tool> {
    var k := LastOpen(ss);
    if k < 0 then None else Some(SpelledFrom(ss, k))
  }

  lemma LastOpenSnoc(ss: seq<Step>, s: Step)
    ensures LastOpen(ss + [s]) == if s.Open? then |ss| else LastOpen(ss)
  {
    assert (ss + [s])[..|ss|] == ss;
  }

  /** What one more step of its index makes of a block. */
  function Respelled(held: Option<Tool>, s: Step): Option<Tool> {
    match s
    case Open(_, id, name) => Some(Tool(id, name, Raw("")))
    case More(_, text) => if held.None? then None else Some(Advance(held.value, text))
  }

  lemma PieceAdded(ss: seq<Step>, s: Step, k: nat)
    requires k < |ss| && s.More?
    ensures Concat(Flat(Piece, (ss + [s])[k + 1..])) == Concat(Flat(Piece, ss[k + 1..])) + s.text
    ensures (ss + [s])[k] == ss[k]
  {
    var rest := ss[k + 1..];
    assert (ss + [s])[k + 1..] == rest + [s];
    FlatSnoc(Piece, rest, s);
    ConcatSnoc(Flat(Piece, rest), s.text);
  }

  lemma SpelledFromSnoc(ss: seq<Step>, s: Step, k: nat)
    requires k < |ss| && ss[k].Open? && s.More?
    ensures SpelledFrom(ss + [s], k) == Advance(SpelledFrom(ss, k), s.text)
  {
    PieceAdded(ss, s, k);
  }

  lemma SpelledSnoc(ss: seq<Step>, s: Step)
    ensures Spelled(ss + [s]) == Respelled(Spelled(ss), s)
  {
    LastOpenSnoc(ss, s);
    if s.Open? {
      assert (ss + [s])[|ss| + 1..] == [];
    } else if LastOpen(ss) >= 0 {
      SpelledFromSnoc(ss, s, LastOpen(ss));
    }
  }

  lemma ApplyAt(t: Tools, s: Step, i: int)
    ensures Apply(t, s).At(i) == if s.index == i then Respelled(t.At(i), s) else t.At(i)
  {
  }

  lemma OfSnoc(ss: seq<Step>, s: Step, i: int)
    ensures Of(ss + [s], i) == if s.index == i then Of(ss, i) + [s] else Of(ss, i)
  {
    assert (ss + [s])[..|ss|] == ss;
  }

  lemma ConcatSnoc(parts: seq<string>, part: string)
    ensures Concat(parts + [part]) == Concat(parts) + part
  {
    assert (parts + [part])[..|parts|] == parts;
  }

  lemma {:induction false} BlockSpellsItsSteps(ss: seq<Step>, i: int)
    ensures Build(ss).At(i) == Spelled(Of(ss, i))
  {
    if ss != [] {
      var before, s := ss[..|ss| - 1], ss[|ss| - 1];
      BlockSpellsItsSteps(before, i);
      ApplyAt(Build(before), s, i);
      SpelledSnoc(Of(before, i), s);
      OfSnoc(before, s, i);
      assert ss == before + [s];
    }
  }

  lemma {:induction false} OrderIsFirstOpened(ss: seq<Step>)
    ensures Build(ss).order == FirstOpened(ss)
  {
    if ss != [] {
      OrderIsFirstOpened(ss[..|ss| - 1]);
      assert Build(ss[..|ss| - 1]).Valid();
    }
  }

  /** Each index holds what its own steps spell out, listed as the blocks were first started. */
  lemma BlocksSpellTheirSteps(ss: seq<Step>)
    ensures Build(ss).order == FirstOpened(ss)
    ensures forall i :: Build(ss).At(i) == Spelled(Of(ss, i))
  {
    OrderIsFirstOpened(ss);
    forall i ensures Build(ss).At(i) == Spelled(Of(ss, i)) {
      BlockSpellsItsSteps(ss, i);
    }
  }

  /**
   * Interleaving is irrelevant: blocks depend only on what each index received; output order
   * is order of first start, so two interleavings differ at most by a permutation.
   */
  lemma InterleavingIsIrrelevant(loads: Loads, ss: seq<Step>, ts: seq<Step>)
    requires forall i :: Of(ss, i) == Of(ts, i)
    ensures Build(ss).slots == Build(ts).slots
    ensures multiset(Build(ss).order) == multiset(Build(ts).order)
    ensures FirstOpened(ss) == FirstOpened(ts) ==> Finalize(loads, Build(ss)) == Finalize(loads, Build(ts))
  {
    BlocksSpellTheirSteps(ss);
    BlocksSpellTheirSteps(ts);
    var a, b := Build(ss), Build(ts);
    forall i ensures a.At(i) == b.At(i) {
      assert Of(ss, i) == Of(ts, i);
    }
    SlotsByLookup(a, b);
    SameElementsPermute(a.order, b.order);
  }

  ghost predicate OnlyPieces(ss: seq<Step>) {
    forall s :: s in ss ==> s.More?
  }

  /** Pieces that arrive before the first start of their index are dropped. */
  lemma {:induction false} EarlyPiecesAreDropped(early: seq<Step>, ss: seq<Step>)
    requires OnlyPieces(early)
    ensures Spelled(early + ss) == Spelled(ss)
  {
    if ss == [] {
      NothingMore(early);
      assert forall j :: 0 <= j < |early| ==> early[j] in early;
    } else {
      var before, s := ss[..|ss| - 1], ss[|ss| - 1];
      EarlyPiecesAreDropped(early, before);
      assert ss == before + [s] && early + ss == (early + before) + [s];
      SpelledSnoc(before, s);
      SpelledSnoc(early + before, s);
    }
  }

  /** A block started once, before its pieces, loses none of them. */
  lemma StartedBlockIsWhole(start: Step, pieces: seq<Step>)
    requires start.Open? && OnlyPieces(pieces)
    ensures Spelled([start] + pieces) == Some(Tool(start.id, start.name, Raw(Concat(Flat(Piece, pieces)))))
  {
    var ss := [start] + pieces;
    forall j | 0 < j < |ss| ensures ss[j].More? {
      assert ss[j] == pieces[j - 1] && pieces[j - 1] in pieces;
    }
    assert ss[0].Open?;
    assert ss[1..] == pieces;
  }

  // ----- Streamed form and single form ----------------------------------------------------------

  ghost predicate StartsThenSpells(ss: seq<Step>, call: Tool) {
    && ss != [] && ss[0].Open? && ss[0].id == call.id && ss[0].name == call.name && OnlyPieces(ss[1..])
  }

  /** The concatenated input text of a block. */
  function InputText(ss: seq<Step>): string
    requires ss != []
  {
    Concat(Flat(Piece, ss[1..]))
  }

  /** Every tool call is one block: a start with its id and name, then its input in pieces. */
  ghost predicate Blockwise(ss: seq<Step>, calls: seq<Tool>) {
    && |FirstOpened(ss)| == |calls|
    && forall k :: 0 <= k < |calls| ==> StartsThenSpells(Of(ss, FirstOpened(ss)[k]), calls[k])
  }

  /** Any splitting of a reply into events, whatever the tool inputs decode to. */
  ghost predicate Splits(rs: seq<Received>, r: Reply) {
    && Delivers(Flat(ModelOf, rs), r.model)
    && LastReport(ReportsInput, rs, if r.usage.Some? then r.usage.value.input else None)
    && LastReport(ReportsOutput, rs, if r.usage.Some? then r.usage.value.output else None)
    && Concat(Flat(TextOf, rs)) == Concat(Flat(TextBlock, r.content))
    && Concat(Flat(ThinkingOf, rs)) == Concat(Flat(ThinkingBlock, r.content))
    && Delivers(Flat(FinishOf, rs), r.stopReason)
    && Blockwise(Flat(StepOf, rs), Flat(ToolBlock, r.content))
  }

  lemma StartedBlockSpells(ss: seq<Step>, call: Tool)
    requires StartsThenSpells(ss, call)
    ensures Spelled(ss) == Some(call.(arguments := Raw(InputText(ss))))
  {
    StartedBlockIsWhole(ss[0], ss[1..]);
    assert ss == [ss[0]] + ss[1..];
  }

  /** The k-th tool listed is the k-th block, its text decoded where it decodes. */
  lemma BlockListed(loads: Loads, ss: seq<Step>, calls: seq<Tool>, k: nat)
    requires Blockwise(ss, calls) && k < |calls|
    ensures |Finalize(loads, Build(ss))| == |calls|
    ensures Finalize(loads, Build(ss))[k] ==
      calls[k].(arguments := ReadArguments(loads, Raw(InputText(Of(ss, FirstOpened(ss)[k])))))
  {
    var t, i := Build(ss), FirstOpened(ss)[k];
    OrderIsFirstOpened(ss);
    ListingAt(loads, t.order, t.slots);
    StartedBlockSpells(Of(ss, i), calls[k]);
    BlockSpellsItsSteps(ss, i);
  }

  lemma ToolsAgreeExactly(loads: Loads, ss: seq<Step>, calls: seq<Tool>)
    requires Blockwise(ss, calls)
    ensures Finalize(loads, Build(ss)) == calls <==>
      forall k :: 0 <= k < |calls| ==>
          ReadArguments(loads, Raw(InputText(Of(ss, FirstOpened(ss)[k])))) == calls[k].arguments
  {
    var tools := Finalize(loads, Build(ss));
    if calls == [] {
      BlocksSpellTheirSteps(ss);
    } else {
      BlockListed(loads, ss, calls, 0);
    }
    forall k | 0 <= k < |calls|
      ensures tools[k] == calls[k].(arguments := ReadArguments(loads, Raw(InputText(Of(ss, FirstOpened(ss)[k])))))
    {
      BlockListed(loads, ss, calls, k);
    }
  }

  // ----- When text is there at all ------------------------------------------------------------

  /** The stream has a delta of this kind. */
  ghost predicate HasDelta(rs: seq<Received>, kind: string) {
    exists r :: r in rs && r.event == Some("content_block_delta") && r.obj.delta.kind == Some(kind)
  }

  /** The reply has a block of this kind. */
  ghost predicate HasBlock(r: Reply, kind: string) {
    exists b :: b in r.content && b.kind == Some(kind)
  }

  /** Text, and likewise thinking, shows in both forms or in neither. */
  ghost predicate ShowsAlike(rs: seq<Received>, r: Reply) {
    && (HasDelta(rs, "text_delta") <==> HasBlock(r, "text"))
    && (HasDelta(rs, "thinking_delta") <==> HasBlock(r, "thinking"))
  }

  lemma JoinsAgreeExactly(a: seq<string>, b: seq<string>)
    requires Concat(a) == Concat(b)
    ensures JoinText(a) == JoinText(b) <==> (a == [] <==> b == [])
  {
  }

  lemma TextAgreesExactly(rs: seq<Received>, r: Reply)
    requires Concat(Flat(TextOf, rs)) == Concat(Flat(TextBlock, r.content))
    requires Concat(Flat(ThinkingOf, rs)) == Concat(Flat(ThinkingBlock, r.content))
    ensures JoinText(Flat(TextOf, rs)) == JoinText(Flat(TextBlock, r.content))
            && JoinText(Flat(ThinkingOf, rs)) == JoinText(Flat(ThinkingBlock, r.content))
       <==> ShowsAlike(rs, r)
  {
    FlatIsEmpty(TextOf, rs);
    FlatIsEmpty(ThinkingOf, rs);
    FlatIsEmpty(TextBlock, r.content);
    FlatIsEmpty(ThinkingBlock, r.content);
    JoinsAgreeExactly(Flat(TextOf, rs), Flat(TextBlock, r.content));
    JoinsAgreeExactly(Flat(ThinkingOf, rs), Flat(ThinkingBlock, r.content));
  }

  /** Model and stop reason arrive, unless they are empty strings. */
  predicate NothingEmpty(r: Reply) {
    r.model != Some("") && r.stopReason != Some("")
  }

  /** Every tool block's concatenated text reads as that tool's input. */
  ghost predicate InputsRead(loads: Loads, ss: seq<Step>, calls: seq<Tool>)
    requires Blockwise(ss, calls)
  {
    forall k :: 0 <= k < |calls| ==>
      ReadArguments(loads, Raw(InputText(Of(ss, FirstOpened(ss)[k])))) == calls[k].arguments
  }

  /** The text reads as an event stream, every event of which decodes. */
  ghost predicate WholeStream(d: Decoder, text: string) {
    StatusOf(d, Events(text)) == Complete
  }

  lemma NoDataLineNoStream(d: Decoder, text: string)
    requires NoDataLine(text)
    ensures !WholeStream(d, text) && ReadStream(d, text) == Summary(d.loads, [], Unparsed)
  {
    NoEvents(text);
  }

  /**
   * The streamed and the single form of a reply parse alike exactly when every tool block's
   * concatenated text reads as that tool's input, text and thinking show in both forms or in
   * neither, neither the model nor the stop reason is an empty string, and the single form,
   * which is not itself an event stream, is not taken for one: it did not come chunked, its
   * type does not say so, and `data:` is not among its first 512 characters.
   */
  lemma StreamedEqualsSingleExactly(d: Decoder, eol: string, es: seq<SseEvent>,
                                                       streamType: Option<string>, streamed: bool, single: string,
                                                       singleType: Option<string>, chunked: bool, r: Reply)
    requires Terminator(eol) && (forall e :: e in es ==> Printable(e)) && es != []
    requires ParsedAsStream(Print(eol, es), streamType, streamed)
    requires AllDecode(d, es) && Splits(ReceivedAll(d, es), r)
    requires d.reply(single) == Some(r) && !Blank(single) && !WholeStream(d, single)
    ensures var rs := ReceivedAll(d, es);
      Read(d, Print(eol, es), streamType, streamed) == Read(d, single, singleType, chunked) <==>
      && InputsRead(d.loads, Flat(StepOf, rs), Flat(ToolBlock, r.content)) && ShowsAlike(rs, r) && NothingEmpty(r)
      && !ParsedAsStream(single, singleType, chunked)
  {
    var rs := ReceivedAll(d, es);
    PrintThenRead(eol, es, "");
    PrintedIsNotBlank(eol, es);
    SummaryAgreesExactly(d.loads, rs, r);
  }

  /**
   * Two families of such replies: JSON that quotes `data:` early, and any one-line JSON that came
   * chunked; both read as nothing.
   */
  lemma SingleTakenForStream(d: Decoder, json: string, contentType: Option<string>)
    requires json != "" && json[0] == '{' && Clean(json)
    ensures Read(d, json, contentType, true) == Summary(d.loads, [], Unparsed)
    ensures Quotes(json) ==> Read(d, json, contentType, false) == Summary(d.loads, [], Unparsed)
  {
    JsonIsNoDataLine(json);
    NoDataLineNoStream(d, json);
    if Quotes(json) {
      QuotingReply(json, contentType);
    }
  }

  lemma UsageArrives(rs: seq<Received>, counts: Option<Counts>)
    requires LastReport(ReportsInput, rs, if counts.Some? then counts.value.input else None)
    requires LastReport(ReportsOutput, rs, if counts.Some? then counts.value.output else None)
    ensures Consumed(rs) == UsageOf(counts)
  {
    InputExactly(rs, UsageOf(counts).input);
    OutputExactly(rs, UsageOf(counts).output);
  }

  lemma SummaryAgreesExactly(loads: Loads, rs: seq<Received>, r: Reply)
    requires Splits(rs, r)
    ensures var single := ParseResult(r.model, UsageOf(r.usage), JoinText(Flat(TextBlock, r.content)),
              JoinText(Flat(ThinkingBlock, r.content)), Flat(ToolBlock, r.content), r.stopReason, Complete, None);
      Summary(loads, rs, Complete) == single <==>
      InputsRead(loads, Flat(StepOf, rs), Flat(ToolBlock, r.content)) && ShowsAlike(rs, r) && NothingEmpty(r)
  {
    DeliveredIsLatest(Flat(ModelOf, rs), r.model);
    DeliveredIsLatest(Flat(FinishOf, rs), r.stopReason);
    UsageArrives(rs, r.usage);
    TextAgreesExactly(rs, r);
    ToolsAgreeExactly(loads, Flat(StepOf, rs), Flat(ToolBlock, r.content));
  }

  /** A tool without input streams no text and reads as "", where the single form has a value: the forms differ. */
  lemma EmptyInputReadsDifferently(loads: Loads, rs: seq<Received>, r: Reply, k: nat)
    requires Splits(rs, r) && k < |Flat(ToolBlock, r.content)|
    requires var ss := Flat(StepOf, rs); InputText(Of(ss, FirstOpened(ss)[k])) == ""
    requires Flat(ToolBlock, r.content)[k].arguments.Decoded?
    ensures |Summary(loads, rs, Complete).tools| == |Flat(ToolBlock, r.content)|
    ensures Summary(loads, rs, Complete).tools[k].arguments == Raw("")
    ensures Summary(loads, rs, Complete).tools != Flat(ToolBlock, r.content)
  {
    BlockListed(loads, Flat(StepOf, rs), Flat(ToolBlock, r.content), k);
  }

  /** An empty text block streamed without a delta reads as no content, where the single form has "". */
  lemma EmptyTextReadsDifferently(loads: Loads, rs: seq<Received>, r: Reply)
    requires Splits(rs, r) && HasBlock(r, "text") && !HasDelta(rs, "text_delta")
    ensures Summary(loads, rs, Complete).content == None
    ensures JoinText(Flat(TextBlock, r.content)) == Some("")
  {
    FlatIsEmpty(TextOf, rs);
    FlatIsEmpty(TextBlock, r.content);
  }

  /** A tool call without input: a start, and no delta. */
  function ToolStart(): Received {
    Received(Some("content_block_start"),
             Object(None, Some(0), Message(None, None), Block(Some("tool_use"), Some("t1"), Some("now")),
                    Delta(None, None, None, None, None), None))
  }

  const NO_INPUT := Decoded(Json.Obj(map[]))

  const TOOL_REPLY :=
      Reply(None, None, None, [ContentBlock(Some("tool_use"), None, None, Some("t1"), Some("now"), NO_INPUT)])

  lemma ToolStartSays()
    ensures var rs := [ToolStart()];
      && Flat(StepOf, rs) == [Open(0, Some("t1"), Some("now"))] && Flat(TextOf, rs) == [] && Flat(ThinkingOf, rs) == []
      && Flat(ModelOf, rs) == [] && Flat(FinishOf, rs) == [] && Flat(InputOf, rs) == [] && Flat(OutputOf, rs) == []
  {
    var a := ToolStart();
    FlatOfTwo(StepOf, a, a);
    FlatOfTwo(TextOf, a, a);
    FlatOfTwo(ThinkingOf, a, a);
    FlatOfTwo(ModelOf, a, a);
    FlatOfTwo(FinishOf, a, a);
    FlatOfTwo(InputOf, a, a);
    FlatOfTwo(OutputOf, a, a);
  }

  lemma ToolReplySays()
    ensures Flat(TextBlock, TOOL_REPLY.content) == [] && Flat(ThinkingBlock, TOOL_REPLY.content) == []
    ensures Flat(ToolBlock, TOOL_REPLY.content) == [Tool(Some("t1"), Some("now"), NO_INPUT)]
  {
    var b := TOOL_REPLY.content[0];
    FlatOfTwo(TextBlock, b, b);
    FlatOfTwo(ThinkingBlock, b, b);
    FlatOfTwo(ToolBlock, b, b);
  }

  lemma OneStart(s: Step)
    requires s.Open?
    ensures FirstOpened([s]) == [s.index] && Of([s], s.index) == [s] && InputText([s]) == ""
  {
    assert [s][..0] == [] && [s][1..] == [];
    assert FirstOpened([s][..0]) == [] && Of([s][..0], s.index) == [];
  }

  /** Such a reply exists, and its two forms differ. */
  lemma ToolWithoutInput(loads: Loads)
    ensures Splits([ToolStart()], TOOL_REPLY)
    ensures Summary(loads, [ToolStart()], Complete).tools != Flat(ToolBlock, TOOL_REPLY.content)
  {
    ToolStartSays();
    ToolReplySays();
    OneStart(Open(0, Some("t1"), Some("now")));
    EmptyInputReadsDifferently(loads, [ToolStart()], TOOL_REPLY, 0);
  }

  const EMPTY_BLOCK := ContentBlock(Some("text"), Some(""), None, None, None, Missing)

  const EMPTY_REPLY := Reply(None, None, None, [EMPTY_BLOCK])

  /** The start or the stop of a text block. */
  function Boundary(event: string): Received {
    Received(Some(event), Object(None, Some(0), Message(None, None), Block(Some("text"), None, None),
                                 Delta(None, None, None, None, None), None))
  }

  /** Two events that say nothing. */
  lemma BoundariesSayNothing(a: Received, b: Received)
    requires a == Boundary("content_block_start") && b == Boundary("content_block_stop")
    ensures var rs := [a, b];
      && Flat(StepOf, rs) == [] && Flat(TextOf, rs) == [] && Flat(ThinkingOf, rs) == []
      && Flat(ModelOf, rs) == [] && Flat(FinishOf, rs) == [] && Flat(InputOf, rs) == [] && Flat(OutputOf, rs) == []
  {
    FlatOfTwo(StepOf, a, b);
    FlatOfTwo(TextOf, a, b);
    FlatOfTwo(ThinkingOf, a, b);
    FlatOfTwo(ModelOf, a, b);
    FlatOfTwo(FinishOf, a, b);
    FlatOfTwo(InputOf, a, b);
    FlatOfTwo(OutputOf, a, b);
  }

  lemma EmptyBlockSaysEmpty()
    ensures Flat(TextBlock, [EMPTY_BLOCK]) == [""] && Concat([""]) == ""
    ensures Flat(ThinkingBlock, [EMPTY_BLOCK]) == [] && Flat(ToolBlock, [EMPTY_BLOCK]) == []
  {
    FlatOfTwo(TextBlock, EMPTY_BLOCK, EMPTY_BLOCK);
    FlatOfTwo(ThinkingBlock, EMPTY_BLOCK, EMPTY_BLOCK);
    FlatOfTwo(ToolBlock, EMPTY_BLOCK, EMPTY_BLOCK);
    assert [""][..0] == [];
  }

  /** Such a reply exists: one empty text block, streamed as a start and a stop. */
  lemma EmptyTextBlockStreams() returns (rs: seq<Received>)
    ensures Splits(rs, EMPTY_REPLY) && HasBlock(EMPTY_REPLY, "text") && !HasDelta(rs, "text_delta")
  {
    var a, b := Boundary("content_block_start"), Boundary("content_block_stop");
    rs := [a, b];
    BoundariesSayNothing(a, b);
    EmptyBlockSaysEmpty();
    assert EMPTY_BLOCK in EMPTY_REPLY.content;
  }

  // ----- Truncation ---------------------------------------------------------------------------------

  lemma {:induction false} ReceivedSplits(d: Decoder, a: seq<SseEvent>, b: seq<SseEvent>)
    ensures ReceivedAll(d, a + b) == ReceivedAll(d, a) + ReceivedAll(d, b)
  {
    if b == [] {
      NothingMore(a);
    } else {
      assert (a + b)[..|a + b| - 1] == a + b[..|b| - 1];
      ReceivedSplits(d, a, b[..|b| - 1]);
    }
  }

  ghost predicate RejectsCuts(d: Decoder, es: seq<SseEvent>) {
    forall e, p: string :: e in es && p < e.data ==> d.decode(p).None?
  }

  lemma TextGrows(a: seq<Received>, b: seq<Received>)
    ensures TextIn(JoinText(Flat(TextOf, a))) <= TextIn(JoinText(Flat(TextOf, a + b)))
    ensures TextIn(JoinText(Flat(ThinkingOf, a))) <= TextIn(JoinText(Flat(ThinkingOf, a + b)))
  {
    FlatSplits(TextOf, a, b);
    FlatSplits(ThinkingOf, a, b);
    ConcatSplits(Flat(TextOf, a), Flat(TextOf, b));
    ConcatSplits(Flat(ThinkingOf, a), Flat(ThinkingOf, b));
  }

  /** The events of a cut stream: its first m, then perhaps one that does not decode. */
  lemma CutReceives(d: Decoder, eol: string, es: seq<SseEvent>, n: nat) returns (m: nat, more: seq<SseEvent>)
    requires Terminator(eol) && (forall e :: e in es ==> Printable(e)) && RejectsCuts(d, es)
    requires n <= |Print(eol, es)|
    ensures m <= |es| && Events(Print(eol, es)[..n]) == es[..m] + more
    ensures more == [] || (|more| == 1 && d.decode(more[0].data).None?)
  {
    m, more := CutPrintedStream(eol, es, n);
    if more != [] && more[0] == es[m] {
      assert es[..m] + more == es[..m + 1] + [];
      m, more := m + 1, [];
    }
  }

  /** An event that does not decode is not received and makes the status partial. */
  lemma UndecodedTail(d: Decoder, es: seq<SseEvent>, more: seq<SseEvent>)
    requires more == [] || (|more| == 1 && d.decode(more[0].data).None?)
    ensures ReceivedAll(d, es + more) == ReceivedAll(d, es)
    ensures StatusOf(d, es + more) == if more == [] then StatusOf(d, es) else Partial
  {
    if more == [] {
      NothingMore(es);
    } else {
      assert more == [more[0]];
      NextEvent(d, es, more[0]);
      NothingMore(ReceivedAll(d, es));
    }
  }

  lemma CutReads(d: Decoder, eol: string, es: seq<SseEvent>, n: nat) returns (m: nat)
    requires Terminator(eol) && (forall e :: e in es ==> Printable(e)) && RejectsCuts(d, es)
    requires n <= |Print(eol, es)|
    ensures m <= |es|
    ensures var cut := Events(Print(eol, es)[..n]);
      ReceivedAll(d, cut) == ReceivedAll(d, es[..m])
          && (StatusOf(d, cut) == StatusOf(d, es[..m]) || StatusOf(d, cut) == Partial)
  {
    var more;
    m, more := CutReceives(d, eol, es, n);
    UndecodedTail(d, es[..m], more);
  }

  lemma FirstEventsSayLess(d: Decoder, es: seq<SseEvent>, m: nat)
    requires m <= |es|
    ensures var some, all := Say(ReceivedAll(d, es[..m])), Say(ReceivedAll(d, es));
      && TextIn(JoinText(some.text)) <= TextIn(JoinText(all.text))
      && TextIn(JoinText(some.thinking)) <= TextIn(JoinText(all.thinking))
  {
    assert es == es[..m] + es[m..];
    ReceivedSplits(d, es[..m], es[m..]);
    TextGrows(ReceivedAll(d, es[..m]), ReceivedAll(d, es[m..]));
  }

  /**
   * A stream cut anywhere, as `parse` reads it.  Cut to nothing it is an empty body; still taken
   * for a stream it parses exactly as its first m events do, except that an event cut in two
   * makes the status partial, and content and reasoning are prefixes of the whole's; no longer
   * taken for one, it goes to the single-object parser.
   */
  lemma TruncatedStream(d: Decoder, eol: string, es: seq<SseEvent>, n: nat,
                                           contentType: Option<string>, streamed: bool) returns (m: nat)
    requires Terminator(eol) && (forall e :: e in es ==> Printable(e)) && RejectsCuts(d, es)
    requires n <= |Print(eol, es)|
    ensures m <= |es|
    ensures var cut := Print(eol, es)[..n];
      var r, whole := Read(d, cut, contentType, streamed), ReadStream(d, Print(eol, es));
      && (n == 0 ==> r == Failed("empty response body"))
      && (n > 0 && !ParsedAsStream(cut, contentType, streamed) ==> r == ReadSingle(d, cut))
      && (n > 0 && ParsedAsStream(cut, contentType, streamed) ==>
            && r == Summary(d.loads, ReceivedAll(d, es[..m]), r.status)
            && (r.status == StatusOf(d, es[..m]) || r.status == Partial)
            && TextIn(r.content) <= TextIn(whole.content) && TextIn(r.thinking) <= TextIn(whole.thinking))
  {
    m := CutReads(d, eol, es, n);
    CutIsNotBlank(eol, es, n);
    PrintThenRead(eol, es, "");
    FirstEventsSayLess(d, es, m);
  }
}
