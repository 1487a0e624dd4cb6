// The OpenAI chat-completions parser (telemetry/parsers/openai_sse.py).  JSON decoding is a
// parameter; a decoded payload keeps just the fields the parser reads.

module OpenAi {
  import opened Common
  import opened Sse
  import opened Parsing

  /** One `delta.tool_calls` entry; a missing index reads as 0. */
  datatype Fragment = Fragment(index: Option<int>, id: Option<string>, name: Option<string>, arguments: Option<string>)

  /** One `choices` entry of a chunk.  Its index is on the wire; the stream parser never reads it. */
  datatype Choice = Choice(index: nat, content: Option<string>, fragments: seq<Fragment>, finish: Option<string>)

  datatype Chunk = Chunk(model: Option<string>, usage: Option<Usage>, choices: seq<Choice>)

  /** A complete tool call; `arguments` is None when the field is absent. */
  datatype Call = Call(id: Option<string>, name: Option<string>, arguments: Option<Arguments>)

  datatype Message = Message(content: Option<string>, calls: seq<Call>, finish: Option<string>)

  datatype Completion = Completion(model: Option<string>, usage: Option<Usage>, choices: seq<Message>)

  /** `safe_json` followed by reading the fields; None for text that is not a JSON object. */
  datatype Decoder = Decoder(chunk: string -> Option<Chunk>, completion: string -> Option<Completion>, loads: Loads)

  // ----- The accumulator, one fragment at a time --------------------------------------------

  function Slot(f: Fragment): int {
    if f.index.Some? then f.index.value else 0
  }

  const EMPTY_SLOT := Tool(None, None, Raw(""))

  /** `+=` on the arguments; only strings are ever extended. */
  function Extend(a: Arguments, text: Option<string>): Arguments {
    if a.Raw? && text.Some? then Raw(a.text + text.value) else a
  }

  function Grow(tool: Tool, f: Fragment): Tool {
    Tool(Newer(tool.id, f.id), Newer(tool.name, f.name), Extend(tool.arguments, f.arguments))
  }

  function AddFragment(t: Tools, f: Fragment): Tools {
    t.Put(Slot(f), Grow(if Slot(f) in t.slots then t.slots[Slot(f)] else EMPTY_SLOT, f))
  }

  function Assemble(fs: seq<Fragment>): (t: Tools)
    ensures t.Valid()
  {
    if fs == [] then NO_TOOLS else AddFragment(Assemble(fs[..|fs| - 1]), fs[|fs| - 1])
  }

  function Completed(call: Call): Tool {
    Tool(call.id, call.name, if call.arguments.Some? then call.arguments.value else Raw(""))
  }

  function Collect(calls: seq<Call>): (t: Tools)
    ensures t.Valid()
  {
    if calls == [] then NO_TOOLS
    else
      var t := Collect(calls[..|calls| - 1]);
      t.Put(|t.order|, Completed(calls[|calls| - 1]))
  }

  function Finalize(loads: Loads, t: Tools): seq<Tool>
    requires t.Valid()
  {
    Listing(loads, t.order, t.slots)
  }

  // ----- What each slot ends up holding, said without the accumulator --------------------------

  /** The fragments addressed to one index, in order of arrival. */
  function Of(fs: seq<Fragment>, i: int): seq<Fragment> {
    if fs == [] then []
    else Of(fs[..|fs| - 1], i) + if Slot(fs[|fs| - 1]) == i then [fs[|fs| - 1]] else []
  }

  /** Indices in order of first appearance. */
  function FirstSeen(fs: seq<Fragment>): seq<int> {
    if fs == [] then []
    else
      var before, i := FirstSeen(fs[..|fs| - 1]), Slot(fs[|fs| - 1]);
      if i in before then before else before + [i]
  }

  function IdOf(f: Fragment): seq<Option<string>> { [f.id] }
  function NameOf(f: Fragment): seq<Option<string>> { [f.name] }
  function TextOf(f: Fragment): seq<string> { if f.arguments.Some? then [f.arguments.value] else [] }

  /** The tool call a single index's fragments spell out. */
  function Spelled(fs: seq<Fragment>): Tool {
    Tool(Latest(Flat(IdOf, fs)), Latest(Flat(NameOf, fs)), Raw(Concat(Flat(TextOf, fs))))
  }

  lemma SpelledSnoc(fs: seq<Fragment>, f: Fragment)
    ensures Spelled(fs + [f]) == Grow(Spelled(fs), f)
  {
    FlatSnoc(IdOf, fs, f);
    FlatSnoc(NameOf, fs, f);
    FlatSnoc(TextOf, fs, f);
    LatestSnoc(Flat(IdOf, fs), f.id);
    LatestSnoc(Flat(NameOf, fs), f.name);
    var texts := Flat(TextOf, fs);
    ConcatSplits(texts, TextOf(f));
    if f.arguments.Some? {
      assert TextOf(f)[..0] == [] && Concat(TextOf(f)[..0]) == [];
      assert Concat(TextOf(f)) == f.arguments.value;
    } else {
      assert texts + [] == texts;
    }
  }

  function Held(fs: seq<Fragment>): Option<Tool> {
    if fs == [] then None else Some(Spelled(fs))
  }

  lemma {:induction false} SlotSpellsItsFragments(fs: seq<Fragment>, i: int)
    ensures Assemble(fs).At(i) == Held(Of(fs, i))
  {
    if fs != [] {
      var before, f := fs[..|fs| - 1], fs[|fs| - 1];
      SlotSpellsItsFragments(before, i);
      if Slot(f) == i {
        SpelledSnoc(Of(before, i), f);
        assert Spelled([]) == EMPTY_SLOT;
      } else {
        NothingMore(Of(before, i));
      }
    }
  }

  lemma {:induction false} OrderIsFirstSeen(fs: seq<Fragment>)
    ensures Assemble(fs).order == FirstSeen(fs)
  {
    if fs != [] {
      OrderIsFirstSeen(fs[..|fs| - 1]);
      assert Assemble(fs[..|fs| - 1]).Valid();
    }
  }

  /**
   * Each index holds the last non-empty id and name and the concatenated arguments of its own
   * fragments, and the table lists the indices as they first appeared.
   */
  lemma SlotsSpellTheirFragments(fs: seq<Fragment>)
    ensures Assemble(fs).order == FirstSeen(fs)
    ensures forall i :: Assemble(fs).At(i) == Held(Of(fs, i))
  {
    OrderIsFirstSeen(fs);
    forall i ensures Assemble(fs).At(i) == Held(Of(fs, i)) {
      SlotSpellsItsFragments(fs, i);
    }
  }

  /** Two streams interleave the same fragments when each index receives the same sequence. */
  ghost predicate SameFragments(fs: seq<Fragment>, gs: seq<Fragment>) {
    forall i :: Of(fs, i) == Of(gs, i)
  }

  /**
   * Interleaving is irrelevant: the slots depend only on what each index received.  Order of
   * output is order of first appearance; it alone can differ, and only by a permutation.
   */
  lemma InterleavingIsIrrelevant(loads: Loads, fs: seq<Fragment>, gs: seq<Fragment>)
    requires SameFragments(fs, gs)
    ensures Assemble(fs).slots == Assemble(gs).slots
    ensures multiset(Assemble(fs).order) == multiset(Assemble(gs).order)
    ensures FirstSeen(fs) == FirstSeen(gs) ==> Finalize(loads, Assemble(fs)) == Finalize(loads, Assemble(gs))
  {
    SlotsSpellTheirFragments(fs);
    SlotsSpellTheirFragments(gs);
    var a, b := Assemble(fs), Assemble(gs);
    forall i ensures a.At(i) == b.At(i) {
      assert Of(fs, i) == Of(gs, i);
    }
    SlotsByLookup(a, b);
    SameElementsPermute(a.order, b.order);
  }

  // ----- Reading a stream ---------------------------------------------------------------------

  /** The data payloads of an event stream, without the `[DONE]` marker. */
  function Payload(e: SseEvent): seq<string> { if e.data == "[DONE]" then [] else [e.data] }

  function Payloads(es: seq<SseEvent>): seq<string> { Flat(Payload, es) }

  function Chunks(d: Decoder, payloads: seq<string>): seq<Chunk> {
    if payloads == [] then []
    else
      var n := |payloads| - 1;
      Chunks(d, payloads[..n]) + if d.chunk(payloads[n]).Some? then [d.chunk(payloads[n]).value] else []
  }

  function ModelOf(c: Chunk): seq<Option<string>> { [c.model] }
  function InputOf(c: Chunk): seq<Option<int>> { if c.usage.Some? then [c.usage.value.input] else [] }
  function OutputOf(c: Chunk): seq<Option<int>> { if c.usage.Some? then [c.usage.value.output] else [] }
  function TotalOf(c: Chunk): seq<Option<int>> { if c.usage.Some? then [c.usage.value.total] else [] }
  function ChoicesOf(c: Chunk): seq<Choice> { c.choices }
  function DeltaOf(c: Choice): seq<string> { if c.content.Some? then [c.content.value] else [] }
  function FragmentsOf(c: Choice): seq<Fragment> { c.fragments }
  function FinishOf(c: Choice): seq<Option<string>> { [c.finish] }

  function Consumed(chunks: seq<Chunk>): Usage {
    Usage(LatestKnown(Flat(InputOf, chunks)), LatestKnown(Flat(OutputOf, chunks)), LatestKnown(Flat(TotalOf, chunks)))
  }

  /** What a sequence of choices contributes. */
  datatype Gathered = Gathered(parts: seq<string>, fragments: seq<Fragment>, finish: Option<string>)

  function Gather(choices: seq<Choice>): Gathered {
    Gathered(Flat(DeltaOf, choices), Flat(FragmentsOf, choices), Latest(Flat(FinishOf, choices)))
  }

  /** What a sequence of decoded chunks says, field by field. */
  function Summary(loads: Loads, chunks: seq<Chunk>, status: Status): ParseResult {
    var g := Gather(Flat(ChoicesOf, chunks));
    ParseResult(
      Latest(Flat(ModelOf, chunks)), Consumed(chunks), JoinText(g.parts), None,
      Finalize(loads, Assemble(g.fragments)), g.finish, status, None)
  }

  predicate AllDecode(d: Decoder, payloads: seq<string>) {
    forall p :: p in payloads ==> d.chunk(p).Some?
  }

  /** Nothing at all, something undecodable, or all of it read. */
  function StatusOf(d: Decoder, payloads: seq<string>): Status {
    if payloads == [] then Unparsed else if AllDecode(d, payloads) then Complete else Partial
  }

  function ReadStream(d: Decoder, text: string): ParseResult {
    var payloads := Payloads(Events(text));
    Summary(d.loads, Chunks(d, payloads), StatusOf(d, payloads))
  }

  function UsageOf(usage: Option<Usage>): Usage {
    if usage.Some? then usage.value else NO_USAGE
  }

  function ReadSingle(d: Decoder, text: string): ParseResult {
    match d.completion(text)
    case None => Failed("response was not JSON")
    case Some(c) =>
      if c.choices == [] then ParseResult(c.model, UsageOf(c.usage), None, None, [], None, Complete, None)
      else
        var m := c.choices[0];
        ParseResult(c.model, UsageOf(c.usage), m.content, None, Finalize(d.loads, Collect(m.calls)), m.finish,
            Complete, None)
  }

  function Read(d: Decoder, text: string, contentType: Option<string>, streamed: bool): ParseResult {
    if Blank(text) then Failed("empty response body")
    else if ParsedAsStream(text, contentType, streamed) then ReadStream(d, text)
    else ReadSingle(d, text)
  }

  // ----- The parser as it is written ------------------------------------------------------------

  lemma GrowNothing(a: Arguments)
    ensures Extend(a, Some("")) == a && Extend(a, None) == a
  {
    if a.Raw? {
      assert a.text + "" == a.text;
    }
  }

  lemma AssembleSnoc(fs: seq<Fragment>, f: Fragment)
    ensures Assemble(fs + [f]) == AddFragment(Assemble(fs), f)
  {
    assert (fs + [f])[..|fs|] == fs;
  }

  class ToolAccumulator {
    var order: seq<int>
    var slots: map<int, Tool>

    function Table(): Tools
      reads this
    {
      Tools(order, slots)
    }

    constructor ()
      ensures Table() == NO_TOOLS
    {
      order, slots := [], map[];
    }

    method Assign(i: int, tool: Tool)
      modifies this
      ensures Table() == old(Table()).Put(i, tool)
    {
      if i !in slots {
        order := order + [i];
      }
      slots := slots[i := tool];
    }

    method Add(fragment: Fragment)
      modifies this
      ensures Table() == AddFragment(old(Table()), fragment)
    {
      var index := if fragment.index.Some? then fragment.index.value else 0;
      var slot := if index in slots then slots[index] else Tool(None, None, Raw(""));
      GrowNothing(slot.arguments);
      if fragment.id.Some? && fragment.id.value != "" {
        slot := slot.(id := fragment.id);
      }
      if fragment.name.Some? && fragment.name.value != "" {
        slot := slot.(name := fragment.name);
      }
      if fragment.arguments.Some? && fragment.arguments.value != "" {
        slot := slot.(arguments := Extend(slot.arguments, fragment.arguments));
      }
      Assign(index, slot);
    }

    method AddComplete(call: Call)
      modifies this
      ensures Table() == old(Table()).Put(|old(order)|, Completed(call))
    {
      var arguments := if call.arguments.Some? then call.arguments.value else Raw("");
      Assign(|order|, Tool(call.id, call.name, arguments));
    }

    method Finish(loads: Loads) returns (tools: seq<Tool>)
      requires Table().Valid()
      ensures tools == Finalize(loads, Table())
    {
      tools := [];
      for k := 0 to |order|
        invariant tools == Listing(loads, order[..k], slots)
      {
        var tool := slots[order[k]];
        var arguments := tool.arguments;
        if arguments.Raw? && arguments.text != "" {
          var decoded := loads(arguments.text);
          if decoded.Some? {
            arguments := Decoded(decoded.value);
          }
        }
        tools := tools + [Tool(tool.id, tool.name, arguments)];
        assert order[..k + 1][..k] == order[..k];
      }
      assert order[..|order|] == order;
    }
  }

  /** One choice: its text delta, its fragments, its finish reason. */
  method ReadChoice(choice: Choice, parts: seq<string>, tools: ToolAccumulator, finish: Option<string>,
                    ghost g: Gathered)
    returns (parts': seq<string>, finish': Option<string>)
    requires parts == g.parts && finish == g.finish && tools.Table() == Assemble(g.fragments)
    modifies tools
    ensures parts' == Adding(g, choice).parts && finish' == Adding(g, choice).finish
    ensures tools.Table() == Assemble(Adding(g, choice).fragments)
  {
    parts', finish' := parts, finish;
    if choice.content.Some? {
      parts' := parts' + [choice.content.value];
    }
    AddFragments(choice.fragments, tools, g.fragments);
    if choice.finish.Some? && choice.finish.value != "" {
      finish' := choice.finish;
    }
  }

  method AddFragments(fragments: seq<Fragment>, tools: ToolAccumulator, ghost fs: seq<Fragment>)
    requires tools.Table() == Assemble(fs)
    modifies tools
    ensures tools.Table() == Assemble(fs + fragments)
  {
    NothingMore(fs);
    for k := 0 to |fragments|
      invariant tools.Table() == Assemble(fs + fragments[..k])
    {
      tools.Add(fragments[k]);
      AssembleSnoc(fs + fragments[..k], fragments[k]);
      assert fs + fragments[..k + 1] == (fs + fragments[..k]) + [fragments[k]];
    }
    assert fragments[..|fragments|] == fragments;
  }

  /** What one more choice adds. */
  function Adding(g: Gathered, c: Choice): Gathered {
    Gathered(g.parts + DeltaOf(c), g.fragments + c.fragments, Newer(g.finish, c.finish))
  }

  lemma GatherSnoc(seen: seq<Choice>, c: Choice)
    ensures Gather(seen + [c]) == Adding(Gather(seen), c)
  {
    FlatSnoc(DeltaOf, seen, c);
    FlatSnoc(FragmentsOf, seen, c);
    FlatSnoc(FinishOf, seen, c);
    LatestSnoc(Flat(FinishOf, seen), c.finish);
  }

  /** The choices of one chunk, in order. */
  method ReadChoices(choices: seq<Choice>, parts: seq<string>, tools: ToolAccumulator, finish: Option<string>,
                     ghost seen: seq<Choice>)
    returns (parts': seq<string>, finish': Option<string>)
    requires parts == Gather(seen).parts && finish == Gather(seen).finish
    requires tools.Table() == Assemble(Gather(seen).fragments)
    modifies tools
    ensures parts' == Gather(seen + choices).parts && finish' == Gather(seen + choices).finish
    ensures tools.Table() == Assemble(Gather(seen + choices).fragments)
  {
    parts', finish' := parts, finish;
    ghost var g := Gather(seen);
    NothingMore(seen);
    for j := 0 to |choices|
      invariant g == Gather(seen + choices[..j])
      invariant parts' == g.parts && finish' == g.finish && tools.Table() == Assemble(g.fragments)
    {
      GatherNext(seen, choices, j);
      parts', finish' := ReadChoice(choices[j], parts', tools, finish', g);
      g := Adding(g, choices[j]);
    }
    assert choices[..|choices|] == choices;
  }

  lemma GatherNext(seen: seq<Choice>, choices: seq<Choice>, j: nat)
    requires j < |choices|
    ensures Gather(seen + choices[..j + 1]) == Adding(Gather(seen + choices[..j]), choices[j])
  {
    assert seen + choices[..j + 1] == (seen + choices[..j]) + [choices[j]];
    GatherSnoc(seen + choices[..j], choices[j]);
  }

  method ApplyUsage(current: Usage, usage: Option<Usage>, ghost chunks: seq<Chunk>, ghost chunk: Chunk)
      returns (u: Usage)
    requires usage == chunk.usage && current == Consumed(chunks)
    ensures u == Consumed(chunks + [chunk])
  {
    u := current;
    FlatSnoc(InputOf, chunks, chunk);
    FlatSnoc(OutputOf, chunks, chunk);
    FlatSnoc(TotalOf, chunks, chunk);
    if usage.None? {
      NothingMore(Flat(InputOf, chunks));
      NothingMore(Flat(OutputOf, chunks));
      NothingMore(Flat(TotalOf, chunks));
      return;
    }
    LatestKnownSnoc(Flat(InputOf, chunks), usage.value.input);
    LatestKnownSnoc(Flat(OutputOf, chunks), usage.value.output);
    LatestKnownSnoc(Flat(TotalOf, chunks), usage.value.total);
    if usage.value.input.Some? {
      u := u.(input := usage.value.input);
    }
    if usage.value.output.Some? {
      u := u.(output := usage.value.output);
    }
    if usage.value.total.Some? {
      u := u.(total := usage.value.total);
    }
  }

  lemma ChunksSnoc(d: Decoder, payloads: seq<string>, p: string)
    ensures Chunks(d, payloads + [p]) == Chunks(d, payloads) + if d.chunk(p).Some? then [d.chunk(p).value] else []
  {
    assert (payloads + [p])[..|payloads|] == payloads;
  }

  lemma NextChunk(chunks: seq<Chunk>, chunk: Chunk)
    ensures Flat(ChoicesOf, chunks + [chunk]) == Flat(ChoicesOf, chunks) + chunk.choices
    ensures Latest(Flat(ModelOf, chunks + [chunk])) == Newer(Latest(Flat(ModelOf, chunks)), chunk.model)
  {
    FlatSnoc(ModelOf, chunks, chunk);
    LatestSnoc(Flat(ModelOf, chunks), chunk.model);
    FlatSnoc(ChoicesOf, chunks, chunk);
  }

  /** The running fields after some chunks have been read. */
  ghost predicate Holds(r: ParseResult, parts: seq<string>, chunks: seq<Chunk>) {
    var g := Gather(Flat(ChoicesOf, chunks));
    && r.model == Latest(Flat(ModelOf, chunks)) && r.usage == Consumed(chunks)
    && r.finish == g.finish && parts == g.parts && r.thinking == None && r.error == None
  }

  method ReadChunk(chunk: Chunk, r: ParseResult, parts: seq<string>, tools: ToolAccumulator, ghost chunks: seq<Chunk>)
    returns (r': ParseResult, parts': seq<string>)
    requires Holds(r, parts, chunks)
    requires tools.Table() == Assemble(Gather(Flat(ChoicesOf, chunks)).fragments)
    modifies tools
    ensures Holds(r', parts', chunks + [chunk]) && r'.status == r.status
    ensures tools.Table() == Assemble(Gather(Flat(ChoicesOf, chunks + [chunk])).fragments)
  {
    r' := r;
    if chunk.model.Some? && chunk.model.value != "" {
      r' := r'.(model := chunk.model);
    }
    var usage := ApplyUsage(r.usage, chunk.usage, chunks, chunk);
    NextChunk(chunks, chunk);
    var finish;
    parts', finish := ReadChoices(chunk.choices, parts, tools, r.finish, Flat(ChoicesOf, chunks));
    r' := r'.(usage := usage, finish := finish);
  }

  lemma AllDecodeSnoc(d: Decoder, payloads: seq<string>, p: string)
    ensures AllDecode(d, payloads + [p]) <==> AllDecode(d, payloads) && d.chunk(p).Some?
  {
    assert forall q :: q in payloads + [p] <==> q in payloads || q == p;
  }

  /** The loop over the payloads, with one result and one accumulator. */
  method ReadPayloads(d: Decoder, payloads: seq<string>, tools: ToolAccumulator)
    returns (result: ParseResult, parts: seq<string>, seen: bool)
    requires tools.Table() == NO_TOOLS
    modifies tools
    ensures Holds(result, parts, Chunks(d, payloads))
    ensures tools.Table() == Assemble(Gather(Flat(ChoicesOf, Chunks(d, payloads))).fragments)
    ensures result.status == if AllDecode(d, payloads) then Complete else Partial
    ensures AllDecode(d, payloads) ==> seen == (payloads != [])
  {
    result := ParseResult(None, NO_USAGE, None, None, [], None, Complete, None);
    parts, seen := [], false;
    ghost var chunks := [];
    for i := 0 to |payloads|
      invariant result.status == if AllDecode(d, payloads[..i]) then Complete else Partial
      invariant AllDecode(d, payloads[..i]) ==> seen == (i > 0)
      invariant chunks == Chunks(d, payloads[..i]) && Holds(result, parts, chunks)
      invariant tools.Table() == Assemble(Gather(Flat(ChoicesOf, chunks)).fragments)
    {
      var payload := payloads[i];
      ChunksSnoc(d, payloads[..i], payload);
      AllDecodeSnoc(d, payloads[..i], payload);
      assert payloads[..i + 1] == payloads[..i] + [payload];
      var obj := d.chunk(payload);
      if obj.None? {
        result := result.(status := Partial);
        NothingMore(chunks);
        continue;
      }
      seen := true;
      result, parts := ReadChunk(obj.value, result, parts, tools, chunks);
      chunks := chunks + [obj.value];
    }
    assert payloads[..|payloads|] == payloads;
  }

  method ParseStream(d: Decoder, text: string) returns (result: ParseResult)
    ensures result == ReadStream(d, text)
  {
    var payloads := Payloads(Events(text));
    var tools := new ToolAccumulator();
    var parts, seen;
    result, parts, seen := ReadPayloads(d, payloads, tools);
    var listing := tools.Finish(d.loads);
    result := result.(content := JoinText(parts), tools := listing);
    if !seen && result.status == Complete {
      result := result.(status := Unparsed);
    }
  }

  method ParseSingle(d: Decoder, text: string) returns (result: ParseResult)
    ensures result == ReadSingle(d, text)
  {
    var obj := d.completion(text);
    if obj.None? {
      return Failed("response was not JSON");
    }
    var c := obj.value;
    result := ParseResult(c.model, UsageOf(c.usage), None, None, [], None, Complete, None);
    if c.choices != [] {
      var choice := c.choices[0];
      result := result.(content := choice.content, finish := choice.finish);
      var tools := new ToolAccumulator();
      for k := 0 to |choice.calls|
        invariant tools.Table() == Collect(choice.calls[..k])
      {
        tools.AddComplete(choice.calls[k]);
        assert choice.calls[..k + 1][..k] == choice.calls[..k];
      }
      assert choice.calls[..|choice.calls|] == choice.calls;
      var listing := tools.Finish(d.loads);
      result := result.(tools := listing);
    }
  }

  method Parse(d: Decoder, text: string, contentType: Option<string>, streamed: bool) returns (result: ParseResult)
    ensures result == Read(d, text, contentType, streamed)
  {
    if Blank(text) {
      return Failed("empty response body");
    }
    if streamed || LooksLikeSse(text, contentType) {
      result := ParseStream(d, text);
    } else {
      result := ParseSingle(d, text);
    }
  }
}
