// What each OpenAI payload does to the reading (telemetry/parsers/openai_sse.py), payload by payload and
// field by field.

module OpenAiEvents {
  import opened Common
  import opened Sse
  import opened Parsing
  import opened OpenAi

  /** Every event is a payload, except the end marker. */
  lemma EventIsPayload(es: seq<SseEvent>, e: SseEvent)
    ensures Payloads([]) == []
    ensures Payloads(es + [e]) == if e.data == "[DONE]" then Payloads(es) else Payloads(es) + [e.data]
  {
    FlatSnoc(Payload, es, e);
    NothingMore(Payloads(es));
  }

  /** Every payload is a chunk, if it decodes. */
  lemma PayloadIsChunk(d: Decoder, payloads: seq<string>, p: string)
    ensures Chunks(d, []) == []
    ensures d.chunk(p) == None ==> Chunks(d, payloads + [p]) == Chunks(d, payloads)
    ensures forall c :: d.chunk(p) == Some(c) ==> Chunks(d, payloads + [p]) == Chunks(d, payloads) + [c]
  {
    ChunksSnoc(d, payloads, p);
    NothingMore(Chunks(d, payloads));
  }

  /** Each side of the usage is replaced by the chunk's, when it gives it. */
  predicate Counted(before: Usage, report: Option<Usage>, after: Usage) {
    if report == None then after == before
    else
      && after.input == (if report.value.input.Some? then report.value.input else before.input)
      && after.output == (if report.value.output.Some? then report.value.output else before.output)
      && after.total == if report.value.total.Some? then report.value.total else before.total
  }

  /** A chunk gives its model, unless it is empty, its usage, and its choices. */
  lemma ChunkSays(chunks: seq<Chunk>, c: Chunk)
    ensures Latest(Flat(ModelOf, [])) == None && Consumed([]) == Usage(None, None, None) && Flat(ChoicesOf, []) == []
    ensures Latest(Flat(ModelOf, chunks + [c]))
         == if c.model == None || c.model == Some("") then Latest(Flat(ModelOf, chunks)) else c.model
    ensures Counted(Consumed(chunks), c.usage, Consumed(chunks + [c]))
    ensures Flat(ChoicesOf, chunks + [c]) == Flat(ChoicesOf, chunks) + c.choices
  {
    NextChunk(chunks, c);
    UsageNext(chunks, c);
  }

  lemma UsageNext(chunks: seq<Chunk>, c: Chunk)
    ensures Counted(Consumed(chunks), c.usage, Consumed(chunks + [c]))
  {
    FlatSnoc(InputOf, chunks, c);
    FlatSnoc(OutputOf, chunks, c);
    FlatSnoc(TotalOf, chunks, c);
    if c.usage.None? {
      NothingMore(Flat(InputOf, chunks));
      NothingMore(Flat(OutputOf, chunks));
      NothingMore(Flat(TotalOf, chunks));
    } else {
      LatestKnownSnoc(Flat(InputOf, chunks), c.usage.value.input);
      LatestKnownSnoc(Flat(OutputOf, chunks), c.usage.value.output);
      LatestKnownSnoc(Flat(TotalOf, chunks), c.usage.value.total);
    }
  }

  /** A choice appends its text and its fragments, and its finish reason counts unless it is empty. */
  lemma ChoiceSays(choices: seq<Choice>, c: Choice)
    ensures Gather([]) == Gathered([], [], None)
    ensures var before, after := Gather(choices), Gather(choices + [c]);
      && after.parts == (if c.content == None then before.parts else before.parts + [c.content.value])
      && after.fragments == before.fragments + c.fragments
      && after.finish == if c.finish == None || c.finish == Some("") then before.finish else c.finish
  {
    GatherSnoc(choices, c);
    NothingMore(Gather(choices).parts);
  }

  lemma {:induction false} SlotsHoldText(fs: seq<Fragment>)
    ensures forall i :: i in Assemble(fs).slots ==> Assemble(fs).slots[i].arguments.Raw?
  {
    if fs != [] {
      SlotsHoldText(fs[..|fs| - 1]);
    }
  }

  /**
   * A fragment goes to the slot of its index, 0 if it has none, which it opens if need be: its id and
   * name count unless they are empty, and its arguments are appended.
   */
  lemma FragmentSays(fs: seq<Fragment>, f: Fragment)
    ensures Assemble([]) == Tools([], map[])
    ensures var before, after := Assemble(fs), Assemble(fs + [f]);
      var i := if f.index == None then 0 else f.index.value;
      var held := if i in before.slots then before.slots[i] else Tool(None, None, Raw(""));
      && held.arguments.Raw?
      && after.order == (if i in before.slots then before.order else before.order + [i])
      && after.slots == before.slots[i := Tool(
           if f.id == None || f.id == Some("") then held.id else f.id,
           if f.name == None || f.name == Some("") then held.name else f.name,
           Raw(held.arguments.text + if f.arguments == None then "" else f.arguments.value))]
  {
    AssembleSnoc(fs, f);
    SlotsHoldText(fs);
    NothingMore(if Slot(f) in Assemble(fs).slots then Assemble(fs).slots[Slot(f)].arguments.text else "");
  }

  /** A complete call takes the next slot; arguments that are absent are the empty text. */
  lemma CompleteCallSays(calls: seq<Call>, call: Call)
    ensures Collect([]) == Tools([], map[])
    ensures |Collect(calls).order| == |calls| && |calls| !in Collect(calls).slots
    ensures Collect(calls + [call]) == Tools(
      Collect(calls).order + [|calls|],
      Collect(calls).slots[|calls| := Tool(call.id, call.name,
                                           if call.arguments == None then Raw("") else call.arguments.value)])
  {
    CollectFills(calls);
    assert (calls + [call])[..|calls|] == calls;
  }

  lemma {:induction false} CollectFills(calls: seq<Call>)
    ensures |Collect(calls).order| == |calls| && forall i :: i in Collect(calls).slots <==> 0 <= i < |calls|
  {
    if calls != [] {
      CollectFills(calls[..|calls| - 1]);
    }
  }

  /** What the stream parser returns for a text, from what its chunks say. */
  lemma StreamResult(d: Decoder, text: string)
    ensures var es, p := Events(text), ReadStream(d, text);
      var chunks := Chunks(d, Payloads(es));
      var g := Gather(Flat(ChoicesOf, chunks));
      var tools := Assemble(g.fragments);
      && p.model == Latest(Flat(ModelOf, chunks)) && p.usage == Consumed(chunks) && p.finish == g.finish
      && p.thinking == None && p.error == None
      && p.content == (if g.parts == [] then None else Some(Concat(g.parts)))
      && |p.tools| == |tools.order|
      && (forall k :: 0 <= k < |p.tools| ==>
            tools.order[k] in tools.slots && p.tools[k] == Entry(d.loads, tools.slots[tools.order[k]]))
  {
    var tools := Assemble(Gather(Flat(ChoicesOf, Chunks(d, Payloads(Events(text))))).fragments);
    ListingAt(d.loads, tools.order, tools.slots);
  }

  /** Unparsed when nothing but end markers came. */
  lemma UnparsedExactly(d: Decoder, text: string)
    ensures ReadStream(d, text).status == Unparsed <==> forall e :: e in Events(text) ==> e.data == "[DONE]"
  {
    FlatIsEmpty(Payload, Events(text));
  }

  /** Partial when something other than an end marker did not decode. */
  lemma PartialExactly(d: Decoder, text: string)
    ensures ReadStream(d, text).status == Partial <==>
      exists e :: e in Events(text) && e.data != "[DONE]" && d.chunk(e.data) == None
  {
    var es := Events(text);
    PayloadMembers(es);
    assert AllDecode(d, Payloads(es)) <==> forall e :: e in es && e.data != "[DONE]" ==> d.chunk(e.data).Some?;
  }

  lemma {:induction false} PayloadMembers(es: seq<SseEvent>)
    ensures forall p :: p in Payloads(es) <==> exists e :: e in es && e.data == p && p != "[DONE]"
  {
    if es != [] {
      var before, e := es[..|es| - 1], es[|es| - 1];
      PayloadMembers(before);
      assert es == before + [e];
      EventIsPayload(before, e);
    }
  }

  /** What the single-object parser returns: the first choice, and nothing of it without one. */
  lemma SingleResult(d: Decoder, text: string, c: Completion)
    requires d.completion(text) == Some(c)
    ensures var p := ReadSingle(d, text);
      && p.model == c.model && p.usage == (if c.usage == None then Usage(None, None, None) else c.usage.value)
      && p.thinking == None && p.status == Complete && p.error == None
      && (c.choices == [] ==> p.content == None && p.finish == None && p.tools == [])
      && (c.choices != [] ==>
            var m, tools := c.choices[0], Collect(c.choices[0].calls);
            && p.content == m.content && p.finish == m.finish && |p.tools| == |tools.order|
            && forall k :: 0 <= k < |p.tools| ==>
                tools.order[k] in tools.slots && p.tools[k] == Entry(d.loads, tools.slots[tools.order[k]]))
  {
    if c.choices != [] {
      var tools := Collect(c.choices[0].calls);
      ListingAt(d.loads, tools.order, tools.slots);
    }
  }
}
