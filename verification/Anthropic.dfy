// The Anthropic messages parser (telemetry/parsers/anthropic_sse.py).  JSON decoding is a
// parameter; a decoded event keeps just the fields the parser reads.

module Anthropic {
  import opened Common
  import opened Sse
  import opened Parsing

  datatype Counts = Counts(input: Option<int>, output: Option<int>)

  datatype Message = Message(model: Option<string>, usage: Option<Counts>)

  datatype Block = Block(kind: Option<string>, id: Option<string>, name: Option<string>)

  datatype Delta = Delta(kind: Option<string>, text: Option<string>, thinking: Option<string>,
                         partialJson: Option<string>, stopReason: Option<string>)

  /** A decoded event object; an absent sub-object reads as an empty one. */
  datatype Object = Object(kind: Option<string>, index: Option<int>, message: Message, block: Block, delta: Delta,
                           usage: Option<Counts>)

  datatype ContentBlock = ContentBlock(kind: Option<string>, text: Option<string>, thinking: Option<string>,
                                       id: Option<string>, name: Option<string>, input: Arguments)

  datatype Reply = Reply(model: Option<string>, stopReason: Option<string>, usage: Option<Counts>,
                         content: seq<ContentBlock>)

  datatype Decoder = Decoder(decode: string -> Option<Object>, reply: string -> Option<Reply>, loads: Loads)

  /** A decoded event under the name it is dispatched by. */
  datatype Received = Received(event: Option<string>, obj: Object)

  function Dispatched(e: SseEvent, obj: Object): Received {
    Received(Newer(obj.kind, e.name), obj)
  }

  function Index(obj: Object): int {
    if obj.index.Some? then obj.index.value else 0
  }

  function OrEmpty(t: Option<string>): string {
    if t.Some? then t.value else ""
  }

  function ReceivedAll(d: Decoder, es: seq<SseEvent>): seq<Received> {
    if es == [] then []
    else
      var e := es[|es| - 1];
      ReceivedAll(d, es[..|es| - 1]) + if d.decode(e.data).Some? then [Dispatched(e, d.decode(e.data).value)] else []
  }

  // ----- Tool blocks: an ordered table of steps, one index at a time ---------------------------

  datatype Step = Open(index: int, id: Option<string>, name: Option<string>) | More(index: int, text: string)

  function Advance(tool: Tool, text: string): Tool {
    if tool.arguments.Raw? then tool.(arguments := Raw(tool.arguments.text + text)) else tool
  }

  /** A start resets its index; a delta for an index not started is dropped. */
  function Apply(t: Tools, s: Step): Tools {
    match s
    case Open(i, id, name) => t.Put(i, Tool(id, name, Raw("")))
    case More(i, text) => if i in t.slots then t.Put(i, Advance(t.slots[i], text)) else t
  }

  function Build(ss: seq<Step>): (t: Tools)
    ensures t.Valid()
  {
    if ss == [] then NO_TOOLS else Apply(Build(ss[..|ss| - 1]), ss[|ss| - 1])
  }

  function Finalize(loads: Loads, t: Tools): seq<Tool>
    requires t.Valid()
  {
    Listing(loads, t.order, t.slots)
  }

  // ----- What a list of events says, field by field ------------------------------------------------

  function StepOf(r: Received): seq<Step> {
    if r.event == Some("content_block_start") && r.obj.block.kind == Some("tool_use") then
      [Open(Index(r.obj), r.obj.block.id, r.obj.block.name)]
    else if r.event == Some("content_block_delta") && r.obj.delta.kind == Some("input_json_delta") then
      [More(Index(r.obj), OrEmpty(r.obj.delta.partialJson))]
    else []
  }

  function TextOf(r: Received): seq<string> {
    if r.event == Some("content_block_delta") && r.obj.delta.kind == Some("text_delta")
        then [OrEmpty(r.obj.delta.text)] else []
  }

  function ThinkingOf(r: Received): seq<string> {
    if r.event == Some("content_block_delta") && r.obj.delta.kind == Some("thinking_delta")
        then [OrEmpty(r.obj.delta.thinking)] else []
  }

  function ModelOf(r: Received): seq<Option<string>> {
    if r.event == Some("message_start") then [r.obj.message.model] else []
  }

  function FinishOf(r: Received): seq<Option<string>> {
    if r.event == Some("message_delta") then [r.obj.delta.stopReason] else []
  }

  function CountsOf(r: Received): Option<Counts> {
    if r.event == Some("message_start") then r.obj.message.usage
    else if r.event == Some("message_delta") then r.obj.usage
    else None
  }

  function InputOf(r: Received): seq<Option<int>> { if CountsOf(r).Some? then [CountsOf(r).value.input] else [] }
  function OutputOf(r: Received): seq<Option<int>> { if CountsOf(r).Some? then [CountsOf(r).value.output] else [] }

  /** The total is the sum of the parts, known exactly when both are. */
  function Totalled(input: Option<int>, output: Option<int>): Usage {
    Usage(input, output, if input.Some? && output.Some? then Some(input.value + output.value) else None)
  }

  function Consumed(rs: seq<Received>): Usage {
    Totalled(LatestKnown(Flat(InputOf, rs)), LatestKnown(Flat(OutputOf, rs)))
  }

  datatype Said = Said(model: Option<string>, usage: Usage, text: seq<string>, thinking: seq<string>, tools: Tools,
                       finish: Option<string>)

  function Say(rs: seq<Received>): (s: Said)
    ensures s.tools.Valid()
  {
    Said(Latest(Flat(ModelOf, rs)), Consumed(rs), Flat(TextOf, rs), Flat(ThinkingOf, rs), Build(Flat(StepOf, rs)),
        Latest(Flat(FinishOf, rs)))
  }

  function Summary(loads: Loads, rs: seq<Received>, status: Status): ParseResult {
    var s := Say(rs);
    ParseResult(s.model, s.usage, JoinText(s.text), JoinText(s.thinking), Finalize(loads, s.tools), s.finish, status,
        None)
  }

  predicate AllDecode(d: Decoder, es: seq<SseEvent>) {
    forall e :: e in es ==> d.decode(e.data).Some?
  }

  /** Nothing at all, something undecodable, or all of it read. */
  function StatusOf(d: Decoder, es: seq<SseEvent>): Status {
    if es == [] then Unparsed else if AllDecode(d, es) then Complete else Partial
  }

  function ReadStream(d: Decoder, text: string): ParseResult {
    Summary(d.loads, ReceivedAll(d, Events(text)), StatusOf(d, Events(text)))
  }

  // ----- The stream parser as it is written ------------------------------------------------------------

  /** The running result, the part lists and the tool blocks after some events. */
  class Reading {
    var result: ParseResult
    var contentParts: seq<string>
    var thinkingParts: seq<string>
    var order: seq<int>
    var blocks: map<int, Tool>

    function Blocks(): Tools
      reads this
    {
      Tools(order, blocks)
    }

    /** What the events read so far have said. */
    function Gathered(): Said
      reads this
    {
      Said(result.model, result.usage, contentParts, thinkingParts, Blocks(), result.finish)
    }

    constructor ()
      ensures Gathered() == Say([]) && result.status == Complete && result.error == None
    {
      result := ParseResult(None, NO_USAGE, None, None, [], None, Complete, None);
      contentParts, thinkingParts, order, blocks := [], [], [], map[];
    }

    method ApplyUsage(usage: Option<Counts>)
      modifies this`result
      ensures usage.None? ==> result == old(result)
      ensures usage.Some? ==>
        var input := Known(old(result.usage.input), usage.value.input);
        var output := Known(old(result.usage.output), usage.value.output);
        result == old(result).(usage := Usage(input, output,
          if input.Some? && output.Some? then Some(input.value + output.value) else old(result.usage.total)))
    {
      if usage.None? {
        return;
      }
      if usage.value.input.Some? {
        result := result.(usage := result.usage.(input := usage.value.input));
      }
      if usage.value.output.Some? {
        result := result.(usage := result.usage.(output := usage.value.output));
      }
      if result.usage.input.Some? && result.usage.output.Some? {
        var total := result.usage.input.value + result.usage.output.value;
        result := result.(usage := result.usage.(total := Some(total)));
      }
    }

    method StartBlock(obj: Object)
      modifies this`order, this`blocks
      ensures Blocks() == if obj.block.kind == Some("tool_use")
        then old(Blocks()).Put(Index(obj), Tool(obj.block.id, obj.block.name, Raw("")))
        else old(Blocks())
    {
      if obj.block.kind == Some("tool_use") {
        var i := Index(obj);
        order := if i in blocks then order else order + [i];
        blocks := blocks[i := Tool(obj.block.id, obj.block.name, Raw(""))];
      }
    }

    method ApplyBlockDelta(obj: Object)
      modifies this`contentParts, this`thinkingParts, this`blocks
      ensures contentParts == old(contentParts) + if obj.delta.kind == Some("text_delta")
          then [OrEmpty(obj.delta.text)] else []
      ensures thinkingParts == old(thinkingParts) + if obj.delta.kind == Some("thinking_delta")
          then [OrEmpty(obj.delta.thinking)] else []
      ensures Blocks() == if obj.delta.kind == Some("input_json_delta")
        then Apply(old(Blocks()), More(Index(obj), OrEmpty(obj.delta.partialJson)))
        else old(Blocks())
    {
      if obj.delta.kind == Some("text_delta") {
        contentParts := contentParts + [OrEmpty(obj.delta.text)];
      } else if obj.delta.kind == Some("thinking_delta") {
        thinkingParts := thinkingParts + [OrEmpty(obj.delta.thinking)];
      } else if obj.delta.kind == Some("input_json_delta") {
        if Index(obj) in blocks {
          blocks := blocks[Index(obj) := Advance(blocks[Index(obj)], OrEmpty(obj.delta.partialJson))];
        }
      }
    }

    method Read(event: Option<string>, obj: Object)
      requires result.usage == Totalled(result.usage.input, result.usage.output)
      modifies this
      ensures Gathered() == Next(old(Gathered()), Received(event, obj))
      ensures result.status == old(result.status) && result.error == old(result.error)
    {
      if event == Some("message_start") {
        if obj.message.model.Some? && obj.message.model.value != "" {
          result := result.(model := obj.message.model);
        }
        ApplyUsage(obj.message.usage);
      } else if event == Some("content_block_start") {
        StartBlock(obj);
      } else if event == Some("content_block_delta") {
        ApplyBlockDelta(obj);
      } else if event == Some("message_delta") {
        if obj.delta.stopReason.Some? && obj.delta.stopReason.value != "" {
          result := result.(finish := obj.delta.stopReason);
        }
        ApplyUsage(obj.usage);
      }
    }

    method MarkPartial()
      modifies this`result
      ensures Gathered() == old(Gathered())
      ensures result == old(result).(status := Partial)
    {
      result := result.(status := Partial);
    }

    method FinalizeTools(loads: Loads) returns (tools: seq<Tool>)
      requires Blocks().Valid()
      ensures tools == Finalize(loads, Blocks())
    {
      tools := [];
      for k := 0 to |order|
        invariant tools == Listing(loads, order[..k], blocks)
      {
        var block := blocks[order[k]];
        var arguments := block.arguments;
        if arguments.Raw? && arguments.text != "" {
          var decoded := loads(arguments.text);
          if decoded.Some? {
            arguments := Decoded(decoded.value);
          }
        }
        tools := tools + [Tool(block.id, block.name, arguments)];
        assert order[..k + 1][..k] == order[..k];
      }
      assert order[..|order|] == order;
    }
  }

  /** What one more event adds. */
  function Next(s: Said, r: Received): Said {
    Said(
      if r.event == Some("message_start") then Newer(s.model, r.obj.message.model) else s.model,
      if CountsOf(r).None? then s.usage
      else Totalled(Known(s.usage.input, CountsOf(r).value.input), Known(s.usage.output, CountsOf(r).value.output)),
      s.text + TextOf(r),
      s.thinking + ThinkingOf(r),
      if StepOf(r) == [] then s.tools else Apply(s.tools, StepOf(r)[0]),
      if r.event == Some("message_delta") then Newer(s.finish, r.obj.delta.stopReason) else s.finish)
  }

  lemma NextReceived(rs: seq<Received>, r: Received)
    ensures Say(rs + [r]) == Next(Say(rs), r)
  {
    FlatSnoc(TextOf, rs, r);
    FlatSnoc(ThinkingOf, rs, r);
    NextField(rs, r);
    NextCounts(rs, r);
    NextStep(rs, r);
  }

  lemma NextStep(rs: seq<Received>, r: Received)
    ensures Build(Flat(StepOf, rs + [r])) == if StepOf(r) == [] then Build(Flat(StepOf, rs))
        else Apply(Build(Flat(StepOf, rs)), StepOf(r)[0])
  {
    FlatSnoc(StepOf, rs, r);
    var ss := Flat(StepOf, rs);
    if StepOf(r) == [] {
      NothingMore(ss);
    } else {
      assert StepOf(r) == [StepOf(r)[0]];
      assert (ss + StepOf(r))[..|ss|] == ss;
    }
  }

  lemma NextField(rs: seq<Received>, r: Received)
    ensures Latest(Flat(ModelOf, rs + [r])) ==
      if r.event == Some("message_start") then Newer(Latest(Flat(ModelOf, rs)), r.obj.message.model)
          else Latest(Flat(ModelOf, rs))
    ensures Latest(Flat(FinishOf, rs + [r])) ==
      if r.event == Some("message_delta") then Newer(Latest(Flat(FinishOf, rs)), r.obj.delta.stopReason)
          else Latest(Flat(FinishOf, rs))
  {
    FlatSnoc(ModelOf, rs, r);
    FlatSnoc(FinishOf, rs, r);
    NothingMore(Flat(ModelOf, rs));
    NothingMore(Flat(FinishOf, rs));
    LatestSnoc(Flat(ModelOf, rs), r.obj.message.model);
    LatestSnoc(Flat(FinishOf, rs), r.obj.delta.stopReason);
  }

  lemma NextCounts(rs: seq<Received>, r: Received)
    ensures Consumed(rs + [r]) ==
      if CountsOf(r).None? then Consumed(rs)
      else Totalled(Known(Consumed(rs).input, CountsOf(r).value.input),
          Known(Consumed(rs).output, CountsOf(r).value.output))
  {
    FlatSnoc(InputOf, rs, r);
    FlatSnoc(OutputOf, rs, r);
    if CountsOf(r).None? {
      NothingMore(Flat(InputOf, rs));
      NothingMore(Flat(OutputOf, rs));
    } else {
      LatestKnownSnoc(Flat(InputOf, rs), CountsOf(r).value.input);
      LatestKnownSnoc(Flat(OutputOf, rs), CountsOf(r).value.output);
    }
  }

  lemma NextEvent(d: Decoder, es: seq<SseEvent>, e: SseEvent)
    ensures ReceivedAll(d, es + [e])
         == ReceivedAll(d, es) + if d.decode(e.data).Some? then [Dispatched(e, d.decode(e.data).value)] else []
    ensures AllDecode(d, es + [e]) <==> AllDecode(d, es) && d.decode(e.data).Some?
  {
    assert (es + [e])[..|es|] == es;
    assert forall x :: x in es + [e] <==> x in es || x == e;
  }

  lemma SayTotals(rs: seq<Received>)
    ensures var u := Say(rs).usage; u == Totalled(u.input, u.output)
  {
  }

  /** The loop over the events. */
  method ReadEvents(d: Decoder, es: seq<SseEvent>, reading: Reading) returns (seen: bool)
    requires reading.Gathered() == Say([]) && reading.result.status == Complete
    modifies reading
    ensures reading.Gathered() == Say(ReceivedAll(d, es)) && reading.result.error == old(reading.result.error)
    ensures reading.result.status == if AllDecode(d, es) then Complete else Partial
    ensures AllDecode(d, es) ==> seen == (es != [])
  {
    seen := false;
    ghost var rs := [];
    for i := 0 to |es|
      invariant reading.result.status == if AllDecode(d, es[..i]) then Complete else Partial
      invariant AllDecode(d, es[..i]) ==> seen == (i > 0)
      invariant rs == ReceivedAll(d, es[..i]) && reading.Gathered() == Say(rs)
      invariant reading.result.error == old(reading.result.error)
    {
      NextEvent(d, es[..i], es[i]);
      assert es[..i + 1] == es[..i] + [es[i]];
      var obj := d.decode(es[i].data);
      if obj.None? {
        reading.MarkPartial();
        NothingMore(rs);
        continue;
      }
      seen := true;
      var event := if es[i].name.Some? && es[i].name.value != "" then es[i].name else obj.value.kind;
      NextReceived(rs, Received(event, obj.value));
      SayTotals(rs);
      reading.Read(event, obj.value);
      rs := rs + [Received(event, obj.value)];
    }
    assert es[..|es|] == es;
  }

  /** The stream parser: a loop over the events that updates one result and its part lists. */
  method ParseStream(d: Decoder, text: string) returns (result: ParseResult)
    ensures result == ReadStream(d, text)
  {
    var es := Events(text);
    var reading := new Reading();
    var seen := ReadEvents(d, es, reading);
    var tools := reading.FinalizeTools(d.loads);
    result := reading.result.(
      content := JoinText(reading.contentParts), thinking := JoinText(reading.thinkingParts), tools := tools);
    if !seen && result.status == Complete {
      result := result.(status := Unparsed);
    }
  }

  // ----- The single form ------------------------------------------------------------------------------------

  function TextBlock(b: ContentBlock): seq<string> { if b.kind == Some("text") then [OrEmpty(b.text)] else [] }

  function ThinkingBlock(b: ContentBlock): seq<string> {
    if b.kind == Some("thinking") then [OrEmpty(b.thinking)] else []
  }

  function ToolBlock(b: ContentBlock): seq<Tool> {
    if b.kind == Some("tool_use") then [Tool(b.id, b.name, b.input)] else []
  }

  function UsageOf(counts: Option<Counts>): Usage {
    if counts.Some? then Totalled(counts.value.input, counts.value.output) else NO_USAGE
  }

  function ReadSingle(d: Decoder, text: string): ParseResult {
    match d.reply(text)
    case None => Failed("response was not JSON")
    case Some(r) =>
      ParseResult(r.model, UsageOf(r.usage),
                  JoinText(Flat(TextBlock, r.content)), JoinText(Flat(ThinkingBlock, r.content)),
                  Flat(ToolBlock, r.content), r.stopReason, Complete, None)
  }

  function Read(d: Decoder, text: string, contentType: Option<string>, streamed: bool): ParseResult {
    if Blank(text) then Failed("empty response body")
    else if ParsedAsStream(text, contentType, streamed) then ReadStream(d, text)
    else ReadSingle(d, text)
  }

  method ParseSingle(d: Decoder, text: string) returns (result: ParseResult)
    ensures result == ReadSingle(d, text)
  {
    var obj := d.reply(text);
    if obj.None? {
      return Failed("response was not JSON");
    }
    var blocks := obj.value.content;
    var contentParts, thinkingParts, tools := [], [], [];
    for k := 0 to |blocks|
      invariant contentParts == Flat(TextBlock, blocks[..k])
      invariant thinkingParts == Flat(ThinkingBlock, blocks[..k])
      invariant tools == Flat(ToolBlock, blocks[..k])
    {
      var block := blocks[k];
      FlatNext(TextBlock, blocks, k);
      FlatNext(ThinkingBlock, blocks, k);
      FlatNext(ToolBlock, blocks, k);
      if block.kind == Some("text") {
        contentParts := contentParts + [OrEmpty(block.text)];
      } else if block.kind == Some("thinking") {
        thinkingParts := thinkingParts + [OrEmpty(block.thinking)];
      } else if block.kind == Some("tool_use") {
        tools := tools + [Tool(block.id, block.name, block.input)];
      }
    }
    assert blocks[..|blocks|] == blocks;
    result := ParseResult(obj.value.model, UsageOf(obj.value.usage), JoinText(contentParts), JoinText(thinkingParts),
                          tools, obj.value.stopReason, Complete, None);
  }
}
