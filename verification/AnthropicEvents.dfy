// What each Anthropic event does to the reading (telemetry/parsers/anthropic_sse.py), event by event and
// field by field, and where the token counts come from.

module AnthropicEvents {
  import opened Common
  import opened Sse
  import opened Parsing
  import opened Anthropic

  // ----- Which events are received --------------------------------------------------------

  /**
   * An event that does not decode is passed over; any other is dispatched under its own name, or under
   * the object's type when it has none or an empty one.
   */
  lemma EventIsDispatched(d: Decoder, es: seq<SseEvent>, e: SseEvent)
    ensures ReceivedAll(d, []) == []
    ensures d.decode(e.data) == None ==> ReceivedAll(d, es + [e]) == ReceivedAll(d, es)
    ensures forall obj :: d.decode(e.data) == Some(obj) ==>
      ReceivedAll(d, es + [e]) == ReceivedAll(d, es)
        + [Received(if e.name == None || e.name == Some("") then obj.kind else e.name, obj)]
  {
    NextEvent(d, es, e);
    NothingMore(ReceivedAll(d, es));
  }

  // ----- One event at a time ------------------------------------------------------------------

  /** A reading starts from nothing and takes one event after the other. */
  lemma SaidEventByEvent(rs: seq<Received>, r: Received)
    ensures Say([]) == Said(None, Usage(None, None, None), [], [], Tools([], map[]), None)
    ensures Say(rs + [r]) == Next(Say(rs), r)
  {
    NextReceived(rs, r);
  }

  /** The counts after a report: each side is replaced when given, and the total is their sum, when both are known. */
  predicate Counted(before: Usage, report: Option<Counts>, after: Usage) {
    if report == None then after == before
    else
      && after.input == (if report.value.input.Some? then report.value.input else before.input)
      && after.output == (if report.value.output.Some? then report.value.output else before.output)
      && after.total == if after.input.Some? && after.output.Some? then Some(after.input.value + after.output.value)
           else None
  }

  /** `message_start`: the model, unless it is empty, and the usage of the message. */
  lemma MessageStartSays(s: Said, obj: Object)
    ensures var after := Next(s, Received(Some("message_start"), obj));
      && after == s.(model := after.model, usage := after.usage)
      && after.model == (if obj.message.model == None || obj.message.model == Some("") then s.model
                         else obj.message.model)
      && Counted(s.usage, obj.message.usage, after.usage)
  {
    NothingMore(s.text);
    NothingMore(s.thinking);
  }

  /** `message_delta`: the stop reason, unless it is empty, and the usage of the event itself. */
  lemma MessageDeltaSays(s: Said, obj: Object)
    ensures var after := Next(s, Received(Some("message_delta"), obj));
      && after == s.(finish := after.finish, usage := after.usage)
      && after.finish == (if obj.delta.stopReason == None || obj.delta.stopReason == Some("") then s.finish
                          else obj.delta.stopReason)
      && Counted(s.usage, obj.usage, after.usage)
  {
    NothingMore(s.text);
    NothingMore(s.thinking);
  }

  /** `content_block_start`: a tool block is started at its index, 0 if it has none; other blocks say nothing yet. */
  lemma BlockStartSays(s: Said, obj: Object)
    ensures var after := Next(s, Received(Some("content_block_start"), obj));
      && after == s.(tools := after.tools)
      && var i := if obj.index == None then 0 else obj.index.value;
      && (obj.block.kind != Some("tool_use") ==> after.tools == s.tools)
      && (obj.block.kind == Some("tool_use") ==>
            && after.tools.order == (if i in s.tools.slots then s.tools.order else s.tools.order + [i])
            && after.tools.slots == s.tools.slots[i := Tool(obj.block.id, obj.block.name, Raw(""))])
  {
    NothingMore(s.text);
    NothingMore(s.thinking);
  }

  /** `content_block_delta` with text or thinking: it is appended, an absent one as an empty one. */
  lemma TextDeltaSays(s: Said, obj: Object)
    requires obj.delta.kind != Some("input_json_delta")
    ensures var after := Next(s, Received(Some("content_block_delta"), obj));
      && after == s.(text := after.text, thinking := after.thinking)
      && after.text == s.text + (if obj.delta.kind == Some("text_delta")
                                 then [if obj.delta.text == None then "" else obj.delta.text.value] else [])
      && after.thinking == s.thinking + if obj.delta.kind == Some("thinking_delta")
           then [if obj.delta.thinking == None then "" else obj.delta.thinking.value] else []
  {
  }

  lemma {:induction false} BlocksHoldText(ss: seq<Step>)
    ensures forall i :: i in Build(ss).slots ==> Build(ss).slots[i].arguments.Raw?
  {
    if ss != [] {
      BlocksHoldText(ss[..|ss| - 1]);
    }
  }

  /**
   * `content_block_delta` with a piece of tool input: it is added to its block, if that was started,
   * and else dropped.
   */
  lemma InputDeltaSays(s: Said, obj: Object)
    requires obj.delta.kind == Some("input_json_delta")
    requires forall i :: i in s.tools.slots ==> s.tools.slots[i].arguments.Raw?
    ensures var after := Next(s, Received(Some("content_block_delta"), obj));
      && after == s.(tools := after.tools)
      && var i := if obj.index == None then 0 else obj.index.value;
      && (i !in s.tools.slots ==> after.tools == s.tools)
      && (i in s.tools.slots ==>
            var piece := if obj.delta.partialJson == None then "" else obj.delta.partialJson.value;
            var held := s.tools.slots[i];
            && after.tools.order == s.tools.order
            && after.tools.slots == s.tools.slots[i := held.(arguments := Raw(held.arguments.text + piece))])
  {
    NothingMore(s.text);
    NothingMore(s.thinking);
  }

  /** Any other event says nothing. */
  lemma OtherEventsSayNothing(s: Said, r: Received)
    requires r.event != Some("message_start") && r.event != Some("message_delta")
    requires r.event != Some("content_block_start") && r.event != Some("content_block_delta")
    ensures Next(s, r) == s
  {
    NothingMore(s.text);
    NothingMore(s.thinking);
  }

  // ----- Where the token counts come from -----------------------------------------------------

  /** The event reports n input tokens: a `message_start` in its message, or a `message_delta` itself. */
  predicate ReportsInput(r: Received, n: int) {
    || (r.event == Some("message_start") && r.obj.message.usage.Some? && r.obj.message.usage.value.input == Some(n))
    || (r.event == Some("message_delta") && r.obj.usage.Some? && r.obj.usage.value.input == Some(n))
  }

  /** Likewise n output tokens. */
  predicate ReportsOutput(r: Received, n: int) {
    || (r.event == Some("message_start") && r.obj.message.usage.Some? && r.obj.message.usage.value.output == Some(n))
    || (r.event == Some("message_delta") && r.obj.usage.Some? && r.obj.usage.value.output == Some(n))
  }

  /** The number in the last report, or None when nothing reports. */
  ghost predicate LastReport(reports: (Received, int) -> bool, rs: seq<Received>, n: Option<int>) {
    match n
    case None => forall r, m :: r in rs ==> !reports(r, m)
    case Some(v) => exists i :: 0 <= i < |rs| && reports(rs[i], v)
                              && forall j, m :: i < j < |rs| ==> !reports(rs[j], m)
  }

  lemma LastReportIsUnique(reports: (Received, int) -> bool, rs: seq<Received>, a: Option<int>, b: Option<int>)
    requires forall r, m, n :: reports(r, m) && reports(r, n) ==> m == n
    requires LastReport(reports, rs, a) && LastReport(reports, rs, b)
    ensures a == b
  {
  }

  /** A later event that reports replaces what was reported. */
  lemma LastReportReplaced(reports: (Received, int) -> bool, rs: seq<Received>, r: Received, n: int)
    requires reports(r, n)
    ensures LastReport(reports, rs + [r], Some(n))
  {
    assert reports((rs + [r])[|rs|], n);
  }

  /** A later event that does not report leaves it. */
  lemma LastReportStays(reports: (Received, int) -> bool, rs: seq<Received>, r: Received, n: Option<int>)
    requires LastReport(reports, rs, n) && forall m :: !reports(r, m)
    ensures LastReport(reports, rs + [r], n)
  {
    if n.Some? {
      var i :| 0 <= i < |rs| && reports(rs[i], n.value) && forall j, m :: i < j < |rs| ==> !reports(rs[j], m);
      assert reports((rs + [r])[i], n.value);
    }
  }

  /** What the reader takes from an event is what the event reports. */
  lemma CountsAreReports(r: Received, n: int)
    ensures ReportsInput(r, n) <==> CountsOf(r).Some? && CountsOf(r).value.input == Some(n)
    ensures ReportsOutput(r, n) <==> CountsOf(r).Some? && CountsOf(r).value.output == Some(n)
  {
  }

  /** One more event: its report, if it makes one, is the last. */
  lemma InputAfter(rs: seq<Received>, r: Received)
    requires LastReport(ReportsInput, rs, Consumed(rs).input)
    ensures LastReport(ReportsInput, rs + [r], Consumed(rs + [r]).input)
  {
    NextCounts(rs, r);
    if CountsOf(r).Some? && CountsOf(r).value.input.Some? {
      CountsAreReports(r, CountsOf(r).value.input.value);
      LastReportReplaced(ReportsInput, rs, r, CountsOf(r).value.input.value);
    } else {
      forall m ensures !ReportsInput(r, m) {
        CountsAreReports(r, m);
      }
      LastReportStays(ReportsInput, rs, r, Consumed(rs).input);
    }
  }

  lemma OutputAfter(rs: seq<Received>, r: Received)
    requires LastReport(ReportsOutput, rs, Consumed(rs).output)
    ensures LastReport(ReportsOutput, rs + [r], Consumed(rs + [r]).output)
  {
    NextCounts(rs, r);
    if CountsOf(r).Some? && CountsOf(r).value.output.Some? {
      CountsAreReports(r, CountsOf(r).value.output.value);
      LastReportReplaced(ReportsOutput, rs, r, CountsOf(r).value.output.value);
    } else {
      forall m ensures !ReportsOutput(r, m) {
        CountsAreReports(r, m);
      }
      LastReportStays(ReportsOutput, rs, r, Consumed(rs).output);
    }
  }

  lemma {:induction false} UsageIsLast(rs: seq<Received>)
    ensures LastReport(ReportsInput, rs, Consumed(rs).input)
    ensures LastReport(ReportsOutput, rs, Consumed(rs).output)
  {
    if rs != [] {
      var before, r := rs[..|rs| - 1], rs[|rs| - 1];
      assert rs == before + [r];
      UsageIsLast(before);
      InputAfter(before, r);
      OutputAfter(before, r);
    }
  }

  lemma InputExactly(rs: seq<Received>, n: Option<int>)
    ensures Consumed(rs).input == n <==> LastReport(ReportsInput, rs, n)
  {
    UsageIsLast(rs);
    if LastReport(ReportsInput, rs, n) {
      LastReportIsUnique(ReportsInput, rs, n, Consumed(rs).input);
    }
  }

  lemma OutputExactly(rs: seq<Received>, n: Option<int>)
    ensures Consumed(rs).output == n <==> LastReport(ReportsOutput, rs, n)
  {
    UsageIsLast(rs);
    if LastReport(ReportsOutput, rs, n) {
      LastReportIsUnique(ReportsOutput, rs, n, Consumed(rs).output);
    }
  }

  /**
   * The usage read is exactly the last report of each kind: the input count and the output count come
   * each from the last `message_start` or `message_delta` that gives it, and the total is their sum.
   */
  lemma UsageExactly(rs: seq<Received>, usage: Usage)
    ensures Say(rs).usage == usage <==>
      && LastReport(ReportsInput, rs, usage.input) && LastReport(ReportsOutput, rs, usage.output)
      && usage.total == if usage.input.Some? && usage.output.Some? then Some(usage.input.value + usage.output.value)
           else None
  {
    InputExactly(rs, usage.input);
    OutputExactly(rs, usage.output);
  }

  // ----- The results -----------------------------------------------------------------------------

  /** What the stream parser returns for a text, from what its events say. */
  lemma StreamResult(d: Decoder, text: string)
    ensures var es, p := Events(text), ReadStream(d, text);
      var s := Say(ReceivedAll(d, es));
      && p.model == s.model && p.usage == s.usage && p.finish == s.finish && p.error == None
      && p.content == (if s.text == [] then None else Some(Concat(s.text)))
      && p.thinking == (if s.thinking == [] then None else Some(Concat(s.thinking)))
      && |p.tools| == |s.tools.order|
      && (forall k :: 0 <= k < |p.tools| ==>
            s.tools.order[k] in s.tools.slots && p.tools[k] == Entry(d.loads, s.tools.slots[s.tools.order[k]]))
      && (p.status == Unparsed <==> es == [])
      && (p.status == Partial <==> exists e :: e in es && d.decode(e.data) == None)
  {
    var s := Say(ReceivedAll(d, Events(text)));
    ListingAt(d.loads, s.tools.order, s.tools.slots);
  }

  /** One more block of the single form, by its type. */
  lemma SingleBlockSays(bs: seq<ContentBlock>, b: ContentBlock)
    ensures Flat(TextBlock, []) == [] && Flat(ThinkingBlock, []) == [] && Flat(ToolBlock, []) == []
    ensures Flat(TextBlock, bs + [b]) == Flat(TextBlock, bs)
      + if b.kind == Some("text") then [if b.text == None then "" else b.text.value] else []
    ensures Flat(ThinkingBlock, bs + [b]) == Flat(ThinkingBlock, bs)
      + if b.kind == Some("thinking") then [if b.thinking == None then "" else b.thinking.value] else []
    ensures Flat(ToolBlock, bs + [b]) == Flat(ToolBlock, bs)
      + if b.kind == Some("tool_use") then [Tool(b.id, b.name, b.input)] else []
  {
    FlatSnoc(TextBlock, bs, b);
    FlatSnoc(ThinkingBlock, bs, b);
    FlatSnoc(ToolBlock, bs, b);
  }

  /** What the single-object parser returns, from what the blocks say. */
  lemma SingleResult(d: Decoder, text: string, r: Reply)
    requires d.reply(text) == Some(r)
    ensures var p := ReadSingle(d, text);
      && p.model == r.model && p.finish == r.stopReason && p.status == Complete && p.error == None
      && p.content == (if Flat(TextBlock, r.content) == [] then None else Some(Concat(Flat(TextBlock, r.content))))
      && p.thinking == (if Flat(ThinkingBlock, r.content) == [] then None
                        else Some(Concat(Flat(ThinkingBlock, r.content))))
      && p.tools == Flat(ToolBlock, r.content)
      && Counted(Usage(None, None, None), r.usage, p.usage)
  {
  }
}
