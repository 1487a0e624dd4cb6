// What the response parsers share (telemetry/parsers/base.py): the result record, "last value
// wins" fields, the insertion-ordered table of tool calls and its final reading.

module Parsing {
  import opened Common
  import opened Sse
  import Json

  datatype Status = Complete | Partial | Unparsed

  /** A tool call's arguments: absent or null, a string, or a decoded value. */
  datatype Arguments = Missing | Raw(text: string) | Decoded(value: Json.Json)

  datatype Tool = Tool(id: Option<string>, name: Option<string>, arguments: Arguments)

  datatype Usage = Usage(input: Option<int>, output: Option<int>, total: Option<int>)

  datatype ParseResult = ParseResult(
    model: Option<string>,
    usage: Usage,
    content: Option<string>,
    thinking: Option<string>,
    tools: seq<Tool>,
    finish: Option<string>,
    status: Status,
    error: Option<string>)

  const NO_USAGE := Usage(None, None, None)

  function Failed(error: string): ParseResult {
    ParseResult(None, NO_USAGE, None, None, [], None, Unparsed, Some(error))
  }

  /** `str.isspace` */
  predicate Space(c: char) {
    || '\t' <= c <= '\r' || '\U{001C}' <= c <= ' ' || c == '\U{0085}' || c == '\U{00A0}' || c == '\U{1680}'
    || '\U{2000}' <= c <= '\U{200A}' || c in {'\U{2028}', '\U{2029}', '\U{202F}', '\U{205F}', '\U{3000}'}
  }

  predicate Blank(t: string) {
    forall c :: c in t ==> Space(c)
  }

  /** By code point. */
  lemma SpaceExactly(c: char)
    ensures Space(c) <==>
      || 9 <= c as int <= 13 || 28 <= c as int <= 32 || 8192 <= c as int <= 8202
      || c as int in {133, 160, 5760, 8232, 8233, 8239, 8287, 12288}
  {
  }

  predicate LooksLikeSse(text: string, contentType: Option<string>) {
    (contentType.Some? && Contains(contentType.value, "event-stream")) || Contains(text[..Min(512, |text|)], "data:")
  }

  /** By position: the content type names an event stream, or `data:` ends within 512 characters. */
  lemma LooksLikeSseExactly(text: string, contentType: Option<string>)
    ensures LooksLikeSse(text, contentType) <==>
      || (contentType.Some? && exists at: nat :: StandsAt(contentType.value, "event-stream", at))
      || exists at: nat :: at <= 507 && StandsAt(text, "data:", at)
  {
    if contentType.Some? {
      ContainsExactly(contentType.value, "event-stream");
    }
    var start := text[..Min(512, |text|)];
    ContainsExactly(start, "data:");
    forall at: nat ensures StandsAt(start, "data:", at) <==> at <= 507 && StandsAt(text, "data:", at) {
      if at + 5 <= |start| {
        assert start[at..at + 5] == text[at..at + 5];
      }
    }
  }

  /** Which of the two parsers a text is given to. */
  predicate ParsedAsStream(text: string, contentType: Option<string>, streamed: bool) {
    streamed || LooksLikeSse(text, contentType)
  }

  lemma {:induction false} ContainsAt(t: string, word: string, i: nat)
    requires i <= |t| && word <= t[i..]
    ensures Contains(t, word)
  {
    if i > 0 {
      assert t[1..][i - 1..] == t[i..];
      ContainsAt(t[1..], word, i - 1);
    }
  }

  /** A JSON object on one line is no data line, whatever it holds. */
  lemma JsonIsNoDataLine(text: string)
    requires text != "" && text[0] == '{' && Clean(text)
    ensures NoDataLine(text) && !Blank(text)
  {
    CleanIsOneLine(text);
    assert FieldName(text)[0] == '{';
    assert text[0] in text && !Space('{');
  }

  /** With `data:` among its first 512 characters it looks like an event stream all the same. */
  lemma DataInsideLooksLikeSse(a: string, b: string, contentType: Option<string>)
    requires |a| + 5 <= 512
    ensures LooksLikeSse(a + "data:" + b, contentType)
  {
    var text := a + "data:" + b;
    var start := text[..Min(512, |text|)];
    assert start[|a|..][..5] == "data:";
    ContainsAt(start, "data:", |a|);
  }

  /** One-line JSON that quotes `data:` early, as a reply's content may. */
  ghost predicate Quotes(json: string) {
    exists a, b :: json == a + "data:" + b && a != "" && a[0] == '{' && |a| + 5 <= 512 && Clean(a) && Clean(b)
  }

  lemma QuotingReply(json: string, contentType: Option<string>)
    requires Quotes(json)
    ensures NoDataLine(json) && !Blank(json) && LooksLikeSse(json, contentType)
  {
    var a, b :| json == a + "data:" + b && a != "" && a[0] == '{' && |a| + 5 <= 512 && Clean(a) && Clean(b);
    assert Clean("data:");
    forall c | c in json ensures !Break(c) {
      assert c in a || c in "data:" || c in b;
    }
    JsonIsNoDataLine(json);
    DataInsideLooksLikeSse(a, b, contentType);
  }

  lemma QuotingReplyExists()
    ensures Quotes("{\"text\":\"" + "data:" + " x\"}")
  {
    assert Clean("{\"text\":\"") && Clean(" x\"}");
  }

  function JoinText(parts: seq<string>): Option<string> {
    if parts == [] then None else Some(Concat(parts))
  }

  /** A text that is not there counts as empty. */
  function TextIn(content: Option<string>): string {
    if content.Some? then content.value else ""
  }

  /** A joined text is the text it should be, exactly when it is there exactly if the other is. */
  lemma JoinedExactly(parts: seq<string>, content: Option<string>)
    requires Concat(parts) == TextIn(content)
    ensures JoinText(parts) == content <==> (parts != [] <==> content.Some?)
  {
  }

  // ----- Flattening --------------------------------------------------------------------

  function Flat<T, U>(f: T -> seq<U>, xs: seq<T>): seq<U> {
    if xs == [] then [] else Flat(f, xs[..|xs| - 1]) + f(xs[|xs| - 1])
  }

  lemma {:induction false} FlatSplits<T, U>(f: T -> seq<U>, a: seq<T>, b: seq<T>)
    ensures Flat(f, a + b) == Flat(f, a) + Flat(f, b)
  {
    if b == [] {
      assert a + b == a;
    } else {
      assert (a + b)[..|a + b| - 1] == a + b[..|b| - 1];
      FlatSplits(f, a, b[..|b| - 1]);
    }
  }

  lemma FlatOfTwo<T, U>(f: T -> seq<U>, x: T, y: T)
    ensures Flat(f, [x]) == f(x) && Flat(f, [x, y]) == f(x) + f(y)
  {
    assert [x][..0] == [] && [x, y][..1] == [x];
    assert Flat(f, [x][..0]) == [];
  }

  lemma FlatSnoc<T, U>(f: T -> seq<U>, xs: seq<T>, x: T)
    ensures Flat(f, xs + [x]) == Flat(f, xs) + f(x)
  {
    assert (xs + [x])[..|xs|] == xs;
  }

  lemma FlatNext<T, U>(f: T -> seq<U>, xs: seq<T>, i: nat)
    requires i < |xs|
    ensures Flat(f, xs[..i + 1]) == Flat(f, xs[..i]) + f(xs[i])
  {
    assert xs[..i + 1][..i] == xs[..i];
  }

  /** Nothing comes of a sequence exactly when nothing comes of each element. */
  lemma {:induction false} FlatIsEmpty<T, U>(f: T -> seq<U>, xs: seq<T>)
    ensures Flat(f, xs) == [] <==> forall x :: x in xs ==> f(x) == []
  {
    if xs != [] {
      var n := |xs| - 1;
      FlatIsEmpty(f, xs[..n]);
      assert xs == xs[..n] + [xs[n]];
    }
  }

  lemma NothingMore<T>(xs: seq<T>)
    ensures xs + [] == xs
  {
  }

  // ----- Last value wins -----------------------------------------------------------------

  predicate Truthy(v: Option<string>) {
    v.Some? && v.value != ""
  }

  /** One assignment of the form `if v: field = v`. */
  function Newer(current: Option<string>, v: Option<string>): Option<string> {
    if Truthy(v) then v else current
  }

  function Latest(values: seq<Option<string>>): Option<string> {
    if values == [] then None else Newer(Latest(values[..|values| - 1]), values[|values| - 1])
  }

  /** The last value that is there and not empty wins. */
  lemma {:induction false} LatestExactly(values: seq<Option<string>>, i: nat)
    requires i <= |values| && forall j :: i <= j < |values| ==> values[j] == None || values[j] == Some("")
    requires i > 0 ==> values[i - 1] != None && values[i - 1] != Some("")
    ensures Latest(values) == if i == 0 then None else values[i - 1]
  {
    if i < |values| {
      LatestExactly(values[..|values| - 1], i);
    }
  }

  lemma LatestSnoc(values: seq<Option<string>>, v: Option<string>)
    ensures Latest(values + [v]) == Newer(Latest(values), v)
  {
    assert (values + [v])[..|values|] == values;
  }

  /** The non-empty values all equal the target, and it is among them if it is not empty. */
  ghost predicate Delivers(values: seq<Option<string>>, target: Option<string>) {
    && (forall v :: v in values && Truthy(v) ==> v == target)
    && (Truthy(target) ==> target in values)
  }

  lemma {:induction false} LatestIsDelivered(values: seq<Option<string>>, target: Option<string>)
    requires forall v :: v in values && Truthy(v) ==> v == target
    ensures Latest(values) == None || Latest(values) == target
  {
    if values != [] {
      LatestIsDelivered(values[..|values| - 1], target);
    }
  }

  lemma {:induction false} LatestOfTruthy(values: seq<Option<string>>, v: Option<string>)
    requires v in values && Truthy(v)
    ensures Latest(values) != None
  {
    var n := |values| - 1;
    if values[n] != v {
      assert values == values[..n] + [values[n]];
      LatestOfTruthy(values[..n], v);
    }
  }

  lemma {:induction false} LatestIsAmong(values: seq<Option<string>>)
    ensures Latest(values).Some? ==> Latest(values) in values && Truthy(Latest(values))
  {
    if values != [] {
      LatestIsAmong(values[..|values| - 1]);
    }
  }

  /** What arrives of a delivered value: all of it, except that an empty one arrives as none. */
  lemma DeliveredIsLatest(values: seq<Option<string>>, target: Option<string>)
    requires Delivers(values, target)
    ensures Latest(values) == if Truthy(target) then target else None
    ensures Latest(values) == target <==> target != Some("")
  {
    LatestIsDelivered(values, target);
    LatestIsAmong(values);
    if Truthy(target) {
      LatestOfTruthy(values, target);
    }
  }

  function Known(current: Option<int>, v: Option<int>): Option<int> {
    if v.Some? then v else current
  }

  function LatestKnown(values: seq<Option<int>>): Option<int> {
    if values == [] then None else Known(LatestKnown(values[..|values| - 1]), values[|values| - 1])
  }

  /** The last value that is there wins. */
  lemma {:induction false} LatestKnownExactly(values: seq<Option<int>>, i: nat)
    requires i <= |values| && forall j :: i <= j < |values| ==> values[j] == None
    requires i > 0 ==> values[i - 1] != None
    ensures LatestKnown(values) == if i == 0 then None else values[i - 1]
  {
    if i < |values| {
      LatestKnownExactly(values[..|values| - 1], i);
    }
  }

  lemma LatestKnownSnoc(values: seq<Option<int>>, v: Option<int>)
    ensures LatestKnown(values + [v]) == Known(LatestKnown(values), v)
  {
    assert (values + [v])[..|values|] == values;
  }

  /** A counter that may be reported along the way: its last report is the final count. */
  ghost predicate Reports(values: seq<Option<int>>, target: Option<int>) {
    match target
    case None => forall v :: v in values ==> v.None?
    case Some(_) => exists i :: 0 <= i < |values| && values[i] == target && forall j :: i < j < |values| ==>
        values[j].None?
  }

  lemma {:induction false} ReportedIsLatest(values: seq<Option<int>>, target: Option<int>)
    requires Reports(values, target)
    ensures LatestKnown(values) == target
  {
    if values != [] {
      var n := |values| - 1;
      assert values[n] in values;
      if values[n].None? {
        if target.Some? {
          var i :| 0 <= i < |values| && values[i] == target && forall j :: i < j < |values| ==> values[j].None?;
          assert values[..n][i] == target;
        }
        ReportedIsLatest(values[..n], target);
      }
    }
  }

  // ----- Tool calls by index -------------------------------------------------------------

  /** An insertion-ordered table. */
  datatype Tools = Tools(order: seq<int>, slots: map<int, Tool>) {
    ghost predicate Valid() {
      && (forall i :: i in order <==> i in slots)
      && (forall j, k :: 0 <= j < k < |order| ==> order[j] != order[k])
    }

    /** Assign a slot; a key already present keeps its place. */
    function Put(i: int, tool: Tool): (t: Tools)
      ensures Valid() ==> t.Valid()
    {
      Tools(if i in slots then order else order + [i], slots[i := tool])
    }

    function At(i: int): Option<Tool> {
      if i in slots then Some(slots[i]) else None
    }
  }

  const NO_TOOLS := Tools([], map[])

  type Loads = string -> Option<Json.Json>

  /** Non-empty text is replaced by the value it decodes to, when it decodes. */
  function ReadArguments(loads: Loads, a: Arguments): Arguments {
    if a.Raw? && a.text != "" && loads(a.text).Some? then Decoded(loads(a.text).value) else a
  }

  function Entry(loads: Loads, tool: Tool): Tool {
    tool.(arguments := ReadArguments(loads, tool.arguments))
  }

  /** Only a non-empty text that decodes is replaced; nothing else of a tool call changes. */
  lemma EntryExactly(loads: Loads, tool: Tool)
    ensures var entry := Entry(loads, tool);
      && entry.id == tool.id && entry.name == tool.name
      && (forall text, value :: tool.arguments == Raw(text) && text != "" && loads(text) == Some(value)
            ==> entry.arguments == Decoded(value))
      && ((forall text :: tool.arguments == Raw(text) ==> text == "" || loads(text) == None)
            ==> entry.arguments == tool.arguments)
  {
    if tool.arguments.Raw? && tool.arguments.text != "" {
      assert tool.arguments == Raw(tool.arguments.text);
    }
  }

  function Listing(loads: Loads, order: seq<int>, slots: map<int, Tool>): seq<Tool>
    requires forall i :: i in order ==> i in slots
  {
    if order == [] then []
    else
      var last := order[|order| - 1];
      assert last in order;
      Listing(loads, order[..|order| - 1], slots) + [Entry(loads, slots[last])]
  }

  lemma {:induction false} ListingAt(loads: Loads, order: seq<int>, slots: map<int, Tool>)
    requires forall i :: i in order ==> i in slots
    ensures |Listing(loads, order, slots)| == |order|
    ensures forall k :: 0 <= k < |order| ==>
        order[k] in slots && Listing(loads, order, slots)[k] == Entry(loads, slots[order[k]])
  {
    forall k | 0 <= k < |order| ensures order[k] in slots {
      var i := order[k];
      assert i in order;
    }
    if order != [] {
      ListingAt(loads, order[..|order| - 1], slots);
    }
  }

  lemma SlotsByLookup(a: Tools, b: Tools)
    requires forall i :: a.At(i) == b.At(i)
    ensures a.slots == b.slots
  {
    forall i ensures i in a.slots <==> i in b.slots {
      assert a.At(i) == b.At(i);
    }
    forall i | i in a.slots ensures a.slots[i] == b.slots[i] {
      assert a.At(i) == b.At(i);
    }
  }

  /** Two sequences without repetition over the same elements are permutations of each other. */
  lemma SameElementsPermute(a: seq<int>, b: seq<int>)
    requires forall i :: i in a <==> i in b
    requires forall j, k :: 0 <= j < k < |a| ==> a[j] != a[k]
    requires forall j, k :: 0 <= j < k < |b| ==> b[j] != b[k]
    ensures multiset(a) == multiset(b)
  {
    forall i ensures multiset(a)[i] == multiset(b)[i] {
      CountsOnce(a, i);
      CountsOnce(b, i);
    }
  }

  lemma {:induction false} CountsOnce(a: seq<int>, i: int)
    requires forall j, k :: 0 <= j < k < |a| ==> a[j] != a[k]
    ensures multiset(a)[i] == if i in a then 1 else 0
  {
    if a != [] {
      var n := |a| - 1;
      assert a == a[..n] + [a[n]];
      CountsOnce(a[..n], i);
    }
  }

  lemma PrintedStart(eol: string, es: seq<SseEvent>)
    requires Print(eol, es) != ""
    ensures es != [] && Print(eol, es)[0] in {'e', 'd'}
  {
    var line := AllLines(es)[0];
    assert Cut(es[0].data) != [];
    assert EventLines(es[0])[0] == line;
    assert line[0] == 'e' || line[0] == 'd';
    assert Print(eol, es)[0] == line[0];
  }

  /** A cut of a printed stream is blank only when nothing is left of it. */
  lemma CutIsNotBlank(eol: string, es: seq<SseEvent>, n: nat)
    requires n <= |Print(eol, es)|
    ensures Blank(Print(eol, es)[..n]) <==> n == 0
  {
    if n > 0 {
      PrintedStart(eol, es);
      assert Print(eol, es)[..n][0] in Print(eol, es)[..n];
    }
  }

  lemma PrintedIsNotBlank(eol: string, es: seq<SseEvent>)
    requires es != []
    ensures !Blank(Print(eol, es))
  {
    assert Cut(es[0].data) != [] && EventLines(es[0]) != [];
    assert Print(eol, es) != "" && Print(eol, es)[..|Print(eol, es)|] == Print(eol, es);
    CutIsNotBlank(eol, es, |Print(eol, es)|);
  }
}
