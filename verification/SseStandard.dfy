// The standard's own reader (section 9.2.6 of the WHATWG HTML Living Standard, "Interpreting an
// event stream"), and exactly how the parser's reading differs from it.

module SseStandard {
  import opened Common
  import opened Sse

  const BYTE_ORDER_MARK: char := '\U{FEFF}'

  /** A dispatched event: its type and its data. */
  datatype Message = Message(kind: string, data: string)

  /** The event type buffer, the data buffer, and what was dispatched. */
  datatype Buffers = Buffers(kind: string, data: string, out: seq<Message>)

  // ----- The standard ---------------------------------------------------------------------

  /** Lines end at LF, CR or CRLF and nowhere else. */
  function StandardLines(t: string): seq<string> {
    if t == "" then []
    else if t[0] == '\n' || t[0] == '\r' then [""] + StandardLines(t[BreakWidth(t)..])
    else Onto(t[0], StandardLines(t[1..]))
  }

  function Dispatch(b: Buffers): Buffers {
    if b.data == "" then Buffers("", "", b.out)
    else
      var n := |b.data| - 1;
      var data := if b.data[n] == '\n' then b.data[..n] else b.data;
      Buffers("", "", b.out + [Message(if b.kind == "" then "message" else b.kind, data)])
  }

  function Process(b: Buffers, line: string): Buffers {
    if line == "" then Dispatch(b)
    else if line[0] == ':' then b
    else if FieldName(line) == "event" then b.(kind := FieldValue(line))
    else if FieldName(line) == "data" then b.(data := b.data + FieldValue(line) + "\n")
    else b
  }

  function ProcessAll(b: Buffers, lines: seq<string>): Buffers
    decreases |lines|
  {
    if lines == [] then b else ProcessAll(Process(b, lines[0]), lines[1..])
  }

  /** A leading byte order mark is stripped, and what is pending at the end is discarded. */
  function StandardEvents(text: string): seq<Message> {
    var body := if text != "" && text[0] == BYTE_ORDER_MARK then text[1..] else text;
    ProcessAll(Buffers("", "", []), StandardLines(body)).out
  }

  // ----- The parser's reader beside it ---------------------------------------------------------

  function KindOf(name: Option<string>): string {
    if name.Some? then name.value else ""
  }

  function AsMessage(e: SseEvent): Message {
    Message(if KindOf(e.name) == "" then "message" else KindOf(e.name), e.data)
  }

  function AsMessages(es: seq<SseEvent>): seq<Message> {
    if es == [] then [] else AsMessages(es[..|es| - 1]) + [AsMessage(es[|es| - 1])]
  }

  lemma AsMessagesSnoc(es: seq<SseEvent>, e: SseEvent)
    ensures AsMessages(es + [e]) == AsMessages(es) + [AsMessage(e)]
  {
    assert (es + [e])[..|es|] == es;
  }

  /** Each data line with the line feed the standard appends to it. */
  function Fed(lines: seq<string>): string {
    if lines == [] then "" else Join(lines) + "\n"
  }

  lemma {:induction false} JoinSnoc(lines: seq<string>, line: string)
    ensures Join(lines + [line]) == Fed(lines) + line
    decreases |lines|
  {
    if lines == [] {
      assert [] + [line] == [line] && "" + line == line;
    } else {
      assert (lines + [line])[1..] == lines[1..] + [line];
      JoinSnoc(lines[1..], line);
      if |lines| > 1 {
        assert lines[0] + "\n" + (Join(lines[1..]) + "\n" + line) == (lines[0] + "\n" + Join(lines[1..])) + "\n" + line;
      }
    }
  }

  /** The two readers hold the same. */
  ghost predicate Mirrors(r: Reader, b: Buffers) {
    b.kind == KindOf(r.name) && b.data == Fed(r.data) && b.out == AsMessages(r.out)
  }

  lemma FlushMirrors(r: Reader, b: Buffers)
    requires Mirrors(r, b)
    ensures Mirrors(Flush(r), Dispatch(b))
  {
    if r.data == [] {
      assert r.out + [] == r.out;
    } else {
      AsMessagesSnoc(r.out, SseEvent(r.name, Join(r.data)));
      assert b.data[..|b.data| - 1] == Join(r.data);
    }
  }

  lemma FeedMirrors(r: Reader, b: Buffers, line: string)
    requires Mirrors(r, b) && Clean(line)
    ensures Mirrors(Feed(r, line), Process(b, line))
  {
    if line == "" {
      FlushMirrors(r, b);
    } else {
      CutKeepsNoReturn(line, line);
      if FieldName(line) == "data" {
        JoinSnoc(r.data, FieldValue(line));
        assert r.data + [FieldValue(line)] != [];
      }
    }
  }

  lemma {:induction false} FeedAllMirrors(r: Reader, b: Buffers, lines: seq<string>)
    requires Mirrors(r, b) && forall l :: l in lines ==> Clean(l)
    ensures Mirrors(FeedAll(r, lines), ProcessAll(b, lines))
    decreases |lines|
  {
    if lines != [] {
      FeedMirrors(r, b, lines[0]);
      FeedAllMirrors(Feed(r, lines[0]), Process(b, lines[0]), lines[1..]);
    }
  }

  // ----- Exactly when they agree -------------------------------------------------------------------

  /** No leading byte order mark, and no line break but LF, CR and CRLF. */
  ghost predicate Plain(text: string) {
    && (text != "" ==> text[0] != BYTE_ORDER_MARK)
    && OnlyStandardBreaks(text)
  }

  ghost predicate OnlyStandardBreaks(text: string) {
    forall c :: c in text && Break(c) ==> c == '\n' || c == '\r'
  }

  lemma {:induction false} PlainLines(t: string)
    requires OnlyStandardBreaks(t)
    ensures StandardLines(t) == SplitLines(t)
  {
    if t != "" {
      assert t[0] in t;
      PlainLines(if Break(t[0]) then t[BreakWidth(t)..] else t[1..]);
    }
  }

  /** Some data line has no blank line after it. */
  ghost predicate Unfinished(lines: seq<string>) {
    exists i :: 0 <= i < |lines| && DataLine(lines[i]) && forall j :: i < j < |lines| ==> lines[j] != ""
  }

  lemma {:induction false} PendingExactly(lines: seq<string>)
    requires forall l :: l in lines ==> Clean(l)
    ensures FeedAll(START, lines).data != [] <==> Unfinished(lines)
    decreases |lines|
  {
    if lines != [] {
      var n := |lines| - 1;
      var before, line := lines[..n], lines[n];
      PendingExactly(before);
      assert lines == before + [line] && line in lines;
      FeedAllSplits(START, before, [line]);
      assert [line][1..] == [];
      if line != "" {
        CutKeepsNoReturn(line, line);
      }
      UnfinishedSnoc(before, line);
    }
  }

  lemma UnfinishedSnoc(before: seq<string>, line: string)
    ensures Unfinished(before + [line]) <==> line != "" && (DataLine(line) || Unfinished(before))
  {
    var lines := before + [line];
    if line != "" {
      if DataLine(line) {
        assert DataLine(lines[|before|]);
      } else if Unfinished(before) {
        var i :| 0 <= i < |before| && DataLine(before[i]) && forall j :: i < j < |before| ==> before[j] != "";
        assert DataLine(lines[i]);
      }
      if Unfinished(lines) && !DataLine(line) {
        var i :| 0 <= i < |lines| && DataLine(lines[i]) && forall j :: i < j < |lines| ==> lines[j] != "";
        assert DataLine(before[i]);
        assert forall j :: i < j < |before| ==> before[j] == lines[j];
      }
    } else {
      assert lines[|before|] == "";
    }
  }

  /**
   * On plain text the parser yields the standard's events, and one more exactly when a data
   * line has no blank line after it: the standard discards that event, the parser does not.
   */
  lemma ReadsAsStandardExactly(text: string)
    requires Plain(text)
    ensures AsMessages(Events(text)) == StandardEvents(text) <==> !Unfinished(SplitLines(text))
    ensures |Events(text)| == |StandardEvents(text)| + if Unfinished(SplitLines(text)) then 1 else 0
    ensures StandardEvents(text) <= AsMessages(Events(text))
  {
    var lines := SplitLines(text);
    PlainLines(text);
    LinesHaveNoBreaks(text);
    PendingExactly(lines);
    var b := Buffers("", "", []);
    FeedAllMirrors(START, b, lines);
    var r := FeedAll(START, lines);
    AsMessagesLength(r.out);
    if r.data == [] {
      assert r.out + [] == r.out;
    } else {
      AsMessagesSnoc(r.out, SseEvent(r.name, Join(r.data)));
    }
  }

  lemma {:induction false} AsMessagesLength(es: seq<SseEvent>)
    ensures |AsMessages(es)| == |es|
  {
    if es != [] {
      AsMessagesLength(es[..|es| - 1]);
    }
  }

  // ----- A byte order mark ---------------------------------------------------------------------------

  /** With its mark in front, a line is no field the reader knows, no comment and not blank. */
  lemma MarkedLineIsIgnored(r: Reader, line: string)
    requires Clean(line)
    ensures Clean([BYTE_ORDER_MARK] + line) && Feed(r, [BYTE_ORDER_MARK] + line) == r
  {
    var marked := [BYTE_ORDER_MARK] + line;
    assert Clean(marked);
    CutKeepsNoReturn(marked, marked);
    assert FieldName(marked)[0] == BYTE_ORDER_MARK;
  }

  /**
   * A leading byte order mark makes the parser lose exactly the first line, whatever it is, where
   * the standard strips the mark and reads the line.
   */
  lemma ByteOrderMarkLosesLine(line: string, eol: string, rest: string)
    requires Clean(line) && Terminator(eol) && Follows(eol, rest)
    ensures Events([BYTE_ORDER_MARK] + (line + eol + rest)) == Events(rest)
    ensures line != "" && line[0] != BYTE_ORDER_MARK ==>
      StandardEvents([BYTE_ORDER_MARK] + (line + eol + rest)) == StandardEvents(line + eol + rest)
  {
    var marked := [BYTE_ORDER_MARK] + line;
    MarkedLineIsIgnored(START, line);
    assert [BYTE_ORDER_MARK] + (line + eol + rest) == marked + eol + rest;
    OneLine(eol, marked, rest);
    assert ([marked] + SplitLines(rest))[1..] == SplitLines(rest);
    var text := line + eol + rest;
    assert ([BYTE_ORDER_MARK] + text)[1..] == text;
    assert line != "" ==> text[0] == line[0];
  }

  /** A line that sets no type and adds no data. */
  predicate Idle(line: string) {
    line == "" || line[0] == ':' || FieldName(line) !in {"event", "data"}
  }

  lemma IdleLineIsIgnored(line: string)
    requires Idle(line) && Clean(line)
    ensures Feed(START, line) == START
  {
    if line != "" {
      CutKeepsNoReturn(line, line);
    }
  }

  /** So the mark does no harm of its own when the first line is an idle one: then the condition is the plain one. */
  lemma MarkBeforeIdleLine(line: string, eol: string, rest: string)
    requires Clean(line) && Idle(line) && Terminator(eol) && Follows(eol, rest)
    requires Plain(line + eol + rest)
    ensures var text := line + eol + rest;
      AsMessages(Events([BYTE_ORDER_MARK] + text)) == StandardEvents([BYTE_ORDER_MARK] + text)
      <==> !Unfinished(SplitLines(text))
  {
    var text := line + eol + rest;
    ByteOrderMarkLosesLine(line, eol, rest);
    IdleLineIsIgnored(line);
    OneLine(eol, line, rest);
    assert ([line] + SplitLines(rest))[1..] == SplitLines(rest);
    assert Events(text) == Events(rest);
    assert ([BYTE_ORDER_MARK] + text)[1..] == text;
    ReadsAsStandardExactly(text);
  }

  // ----- One witness for each deviation ---------------------------------------------------------------

  /** A one-line event, with its blank line. */
  function OneEvent(value: string): string {
    "data: " + value + "\n" + "\n"
  }

  lemma OneEventLines(first: string)
    requires Clean(first)
    ensures SplitLines(first + "\n" + "\n") == [first, ""]
  {
    assert first + "\n" + "\n" == first + "\n" + ("" + "\n" + "");
    OneLine("\n", "", "");
    OneLine("\n", first, "" + "\n" + "");
    assert [first] + ([""] + []) == [first, ""];
  }

  lemma FeedsInTurn(r: Reader, a: string, b: string, c: string)
    ensures FeedAll(r, [a]) == Feed(r, a)
    ensures FeedAll(r, [a, b]) == Feed(Feed(r, a), b)
    ensures FeedAll(r, [a, b, c]) == Feed(Feed(Feed(r, a), b), c)
  {
    assert [a][1..] == [] && [a, b][1..] == [b] && [a, b, c][1..] == [b, c];
    assert [b][1..] == [] && [b, c][1..] == [c] && [c][1..] == [];
    assert FeedAll(Feed(r, a), [b]) == Feed(Feed(r, a), b);
    assert FeedAll(Feed(Feed(r, a), b), [c]) == Feed(Feed(Feed(r, a), b), c);
  }

  lemma BlankDispatches(r: Reader, value: string)
    requires r == START.(data := [value])
    ensures Flush(r).out == Feed(r, "").out == [SseEvent(None, value)]
  {
    assert [] + [SseEvent(None, value)] == [SseEvent(None, value)];
  }

  /** The end of the text dispatches what the standard discards. */
  lemma EndDispatches(value: string)
    requires Clean(value)
    ensures Events("data: " + value) == [SseEvent(None, value)] && StandardEvents("data: " + value) == []
  {
    var line := "data: " + value;
    FieldOfLine("data", value);
    assert "data" + ": " + value == line;
    CleanIsOneLine(line);
    DataFeedsLine(START, value);
    assert [] + [value] == [value];
    FeedsInTurn(START, line, "", "");
    BlankDispatches(START.(data := [value]), value);
    CleanHasNoBreaks(line);
    assert line[0] == 'd' && DataLine([line][0]);
    ReadsAsStandardExactly(line);
  }

  lemma CleanHasNoBreaks(line: string)
    requires Clean(line)
    ensures OnlyStandardBreaks(line)
  {
  }

  /** What the standard makes of one data line and a blank line. */
  lemma StandardOneEvent(line: string, value: string)
    requires line != "" && FieldName(line) == "data" && FieldValue(line) == value
    requires forall c :: c in line ==> c != '\n' && c != '\r'
    ensures ProcessAll(Buffers("", "", []), StandardLines(line + "\n" + "\n")).out == [Message("message", value)]
  {
    StandardTwoLines(line);
    var b := Process(Buffers("", "", []), line);
    assert "" + value + "\n" == value + "\n" && (value + "\n")[..|value|] == value;
    assert [line, ""][1..] == [""] && [""][1..] == [];
    assert Dispatch(b).out == [] + [Message("message", value)];
  }

  lemma {:induction false} StandardTwoLines(line: string)
    requires forall c :: c in line ==> c != '\n' && c != '\r'
    ensures StandardLines(line + "\n" + "\n") == [line, ""]
  {
    var t := line + "\n" + "\n";
    if line == "" {
      assert t[1..] == "\n" && "\n"[1..] == "";
      assert StandardLines("\n") == [""] + StandardLines("");
      assert [""] + [""] == ["", ""];
    } else {
      assert line[0] in line && t[1..] == line[1..] + "\n" + "\n";
      assert forall c :: c in line[1..] ==> c in line;
      StandardTwoLines(line[1..]);
      assert [line[0]] + line[1..] == line;
    }
  }

  lemma CleanIsWhole(line: string)
    requires Clean(line)
    ensures forall c :: c in line ==> c != '\n' && c != '\r'
  {
  }

  lemma MarkedFieldIsLost(value: string)
    requires Clean(value)
    ensures var marked := [BYTE_ORDER_MARK] + ("data: " + value);
      Clean(marked) && Events(marked + "\n" + "\n") == []
  {
    var line := "data: " + value;
    var marked := [BYTE_ORDER_MARK] + line;
    LabelledIsClean("data", value);
    assert "data" + ": " + value == line;
    OneEventLines(marked);
    CutKeepsNoReturn(marked, marked);
    assert FieldName(marked)[0] == BYTE_ORDER_MARK;
    FeedsInTurn(START, marked, "", "");
    assert Feed(START, "") == START;
  }

  /** A byte order mark makes the parser lose the field it stands before. */
  lemma ByteOrderMarkLosesField(value: string)
    requires Clean(value)
    ensures Events([BYTE_ORDER_MARK] + OneEvent(value)) == []
    ensures StandardEvents([BYTE_ORDER_MARK] + OneEvent(value)) == [Message("message", value)]
  {
    var line, text := "data: " + value, OneEvent(value);
    assert [BYTE_ORDER_MARK] + text == [BYTE_ORDER_MARK] + line + "\n" + "\n";
    MarkedFieldIsLost(value);
    assert ([BYTE_ORDER_MARK] + text)[1..] == text;
    FieldOfLine("data", value);
    assert "data" + ": " + value == line;
    CleanIsWhole(line);
    StandardOneEvent(line, value);
  }

  lemma WholeLine(a: string, c: char, b: string)
    requires Break(c) && c != '\n' && c != '\r' && Clean(a) && Clean(b)
    ensures var value := a + [c] + "data: " + b;
      && FieldName("data: " + value) == "data" && FieldValue("data: " + value) == value
      && forall x :: x in "data: " + value ==> x != '\n' && x != '\r'
  {
    var value := a + [c] + "data: " + b;
    assert "data: " + value == "data" + (":" + (" " + value));
    ValueOfField("data", " " + value);
    assert (" " + value)[1..] == value;
    forall x | x in "data: " + value ensures x != '\n' && x != '\r' {
      assert x in "data: " || x in a || x == c || x in b;
    }
  }

  lemma TwoDataLines(one: string, two: string, a: string, b: string)
    requires Clean(a) && Clean(b) && one == "data: " + a && two == "data: " + b
    ensures FeedAll(START, [one, two, ""]).out == [SseEvent(None, a + "\n" + b)]
    ensures FeedAll(START, [one, two, ""]).data == []
  {
    DataFeedsLine(START, a);
    assert [] + [a] == [a] && [a] + [b] == [a, b];
    DataFeedsLine(START.(data := [a]), b);
    FeedsInTurn(START, one, two, "");
    assert [a, b][1..] == [b] && Join([a, b]) == a + "\n" + b;
    assert [] + [SseEvent(None, a + "\n" + b)] == [SseEvent(None, a + "\n" + b)];
  }

  /** Any other break character splits for the parser a line the standard keeps whole. */
  lemma OtherBreaksSplit(a: string, c: char, b: string)
    requires Break(c) && c != '\n' && c != '\r' && Clean(a) && Clean(b)
    ensures var text := OneEvent(a + [c] + "data: " + b);
      && Events(text) == [SseEvent(None, a + "\n" + b)]
      && StandardEvents(text) == [Message("message", a + [c] + "data: " + b)]
  {
    var one, two := "data: " + a, "data: " + b;
    var value := a + [c] + "data: " + b;
    LinesAtOtherBreak(a, c, b);
    TwoDataLines(one, two, a, b);
    WholeLine(a, c, b);
    StandardOneEvent("data: " + value, value);
  }

  lemma LinesAtOtherBreak(a: string, c: char, b: string)
    requires Break(c) && c != '\n' && c != '\r' && Clean(a) && Clean(b)
    ensures SplitLines(OneEvent(a + [c] + "data: " + b)) == ["data: " + a, "data: " + b, ""]
  {
    var one, two := "data: " + a, "data: " + b;
    LabelledIsClean("data", a);
    LabelledIsClean("data", b);
    assert "data" + ": " + a == one && "data" + ": " + b == two;
    assert OneEvent(a + [c] + "data: " + b) == one + [c] + (two + "\n" + "\n");
    OneEventLines(two);
    OneLine([c], one, two + "\n" + "\n");
    assert [one] + [two, ""] == [one, two, ""];
  }
}
