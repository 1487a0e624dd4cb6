// Server-Sent Events framing (telemetry/parsers/base.py): the reader, a printer, and what
// truncation can do.  Lines break wherever `str.splitlines` breaks them, and the end of the
// text dispatches a pending event.

module Sse {
  import opened Common

  datatype SseEvent = SseEvent(name: Option<string>, data: string)

  // ----- Lines ------------------------------------------------------------------------

  predicate Break(c: char) {
    c in {'\n', '\r', '\U{000B}', '\U{000C}', '\U{001C}', '\U{001D}', '\U{001E}', '\U{0085}', '\U{2028}', '\U{2029}'}
  }

  /** By code point. */
  lemma BreakExactly(c: char)
    ensures Break(c) <==> 10 <= c as int <= 13 || 28 <= c as int <= 30 || c as int in {133, 8232, 8233}
  {
  }

  /** How many characters the break at the start of the text takes. */
  function BreakWidth(t: string): (w: nat)
    requires t != ""
    ensures 1 <= w <= |t|
  {
    if t[0] == '\r' && |t| > 1 && t[1] == '\n' then 2 else 1
  }

  function Onto(c: char, lines: seq<string>): seq<string> {
    if lines == [] then [[c]] else [[c] + lines[0]] + lines[1..]
  }

  /** The lines of a text, without their breaks; text after the last break is a line too. */
  function SplitLines(t: string): seq<string> {
    if t == "" then []
    else if Break(t[0]) then [""] + SplitLines(t[BreakWidth(t)..])
    else Onto(t[0], SplitLines(t[1..]))
  }

  // ----- The reader --------------------------------------------------------------------

  function StripReturns(line: string): string {
    if line != "" && line[|line| - 1] == '\r' then StripReturns(line[..|line| - 1]) else line
  }

  /** The field name: everything before the first colon. */
  function FieldName(line: string): string {
    if line == "" || line[0] == ':' then "" else [line[0]] + FieldName(line[1..])
  }

  /** The field value: everything after the first colon, less one leading space. */
  function FieldValue(line: string): string {
    var n := |FieldName(line)|;
    var value := if n < |line| then line[n + 1..] else "";
    if value != "" && value[0] == ' ' then value[1..] else value
  }

  /** The first colon splits a line, one space after it is dropped, and a line without one is all name. */
  lemma FieldExactly(line: string, at: nat)
    requires at <= |line| && ':' !in line[..at] && (at < |line| ==> line[at] == ':')
    ensures FieldName(line) == line[..at]
    ensures FieldValue(line) == if at == |line| then ""
                                else if at + 1 < |line| && line[at + 1] == ' ' then line[at + 2..] else line[at + 1..]
  {
    NameBeforeColon(line, at);
  }

  lemma {:induction false} NameBeforeColon(line: string, at: nat)
    requires at <= |line| && ':' !in line[..at] && (at < |line| ==> line[at] == ':')
    ensures FieldName(line) == line[..at]
  {
    if at > 0 {
      assert line[..at] == [line[0]] + line[1..][..at - 1];
      NameBeforeColon(line[1..], at - 1);
    }
  }

  function Join(lines: seq<string>): string {
    if lines == [] then "" else if |lines| == 1 then lines[0] else lines[0] + "\n" + Join(lines[1..])
  }

  datatype Reader = Reader(name: Option<string>, data: seq<string>, out: seq<SseEvent>)

  const START := Reader(None, [], [])

  function Flush(r: Reader): Reader {
    Reader(None, [], r.out + if r.data != [] then [SseEvent(r.name, Join(r.data))] else [])
  }

  function Feed(r: Reader, rawLine: string): Reader {
    var line := StripReturns(rawLine);
    if line == "" then Flush(r)
    else if line[0] == ':' then r
    else if FieldName(line) == "event" then r.(name := Some(FieldValue(line)))
    else if FieldName(line) == "data" then r.(data := r.data + [FieldValue(line)])
    else r
  }

  function FeedAll(r: Reader, lines: seq<string>): Reader
    decreases |lines|
  {
    if lines == [] then r else FeedAll(Feed(r, lines[0]), lines[1..])
  }

  function Events(text: string): seq<SseEvent> {
    Flush(FeedAll(START, SplitLines(text))).out
  }

  /** The reader as it is written: a loop over the lines with two local variables. */
  method IterSseEvents(text: string) returns (events: seq<SseEvent>)
    ensures events == Events(text)
  {
    var eventName: Option<string> := None;
    var dataLines: seq<string> := [];
    events := [];
    var lines := SplitLines(text);
    var i := 0;
    while i < |lines|
      invariant i <= |lines|
      invariant FeedAll(Reader(eventName, dataLines, events), lines[i..]) == FeedAll(START, lines)
    {
      assert lines[i..][0] == lines[i] && lines[i..][1..] == lines[i + 1..] && events + [] == events;
      var line := StripReturns(lines[i]);
      i := i + 1;
      if line == "" {
        if dataLines != [] {
          events := events + [SseEvent(eventName, Join(dataLines))];
        }
        eventName, dataLines := None, [];
        continue;
      }
      if line[0] == ':' {
        continue;
      }
      if FieldName(line) == "event" {
        eventName := Some(FieldValue(line));
      } else if FieldName(line) == "data" {
        dataLines := dataLines + [FieldValue(line)];
      }
    }
    if dataLines != [] {
      events := events + [SseEvent(eventName, Join(dataLines))];
    }
  }

  // ----- Folding facts --------------------------------------------------------------------

  lemma {:induction false} FeedAllSplits(r: Reader, a: seq<string>, b: seq<string>)
    ensures FeedAll(r, a + b) == FeedAll(FeedAll(r, a), b)
    decreases |a|
  {
    if a == [] {
      assert a + b == b;
    } else {
      assert (a + b)[1..] == a[1..] + b;
      FeedAllSplits(Feed(r, a[0]), a[1..], b);
    }
  }

  /** Events already dispatched are never taken back. */
  lemma {:induction false} OutputGrows(r: Reader, lines: seq<string>)
    ensures r.out <= FeedAll(r, lines).out
    decreases |lines|
  {
    if lines != [] {
      OutputGrows(Feed(r, lines[0]), lines[1..]);
    }
  }

  function Prepend(out: seq<SseEvent>, r: Reader): Reader {
    r.(out := out + r.out)
  }

  /** What was already dispatched does not influence what follows. */
  lemma {:induction false} OutputIsPassive(out: seq<SseEvent>, r: Reader, lines: seq<string>)
    ensures FeedAll(Prepend(out, r), lines) == Prepend(out, FeedAll(r, lines))
    decreases |lines|
  {
    if lines != [] {
      FeedIsPassive(out, r, lines[0]);
      OutputIsPassive(out, Feed(r, lines[0]), lines[1..]);
    }
  }

  lemma FeedIsPassive(out: seq<SseEvent>, r: Reader, line: string)
    ensures Feed(Prepend(out, r), line) == Prepend(out, Feed(r, line))
    ensures Flush(Prepend(out, r)) == Prepend(out, Flush(r))
  {
    var more := if r.data != [] then [SseEvent(r.name, Join(r.data))] else [];
    assert (out + r.out) + more == out + (r.out + more);
  }

  // ----- Truncation --------------------------------------------------------------------------

  /** The lines of a prefix: whole lines of the text, then at most one non-empty cut line. */
  ghost predicate LinesOfPrefix(whole: seq<string>, some: seq<string>, k: nat) {
    && k <= |whole| && k <= |some| <= k + 1
    && some[..k] == whole[..k]
    && (|some| == k + 1 ==> k < |whole| && some[k] != "" && some[k] <= whole[k])
  }

  lemma ConsLinesOfPrefix(line: string, whole: seq<string>, some: seq<string>, k: nat)
    requires LinesOfPrefix(whole, some, k)
    ensures LinesOfPrefix([line] + whole, [line] + some, k + 1)
  {
    assert ([line] + whole)[..k + 1] == [line] + whole[..k];
    assert ([line] + some)[..k + 1] == [line] + some[..k];
  }

  lemma OntoLinesOfPrefix(c: char, whole: seq<string>, some: seq<string>, k: nat)
    requires LinesOfPrefix(whole, some, k)
    ensures LinesOfPrefix(Onto(c, whole), Onto(c, some), k)
  {
    if k > 0 {
      assert some[0] == some[..k][0] == whole[..k][0] == whole[0];
      assert some[1..][..k - 1] == some[..k][1..] == whole[..k][1..] == whole[1..][..k - 1];
      assert Onto(c, some)[..k] == [[c] + some[0]] + some[1..][..k - 1];
      assert Onto(c, whole)[..k] == [[c] + whole[0]] + whole[1..][..k - 1];
    }
  }

  lemma {:induction false} CutLines(t: string, n: nat) returns (k: nat)
    requires n <= |t|
    ensures LinesOfPrefix(SplitLines(t), SplitLines(t[..n]), k)
    decreases |t|
  {
    var p := t[..n];
    if n == 0 {
      k := 0;
    } else if Break(t[0]) {
      var w := BreakWidth(t);
      if n < w {
        assert p[1..] == "" && SplitLines(p) == [""] + SplitLines("");
        assert [""] + SplitLines(t[w..]) == SplitLines(t);
        k := 1;
      } else {
        k := CutLines(t[w..], n - w);
        assert p[w..] == t[w..][..n - w];
        ConsLinesOfPrefix("", SplitLines(t[w..]), SplitLines(p[w..]), k);
        k := k + 1;
      }
    } else {
      k := CutLines(t[1..], n - 1);
      assert p[1..] == t[1..][..n - 1];
      OntoLinesOfPrefix(t[0], SplitLines(t[1..]), SplitLines(p[1..]), k);
    }
  }

  lemma PartialLineDispatchesNothing(r: Reader, line: string)
    requires line != "" && Clean(line)
    ensures Feed(r, line).out == r.out
  {
    assert line[|line| - 1] in line;
  }

  /** Every character of a line is a non-break character. */
  lemma {:induction false} LinesHaveNoBreaks(t: string)
    ensures forall line :: line in SplitLines(t) ==> Clean(line)
    decreases |t|
  {
    if t != "" {
      LinesHaveNoBreaks(if Break(t[0]) then t[BreakWidth(t)..] else t[1..]);
      if !Break(t[0]) {
        OntoIsClean(t[0], SplitLines(t[1..]));
      }
    }
  }

  lemma OntoIsClean(c: char, lines: seq<string>)
    requires !Break(c) && forall line :: line in lines ==> Clean(line)
    ensures forall line :: line in Onto(c, lines) ==> Clean(line)
  {
    if lines != [] {
      assert lines[0] in lines && forall line :: line in lines[1..] ==> line in lines;
    }
  }

  /**
   * Truncation safety: cutting an event stream anywhere loses a tail of its events and
   * leaves at most one further event, the pending one.
   */
  lemma TruncationSafety(t: string, n: nat) returns (m: nat)
    requires n <= |t|
    ensures m <= |Events(t)| && m <= |Events(t[..n])| <= m + 1
    ensures Events(t[..n])[..m] == Events(t)[..m]
  {
    var k := CutLines(t, n);
    var whole, some := SplitLines(t), SplitLines(t[..n]);
    var r := FeedAll(START, whole[..k]);
    m := |r.out|;
    FeedAllSplits(START, whole[..k], whole[k..]);
    assert whole == whole[..k] + whole[k..];
    OutputGrows(r, whole[k..]);
    FeedAllSplits(START, some[..k], some[k..]);
    assert some == some[..k] + some[k..];
    if |some| == k + 1 {
      assert some[k..] == [some[k]];
      LinesHaveNoBreaks(t[..n]);
      assert some[k] in some;
      PartialLineDispatchesNothing(r, some[k]);
    } else {
      assert some[k..] == [];
    }
  }

  // ----- Printing ---------------------------------------------------------------------------

  /** A line terminator: CRLF, or any single break character. */
  predicate Terminator(eol: string) {
    eol == "\r\n" || (|eol| == 1 && Break(eol[0]))
  }

  /** Text that may follow a terminator without being taken for part of it: only a bare CR minds. */
  predicate Follows(eol: string, rest: string) {
    eol == "\r" && rest != "" ==> rest[0] != '\n'
  }

  predicate Clean(line: string) {
    forall c :: c in line ==> !Break(c)
  }

  /** Data cut at line feeds. */
  function Cut(data: string): (lines: seq<string>)
    ensures lines != []
  {
    if data == "" then [""]
    else if data[0] == '\n' then [""] + Cut(data[1..])
    else var rest := Cut(data[1..]); [[data[0]] + rest[0]] + rest[1..]
  }

  predicate Printable(e: SseEvent) {
    && (e.name.Some? ==> Clean(e.name.value))
    && (forall c :: c in e.data && c != '\n' ==> !Break(c))
  }

  function DataLines(lines: seq<string>): seq<string> {
    if lines == [] then [] else ["data: " + lines[0]] + DataLines(lines[1..])
  }

  /** The lines of one event: its name if it has one, its data, and the blank line that dispatches it. */
  function EventLines(e: SseEvent): seq<string> {
    (if e.name.Some? then ["event: " + e.name.value] else []) + DataLines(Cut(e.data)) + [""]
  }

  function AllLines(es: seq<SseEvent>): seq<string> {
    if es == [] then [] else EventLines(es[0]) + AllLines(es[1..])
  }

  function PrintLines(eol: string, lines: seq<string>): string {
    if lines == [] then "" else lines[0] + eol + PrintLines(eol, lines[1..])
  }

  function Print(eol: string, es: seq<SseEvent>): string {
    PrintLines(eol, AllLines(es))
  }

  lemma {:induction false} OneLine(eol: string, line: string, rest: string)
    requires Terminator(eol) && Clean(line) && Follows(eol, rest)
    ensures SplitLines(line + eol + rest) == [line] + SplitLines(rest)
    decreases |line|
  {
    var t := line + eol + rest;
    if line == "" {
      assert t == eol + rest;
      BlankLine(eol, rest);
    } else {
      assert line[0] in line && t[0] == line[0];
      assert t[1..] == line[1..] + eol + rest;
      OneLine(eol, line[1..], rest);
      assert [line[0]] + line[1..] == line;
    }
  }

  lemma BlankLine(eol: string, rest: string)
    requires Terminator(eol) && Follows(eol, rest)
    ensures SplitLines(eol + rest) == [""] + SplitLines(rest)
  {
    var t := eol + rest;
    assert t[0] == eol[0];
    assert eol == "\r\n" ==> t[1] == '\n';
    assert t[|eol|..] == rest;
  }

  lemma Uncons(lines: seq<string>, more: seq<string>)
    requires lines != []
    ensures [lines[0]] + (lines[1..] + more) == lines + more
  {
  }

  lemma Regroup(a: string, b: string, c: string, d: string)
    ensures (a + b + c) + d == a + b + (c + d)
  {
  }

  /** Printed lines never start with a line feed left over from a bare CR. */
  lemma PrintedLinesFollow(eol: string, lines: seq<string>, rest: string)
    requires Terminator(eol) && Follows(eol, rest) && forall l :: l in lines ==> Clean(l)
    ensures Follows(eol, PrintLines(eol, lines) + rest)
  {
    if lines == [] {
      assert PrintLines(eol, lines) + rest == rest;
    } else {
      assert lines[0] in lines;
      var t := PrintLines(eol, lines) + rest;
      assert t[0] == if lines[0] == "" then eol[0] else lines[0][0];
      assert lines[0] != "" ==> lines[0][0] in lines[0];
    }
  }

  lemma {:induction false} PrintedLinesSplit(eol: string, lines: seq<string>, rest: string)
    requires Terminator(eol) && Follows(eol, rest) && forall l :: l in lines ==> Clean(l)
    ensures SplitLines(PrintLines(eol, lines) + rest) == lines + SplitLines(rest)
    decreases |lines|
  {
    if lines == [] {
      assert PrintLines(eol, lines) + rest == rest;
      assert lines + SplitLines(rest) == SplitLines(rest);
    } else {
      var more := PrintLines(eol, lines[1..]) + rest;
      PrintedLinesFollow(eol, lines[1..], rest);
      PrintedLinesSplit(eol, lines[1..], rest);
      OneLine(eol, lines[0], more);
      Regroup(lines[0], eol, PrintLines(eol, lines[1..]), rest);
      Uncons(lines, SplitLines(rest));
    }
  }

  lemma {:induction false} JoinCut(data: string)
    ensures Join(Cut(data)) == data
  {
    if data != "" {
      JoinCut(data[1..]);
    }
  }

  lemma {:induction false} CutIsClean(data: string)
    requires forall c :: c in data && c != '\n' ==> !Break(c)
    ensures forall l :: l in Cut(data) ==> Clean(l)
  {
    if data != "" {
      assert forall c :: c in data[1..] ==> c in data;
      CutIsClean(data[1..]);
      assert data[0] in data;
      var rest := Cut(data[1..]);
      assert rest[0] in rest;
      assert forall l :: l in rest[1..] ==> l in rest;
    }
  }

  lemma {:induction false} NameOfField(name: string, more: string)
    requires ':' !in name
    ensures FieldName(name + (":" + more)) == name
  {
    if name != "" {
      assert (name + (":" + more))[1..] == name[1..] + (":" + more);
      NameOfField(name[1..], more);
    }
  }

  lemma ValueOfField(name: string, more: string)
    requires ':' !in name
    ensures var line := name + (":" + more);
      FieldName(line) == name && FieldValue(line) == if more != "" && more[0] == ' ' then more[1..] else more
  {
    NameOfField(name, more);
    assert (name + (":" + more))[|name| + 1..] == more;
  }

  lemma CutKeepsNoReturn(line: string, p: string)
    requires Clean(line) && p != "" && p <= line
    ensures StripReturns(p) == p
  {
    assert p[|p| - 1] == line[|p| - 1];
    assert line[|p| - 1] in line;
  }

  lemma FieldOfLine(name: string, value: string)
    requires name in {"event", "data"} && Clean(value)
    ensures var line := name + ": " + value;
      Clean(line) && StripReturns(line) == line && FieldName(line) == name && FieldValue(line) == value
  {
    var line := name + ": " + value;
    assert line == name + (":" + (" " + value));
    NameIsClean(name);
    LabelledIsClean(name, value);
    ValueOfField(name, " " + value);
    assert (" " + value)[1..] == value;
    CutKeepsNoReturn(line, line);
  }

  lemma NameIsClean(name: string)
    requires name in {"event", "data"}
    ensures Clean(name) && ':' !in name
  {
  }

  lemma LabelledIsClean(name: string, value: string)
    requires Clean(name) && Clean(value)
    ensures Clean(name + ": " + value)
  {
    forall c | c in name + ": " + value ensures !Break(c) {
      assert c in name || c in ": " || c in value;
    }
  }

  lemma EventFeedsName(r: Reader, name: string)
    requires Clean(name)
    ensures Feed(r, "event: " + name) == r.(name := Some(name))
  {
    FieldOfLine("event", name);
    assert "event" + ": " + name == "event: " + name;
  }

  lemma DataFeedsLine(r: Reader, line: string)
    requires Clean(line)
    ensures Feed(r, "data: " + line) == r.(data := r.data + [line])
  {
    FieldOfLine("data", line);
    assert "data" + ": " + line == "data: " + line;
  }

  lemma {:induction false} DataLinesFeed(r: Reader, lines: seq<string>)
    requires forall l :: l in lines ==> Clean(l)
    ensures FeedAll(r, DataLines(lines)) == r.(data := r.data + lines)
    decreases |lines|
  {
    if lines == [] {
      assert r.data + lines == r.data;
    } else {
      DataFeedsLine(r, lines[0]);
      DataLinesFeed(r.(data := r.data + [lines[0]]), lines[1..]);
      assert (r.data + [lines[0]]) + lines[1..] == r.data + lines;
    }
  }

  /** Reading the lines of one event dispatches it and leaves the reader clean. */
  lemma EventLinesFeed(out: seq<SseEvent>, e: SseEvent)
    requires Printable(e)
    ensures FeedAll(Reader(None, [], out), EventLines(e)) == Reader(None, [], out + [e])
  {
    var head := if e.name.Some? then ["event: " + e.name.value] else [];
    var r := Reader(None, [], out);
    FeedAllSplits(r, head + DataLines(Cut(e.data)), [""]);
    FeedAllSplits(r, head, DataLines(Cut(e.data)));
    if e.name.Some? {
      EventFeedsName(r, e.name.value);
    }
    assert FeedAll(r, head) == r.(name := e.name);
    CutIsClean(e.data);
    DataLinesFeed(r.(name := e.name), Cut(e.data));
    assert [] + Cut(e.data) == Cut(e.data);
    JoinCut(e.data);
  }

  lemma {:induction false} AllLinesFeed(out: seq<SseEvent>, es: seq<SseEvent>)
    requires forall e :: e in es ==> Printable(e)
    ensures FeedAll(Reader(None, [], out), AllLines(es)) == Reader(None, [], out + es)
    decreases |es|
  {
    if es == [] {
      assert out + es == out;
    } else {
      FeedAllSplits(Reader(None, [], out), EventLines(es[0]), AllLines(es[1..]));
      EventLinesFeed(out, es[0]);
      AllLinesFeed(out + [es[0]], es[1..]);
      assert (out + [es[0]]) + es[1..] == out + es;
    }
  }

  lemma {:induction false} DataLinesAreClean(lines: seq<string>)
    requires forall l :: l in lines ==> Clean(l)
    ensures forall l :: l in DataLines(lines) ==> Clean(l)
  {
    if lines != [] {
      FieldOfLine("data", lines[0]);
      assert "data" + ": " + lines[0] == "data: " + lines[0];
      DataLinesAreClean(lines[1..]);
    }
  }

  lemma EventLinesAreClean(e: SseEvent)
    requires Printable(e)
    ensures forall l :: l in EventLines(e) ==> Clean(l)
  {
    CutIsClean(e.data);
    DataLinesAreClean(Cut(e.data));
    if e.name.Some? {
      FieldOfLine("event", e.name.value);
      assert "event" + ": " + e.name.value == "event: " + e.name.value;
    }
  }

  lemma {:induction false} AllLinesAreClean(es: seq<SseEvent>)
    requires forall e :: e in es ==> Printable(e)
    ensures forall l :: l in AllLines(es) ==> Clean(l)
  {
    if es != [] {
      EventLinesAreClean(es[0]);
      AllLinesAreClean(es[1..]);
    }
  }

  /**
   * Round trip: reading back printed events gives the events, and whatever text follows
   * them is read as if it stood alone.
   */
  lemma PrintThenRead(eol: string, es: seq<SseEvent>, rest: string)
    requires Terminator(eol) && Follows(eol, rest) && forall e :: e in es ==> Printable(e)
    ensures Events(Print(eol, es) + rest) == es + Events(rest)
    ensures Events(Print(eol, es)) == es
  {
    AllLinesAreClean(es);
    PrintedLinesSplit(eol, AllLines(es), rest);
    PrintedLinesSplit(eol, AllLines(es), "");
    assert Print(eol, es) + "" == Print(eol, es);
    AllLinesFeed([], es);
    assert [] + es == es && AllLines(es) + [] == AllLines(es);
    FeedAllSplits(START, AllLines(es), SplitLines(rest));
    OutputIsPassive(es, START, SplitLines(rest));
    FeedIsPassive(es, FeedAll(START, SplitLines(rest)), "");
    assert Prepend(es, START) == Reader(None, [], es);
  }

  /** Comments and keep-alives change nothing, wherever a line may start. */
  lemma CommentsAreInvisible(eol: string, before: seq<string>, comment: string, rest: string)
    requires Terminator(eol) && Follows(eol, rest) && (forall l :: l in before ==> Clean(l)) && Clean(comment)
    ensures Events(PrintLines(eol, before) + (":" + comment + eol + rest)) == Events(PrintLines(eol, before) + rest)
  {
    var line := ":" + comment;
    PrintedLinesSplit(eol, before, line + eol + rest);
    PrintedLinesSplit(eol, before, rest);
    OneLine(eol, line, rest);
    FeedAllSplits(START, before, [line] + SplitLines(rest));
    FeedAllSplits(START, before, SplitLines(rest));
    var r := FeedAll(START, before);
    assert line[|line| - 1] in line;
    assert Feed(r, line) == r;
    assert ([line] + SplitLines(rest))[1..] == SplitLines(rest);
  }

  // ----- Truncating printed events ------------------------------------------------------------

  /** Some leading lines, the last of them possibly cut. */
  ghost predicate Shorter(some: seq<string>, lines: seq<string>)
    decreases |some|
  {
    some == [] || (lines != [] &&
      if |some| == 1 then some[0] <= lines[0] else some[0] == lines[0] && Shorter(some[1..], lines[1..]))
  }

  lemma {:induction false} ShorterJoinsToPrefix(some: seq<string>, lines: seq<string>)
    requires some != [] && Shorter(some, lines)
    ensures Join(some) <= Join(lines)
    decreases |some|
  {
    if |some| == 1 {
      assert Join(lines)[..|lines[0]|] == lines[0];
    } else {
      ShorterJoinsToPrefix(some[1..], lines[1..]);
      assert |lines| > 1;
      PrefixUnderCommonHead(some[0] + "\n", Join(some[1..]), Join(lines[1..]));
    }
  }

  lemma PrefixUnderCommonHead(head: string, a: string, b: string)
    requires a <= b
    ensures head + a <= head + b
  {
  }

  lemma {:induction false} NameWithoutColon(p: string)
    requires ':' !in p
    ensures FieldName(p) == p
  {
    if p != "" {
      assert p[0] in p;
      NameWithoutColon(p[1..]);
    }
  }

  lemma CutName(p: string)
    requires p < "data"
    ensures FieldName(p) == p && p != "data" && p != "event" && ':' !in p
  {
    assert forall c :: c in p ==> c in "data";
    NameWithoutColon(p);
  }

  /** A field name followed by a cut of `: value`. */
  lemma CutTail(name: string, value: string, q: string)
    requires ':' !in name && q <= ": " + value
    ensures FieldName(name + q) == name && FieldValue(name + q) == (if |q| <= 2 then "" else q[2..])
    ensures |q| > 2 ==> q[2..] <= value
  {
    if q == "" {
      assert name + q == name;
      NameWithoutColon(name);
    } else {
      CutValue(value, q);
      ValueOfField(name, q[1..]);
    }
  }

  lemma CutValue(value: string, q: string)
    requires q != "" && q <= ": " + value
    ensures q == ":" + q[1..]
    ensures |q| > 1 ==> q[1] == ' '
    ensures |q| > 1 ==> q[1..][1..] == q[2..] && q[2..] <= value
  {
    var line := ": " + value;
    assert line[2..] == value;
    if |q| > 1 {
      assert q[1] == line[1];
      assert q[2..] == line[2..][..|q| - 2];
    }
  }

  /** A cut `data:` line adds nothing, or a prefix of its value. */
  lemma CutDataLine(r: Reader, value: string, p: string) returns (got: seq<string>)
    requires Clean(value) && p != "" && p <= "data: " + value
    ensures Feed(r, p) == r.(data := r.data + got) && Shorter(got, [value])
  {
    FieldOfLine("data", value);
    var line := "data" + ": " + value;
    assert line == "data: " + value;
    CutKeepsNoReturn(line, p);
    assert line[..4] == "data";
    if |p| < 4 {
      got := [];
      assert p == "data"[..|p|];
      CutName(p);
      assert r.data + got == r.data;
    } else {
      var q := p[4..];
      assert p == line[..4] + q;
      assert q <= ": " + value by {
        assert line == "data" + (": " + value);
        assert line[4..] == ": " + value;
        assert q == line[4..][..|q|];
      }
      assert "data" + q == p;
      CutTail("data", value, q);
      got := [if |q| <= 2 then "" else q[2..]];
    }
  }

  lemma {:induction false} CutDataLines(r: Reader, values: seq<string>, some: seq<string>, k: nat)
      returns (got: seq<string>)
    requires forall v :: v in values ==> Clean(v)
    requires LinesOfPrefix(DataLines(values), some, k)
    ensures FeedAll(r, some) == r.(data := r.data + got) && Shorter(got, values)
    decreases |values|
  {
    if some == [] {
      got := [];
      assert r.data + got == r.data;
    } else if k == 0 {
      assert some == [some[0]] && some[1..] == [];
      got := CutDataLine(r, values[0], some[0]);
    } else {
      var whole := DataLines(values);
      assert some[0] == some[..k][0] && whole[0] == whole[..k][0];
      DataFeedsLine(r, values[0]);
      TailOfPrefix(whole, some, k);
      var more := CutDataLines(r.(data := r.data + [values[0]]), values[1..], some[1..], k - 1);
      got := [values[0]] + more;
      assert (r.data + [values[0]]) + more == r.data + got;
      assert got[1..] == more && got[0] <= values[0];
    }
  }

  lemma TailOfPrefix(whole: seq<string>, some: seq<string>, k: nat)
    requires LinesOfPrefix(whole, some, k) && k > 0
    ensures LinesOfPrefix(whole[1..], some[1..], k - 1)
  {
    assert some[1..][..k - 1] == some[..k][1..] && whole[1..][..k - 1] == whole[..k][1..];
  }

  lemma DropFromPrefix(head: seq<string>, whole: seq<string>, some: seq<string>, k: nat)
    requires LinesOfPrefix(head + whole, some, k) && k >= |head|
    ensures some == head + some[|head|..] && LinesOfPrefix(whole, some[|head|..], k - |head|)
  {
    assert some[..|head|] == some[..k][..|head|] == (head + whole)[..k][..|head|] == head;
    var rest := some[|head|..];
    assert rest[..k - |head|] == some[..k][|head|..];
    assert whole[..k - |head|] == (head + whole)[..k][|head|..];
  }

  /** What a cut leaves of an event: nothing, or an event of the same name with less data. */
  ghost predicate Remnant(tail: seq<SseEvent>, e: SseEvent) {
    tail == [] || (|tail| == 1 && tail[0].name == e.name && tail[0].data <= e.data)
  }

  lemma CutDataPart(e: SseEvent, some: seq<string>, k: nat) returns (tail: seq<SseEvent>)
    requires Printable(e)
    requires LinesOfPrefix(DataLines(Cut(e.data)) + [""], some, k) && k < |DataLines(Cut(e.data)) + [""]|
    ensures Flush(FeedAll(START.(name := e.name), some)).out == tail && Remnant(tail, e)
  {
    var values := Cut(e.data);
    var whole := DataLines(values);
    CutIsClean(e.data);
    assert (whole + [""])[..k] == whole[..k];
    assert LinesOfPrefix(whole, some, k);
    var got := CutDataLines(START.(name := e.name), values, some, k);
    assert [] + got == got;
    JoinCut(e.data);
    if got != [] {
      ShorterJoinsToPrefix(got, values);
    }
    tail := if got == [] then [] else [SseEvent(e.name, Join(got))];
  }

  /** A cut `event:` line can only set the name. */
  lemma CutEventLine(name: string, p: string)
    requires Clean(name) && p != "" && p <= "event: " + name
    ensures Feed(START, p).data == [] && Feed(START, p).out == []
  {
    FieldOfLine("event", name);
    assert "event" + ": " + name == "event: " + name;
    CutKeepsNoReturn("event: " + name, p);
    assert p[0] == ("event: " + name)[0] == 'e';
    assert FieldName(p)[0] == 'e';
  }

  lemma CutOneEvent(e: SseEvent, some: seq<string>, k: nat) returns (tail: seq<SseEvent>)
    requires Printable(e) && LinesOfPrefix(EventLines(e), some, k) && k < |EventLines(e)|
    ensures Flush(FeedAll(START, some)).out == tail && Remnant(tail, e)
  {
    var rest := DataLines(Cut(e.data)) + [""];
    if e.name.None? {
      assert EventLines(e) == rest;
      tail := CutDataPart(e, some, k);
    } else {
      var line := "event: " + e.name.value;
      assert EventLines(e) == [line] + rest;
      if k == 0 {
        tail := [];
        if some != [] {
          assert some == [some[0]] && some[1..] == [];
          CutEventLine(e.name.value, some[0]);
        }
      } else {
        DropFromPrefix([line], rest, some, k);
        EventFeedsName(START, e.name.value);
        tail := CutDataPart(e, some[1..], k - 1);
      }
    }
  }

  /** The cut falls in the first event. */
  lemma CutInEvent(es: seq<SseEvent>, some: seq<string>, k: nat) returns (tail: seq<SseEvent>)
    requires es != [] && Printable(es[0]) && LinesOfPrefix(AllLines(es), some, k) && k < |EventLines(es[0])|
    ensures Flush(FeedAll(START, some)).out == tail && Remnant(tail, es[0])
  {
    LinesOfFirst(EventLines(es[0]), AllLines(es[1..]), some, k);
    tail := CutOneEvent(es[0], some, k);
  }

  /** The cut falls after the first event. */
  lemma CutAfterEvent(es: seq<SseEvent>, some: seq<string>, k: nat) returns (more: seq<string>, j: nat)
    requires es != [] && Printable(es[0]) && LinesOfPrefix(AllLines(es), some, k) && k >= |EventLines(es[0])|
    ensures LinesOfPrefix(AllLines(es[1..]), more, j)
    ensures Flush(FeedAll(START, some)).out == [es[0]] + Flush(FeedAll(START, more)).out
  {
    var head := EventLines(es[0]);
    DropFromPrefix(head, AllLines(es[1..]), some, k);
    more, j := some[|head|..], k - |head|;
    OneEventThenLines(es[0], more);
  }

  lemma {:induction false} CutAllEvents(es: seq<SseEvent>, some: seq<string>, k: nat)
      returns (m: nat, tail: seq<SseEvent>)
    requires (forall e :: e in es ==> Printable(e)) && LinesOfPrefix(AllLines(es), some, k)
    ensures m <= |es| && Flush(FeedAll(START, some)).out == es[..m] + tail
    ensures if m < |es| then Remnant(tail, es[m]) else tail == []
    decreases |es|
  {
    if es == [] {
      m, tail := 0, [];
    } else if k < |EventLines(es[0])| {
      m := 0;
      tail := CutInEvent(es, some, k);
      assert es[..0] + tail == tail;
    } else {
      var more, j := CutAfterEvent(es, some, k);
      m, tail := CutAllEvents(es[1..], more, j);
      OneMore(es, m, tail);
      m := m + 1;
    }
  }

  lemma OneMore(es: seq<SseEvent>, m: nat, tail: seq<SseEvent>)
    requires es != [] && m <= |es| - 1
    ensures [es[0]] + (es[1..][..m] + tail) == es[..m + 1] + tail
  {
  }

  lemma OneEventThenLines(e: SseEvent, more: seq<string>)
    requires Printable(e)
    ensures Flush(FeedAll(START, EventLines(e) + more)).out == [e] + Flush(FeedAll(START, more)).out
  {
    FeedAllSplits(START, EventLines(e), more);
    EventLinesFeed([], e);
    assert [] + [e] == [e] && Prepend([e], START) == Reader(None, [], [e]);
    OutputIsPassive([e], START, more);
    FeedIsPassive([e], FeedAll(START, more), "");
  }

  lemma LinesOfFirst(head: seq<string>, rest: seq<string>, some: seq<string>, k: nat)
    requires LinesOfPrefix(head + rest, some, k) && k < |head|
    ensures LinesOfPrefix(head, some, k)
  {
    assert (head + rest)[..k] == head[..k];
  }

  /**
   * Cutting a printed stream anywhere leaves a prefix of its events and then, at most, what
   * was read of the next one: the same name and a prefix of its data.
   */
  lemma CutPrintedStream(eol: string, es: seq<SseEvent>, n: nat) returns (m: nat, tail: seq<SseEvent>)
    requires Terminator(eol) && forall e :: e in es ==> Printable(e)
    requires n <= |Print(eol, es)|
    ensures m <= |es| && Events(Print(eol, es)[..n]) == es[..m] + tail
    ensures if m < |es| then Remnant(tail, es[m]) else tail == []
  {
    AllLinesAreClean(es);
    PrintedLinesSplit(eol, AllLines(es), "");
    assert Print(eol, es) + "" == Print(eol, es) && AllLines(es) + [] == AllLines(es);
    var k := CutLines(Print(eol, es), n);
    m, tail := CutAllEvents(es, SplitLines(Print(eol, es)[..n]), k);
  }

  // ----- Texts that are no event stream ----------------------------------------------------------

  predicate DataLine(line: string) {
    line != "" && line[0] != ':' && FieldName(line) == "data"
  }

  ghost predicate NoDataLine(text: string) {
    forall line :: line in SplitLines(text) ==> !DataLine(line)
  }

  lemma {:induction false} NoDataLinesNoEvents(r: Reader, lines: seq<string>)
    requires r.data == [] && r.out == []
    requires forall line :: line in lines ==> Clean(line) && !DataLine(line)
    ensures FeedAll(r, lines).data == [] && FeedAll(r, lines).out == []
    decreases |lines|
  {
    if lines != [] {
      var line := lines[0];
      assert line in lines && forall l :: l in lines[1..] ==> l in lines;
      if line != "" {
        CutKeepsNoReturn(line, line);
      }
      NoDataLinesNoEvents(Feed(r, line), lines[1..]);
    }
  }

  /** Without a data line nothing is ever dispatched. */
  lemma NoEvents(text: string)
    requires NoDataLine(text)
    ensures Events(text) == []
  {
    LinesHaveNoBreaks(text);
    NoDataLinesNoEvents(START, SplitLines(text));
  }

  lemma {:induction false} CleanIsOneLine(line: string)
    requires Clean(line) && line != ""
    ensures SplitLines(line) == [line]
  {
    assert line[0] in line;
    if |line| > 1 {
      CleanIsOneLine(line[1..]);
      assert [line[0]] + line[1..] == line;
    } else {
      assert line[1..] == "" && [line[0]] == line;
    }
  }
}
