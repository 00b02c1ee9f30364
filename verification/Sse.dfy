/** The Server-Sent Events parser of the API agents (agent/apiagent/stream.go), against the event-stream
    format of section 9.2.6 "Interpreting an event stream" of the WHATWG HTML standard. */
module Sse {
  import opened Common
  import opened Text

  datatype SseEvent = SseEvent(name: string, data: string)

  /** What the scan loop carries: the name and data lines of the event being read, and the events sent. */
  datatype Scan = Scan(name: string, dataLines: seq<string>, sent: seq<SseEvent>)

  const Empty := Scan("", [], [])

  /** One line.  A field other than `event` and `data`, and any other line, is ignored. */
  function ScanLine(s: Scan, line: string): Scan {
    if line == "" then
      if s.dataLines != [] then Scan("", [], s.sent + [SseEvent(s.name, Join(s.dataLines, '\n'))]) else s
    else if HasPrefix(line, ":") then s
    else if HasPrefix(line, "event:") then s.(name := TrimSpace(line[6..]))
    else if HasPrefix(line, "data:") then s.(dataLines := s.dataLines + [TrimPrefix(line[5..], " ")])
    else s
  }

  function ScanAll(s: Scan, lines: seq<string>): Scan {
    if lines == [] then s else ScanLine(ScanAll(s, lines[..|lines| - 1]), lines[|lines| - 1])
  }

  /** An event still open at the end of the stream is sent as well. */
  function Flush(s: Scan): seq<SseEvent> {
    if s.dataLines != [] then s.sent + [SseEvent(s.name, Join(s.dataLines, '\n'))] else s.sent
  }

  function Parse(content: string): seq<SseEvent> {
    Flush(ScanAll(Empty, ScanLines(content)))
  }

  lemma ScanSnoc(s: Scan, lines: seq<string>, line: string)
    ensures ScanAll(s, lines + [line]) == ScanLine(ScanAll(s, lines), line)
  {
    assert (lines + [line])[..|lines|] == lines;
  }

  lemma {:induction false} ScanAppend(s: Scan, a: seq<string>, b: seq<string>)
    ensures ScanAll(s, a + b) == ScanAll(ScanAll(s, a), b)
  {
    if b == [] {
      assert a + b == a;
    } else {
      assert (a + b)[..|a + b| - 1] == a + b[..|b| - 1];
      ScanAppend(s, a, b[..|b| - 1]);
    }
  }

  /** One line of the loop. */
  method TakeLine(line: string, s: Scan) returns (t: Scan)
    ensures t == ScanLine(s, line)
  {
    var name, dataLines, sent := s.name, s.dataLines, s.sent;
    if line == "" {
      if |dataLines| > 0 {
        sent := sent + [SseEvent(name, Join(dataLines, '\n'))];
        name, dataLines := "", [];
      }
    } else if HasPrefix(line, ":") {
    } else if HasPrefix(line, "event:") {
      name := TrimSpace(TrimPrefix(line, "event:"));
    } else if HasPrefix(line, "data:") {
      var data := TrimPrefix(line, "data:");
      data := TrimPrefix(data, " ");
      dataLines := dataLines + [data];
    }
    t := Scan(name, dataLines, sent);
  }

  method ParseSSE(content: string) returns (sent: seq<SseEvent>)
    ensures sent == Parse(content)
  {
    var s := Empty;
    var lines := ScanLines(content);
    for i := 0 to |lines|
      invariant s == ScanAll(Empty, lines[..i])
    {
      ScanSnoc(Empty, lines[..i], lines[i]);
      Border(lines, i);
      s := TakeLine(lines[i], s);
    }
    assert lines[..|lines|] == lines;
    sent := s.sent;
    if |s.dataLines| > 0 {
      sent := sent + [SseEvent(s.name, Join(s.dataLines, '\n'))];
    }
  }

  // ---------------------------------------------------------------- the canonical encoding

  function DataLine(part: string): string {
    "data: " + part
  }

  function DataLines(parts: seq<string>): seq<string> {
    if parts == [] then [] else DataLines(parts[..|parts| - 1]) + [DataLine(parts[|parts| - 1])]
  }

  /** The lines of one event: its name unless that is empty, a data line per line of data, a blank line. */
  function EventLines(e: SseEvent): seq<string> {
    (if e.name == "" then [] else ["event: " + e.name]) + DataLines(Split(e.data, '\n')) + [""]
  }

  function StreamLines(events: seq<SseEvent>): seq<string> {
    if events == [] then [] else StreamLines(events[..|events| - 1]) + EventLines(events[|events| - 1])
  }

  function Encode(events: seq<SseEvent>): string {
    Terminate(StreamLines(events))
  }

  // ---------------------------------------------------------------- parsing inverts encoding

  predicate WellFormedName(name: string) {
    Trimmed(name) && '\n' !in name
  }

  /** The data as the scanner delivers it: one carriage return less at the end of each line. */
  function Stripped(e: SseEvent): SseEvent {
    e.(data := Join(DropCRs(Split(e.data, '\n')), '\n'))
  }

  function AllStripped(events: seq<SseEvent>): seq<SseEvent> {
    if events == [] then [] else AllStripped(events[..|events| - 1]) + [Stripped(events[|events| - 1])]
  }

  lemma DropCRsSnoc(lines: seq<string>, line: string)
    ensures DropCRs(lines + [line]) == DropCRs(lines) + [DropCR(line)]
  {
  }

  /** The data lines as the scanner delivers them, and the data they carry. */
  function ReceivedLines(parts: seq<string>): seq<string> {
    if parts == [] then [] else ReceivedLines(parts[..|parts| - 1]) + [DropCR(DataLine(parts[|parts| - 1]))]
  }

  function ReceivedData(parts: seq<string>): seq<string> {
    if parts == [] then [] else ReceivedData(parts[..|parts| - 1]) + [DropCR(parts[|parts| - 1])]
  }

  lemma {:induction false} ReceivedLinesAreDropped(parts: seq<string>)
    ensures ReceivedLines(parts) == DropCRs(DataLines(parts))
  {
    if parts != [] {
      ReceivedLinesAreDropped(parts[..|parts| - 1]);
      DropCRsSnoc(DataLines(parts[..|parts| - 1]), DataLine(parts[|parts| - 1]));
    }
  }

  lemma {:induction false} ReceivedDataIsDropped(parts: seq<string>)
    ensures ReceivedData(parts) == DropCRs(parts)
  {
    if parts != [] {
      ReceivedDataIsDropped(parts[..|parts| - 1]);
      DropCRsSnoc(parts[..|parts| - 1], parts[|parts| - 1]);
      assert parts == parts[..|parts| - 1] + [parts[|parts| - 1]];
    }
  }

  lemma {:induction false} ScanDataLines(s: Scan, parts: seq<string>)
    ensures ScanAll(s, ReceivedLines(parts)) == s.(dataLines := s.dataLines + ReceivedData(parts))
  {
    if parts == [] {
      assert s.dataLines + [] == s.dataLines;
    } else {
      var init, last := parts[..|parts| - 1], parts[|parts| - 1];
      ScanDataLines(s, init);
      ScanOneMore(s, ReceivedLines(init), last, s.(dataLines := s.dataLines + ReceivedData(init)));
      assert s.dataLines + ReceivedData(init) + [DropCR(last)] == s.dataLines + ReceivedData(parts);
    }
  }

  lemma ScanOneMore(s: Scan, lines: seq<string>, part: string, mid: Scan)
    requires ScanAll(s, lines) == mid
    ensures ScanAll(s, lines + [DropCR(DataLine(part))]) == mid.(dataLines := mid.dataLines + [DropCR(part)])
  {
    ScanSnoc(s, lines, DropCR(DataLine(part)));
    ScanDataLine(mid, part);
  }

  lemma ScanDataLine(s: Scan, part: string)
    ensures ScanLine(s, DropCR(DataLine(part))) == s.(dataLines := s.dataLines + [DropCR(part)])
  {
    var line := "data: " + DropCR(part);
    assert DropCR(DataLine(part)) == line;
    var rest := " " + DropCR(part);
    assert line[0] == 'd' && line[..5] == "data:" && line[5..] == rest;
    assert rest[..1] == " " && rest[1..] == DropCR(part);
  }

  lemma ScanNameLine(s: Scan, name: string)
    requires name != "" && Trimmed(name)
    ensures ScanLine(s, DropCR("event: " + name)) == s.(name := name)
  {
    var line := "event: " + name;
    assert DropCR(line) == line;
    assert line[0] == 'e' && line[..6] == "event:" && line[6..] == " " + name;
    assert (" " + name)[1..] == name;
    assert TrimLeft(" " + name) == TrimLeft(name);
    TrimmedIsFixed(name);
  }

  lemma DropCRsAppend(a: seq<string>, b: seq<string>)
    ensures DropCRs(a + b) == DropCRs(a) + DropCRs(b)
  {
  }

  /** The lines of one event, read from a clean state, send that event and leave a clean state. */
  lemma ScanEvent(sent: seq<SseEvent>, e: SseEvent)
    requires WellFormedName(e.name)
    ensures ScanAll(Scan("", [], sent), DropCRs(EventLines(e))) == Scan("", [], sent + [Stripped(e)])
  {
    var start := Scan("", [], sent);
    var parts := Split(e.data, '\n');
    var head := if e.name == "" then [] else ["event: " + e.name];
    var named := start.(name := e.name);
    assert ScanAll(start, DropCRs(head)) == named by {
      if e.name != "" {
        ScanNameLine(start, e.name);
        assert DropCRs(head) == [] + [DropCR("event: " + e.name)];
        ScanSnoc(start, [], DropCR("event: " + e.name));
      }
    }
    DropCRsAppend(head, DataLines(parts));
    ScanAppend(start, DropCRs(head), DropCRs(DataLines(parts)));
    ScanDataLines(named, parts);
    ReceivedLinesAreDropped(parts);
    ReceivedDataIsDropped(parts);
    assert [] + DropCRs(parts) == DropCRs(parts);
    var body := head + DataLines(parts);
    DropCRsAppend(body, [""]);
    assert DropCRs([""]) == [""];
    ScanSnoc(start, DropCRs(body), "");
  }

  predicate WellFormedNames(events: seq<SseEvent>) {
    forall i :: 0 <= i < |events| ==> WellFormedName(events[i].name)
  }

  lemma {:induction false} ScanStream(events: seq<SseEvent>)
    requires WellFormedNames(events)
    ensures ScanAll(Empty, DropCRs(StreamLines(events))) == Scan("", [], AllStripped(events))
  {
    if events != [] {
      var init, last := events[..|events| - 1], events[|events| - 1];
      ScanStream(init);
      DropCRsAppend(StreamLines(init), EventLines(last));
      ScanAppend(Empty, DropCRs(StreamLines(init)), DropCRs(EventLines(last)));
      ScanEvent(AllStripped(init), last);
    }
  }

  lemma {:induction false} DataLinesNewlineFree(parts: seq<string>)
    requires NewlineFree(parts)
    ensures NewlineFree(DataLines(parts))
  {
    if parts != [] {
      DataLinesNewlineFree(parts[..|parts| - 1]);
      assert '\n' !in DataLine(parts[|parts| - 1]);
    }
  }

  lemma EventLinesNewlineFree(e: SseEvent)
    requires WellFormedName(e.name)
    ensures NewlineFree(EventLines(e))
  {
    SplitParts(e.data, '\n');
    DataLinesNewlineFree(Split(e.data, '\n'));
    assert '\n' !in "event: " + e.name;
    WithoutCharAppend(["event: " + e.name], DataLines(Split(e.data, '\n')), '\n');
    WithoutCharAppend(["event: " + e.name] + DataLines(Split(e.data, '\n')), [""], '\n');
    WithoutCharAppend(DataLines(Split(e.data, '\n')), [""], '\n');
  }

  lemma {:induction false} StreamLinesNewlineFree(events: seq<SseEvent>)
    requires WellFormedNames(events)
    ensures NewlineFree(StreamLines(events))
  {
    if events != [] {
      StreamLinesNewlineFree(events[..|events| - 1]);
      EventLinesNewlineFree(events[|events| - 1]);
    }
  }

  /** Reading back an encoded stream gives every event, with its data as the scanner delivers it. */
  lemma ParseEncoded(events: seq<SseEvent>)
    requires WellFormedNames(events)
    ensures Parse(Encode(events)) == AllStripped(events)
  {
    StreamLinesNewlineFree(events);
    ScanTerminated(StreamLines(events));
    ScanStream(events);
  }

  // ---------------------------------------------------------------- exactly when it is the identity

  /** No line of the data ends in a carriage return. */
  predicate CleanData(data: string) {
    forall i :: 0 <= i < |Split(data, '\n')| ==> !EndsInCR(Split(data, '\n')[i])
  }

  predicate EndsInCR(line: string) {
    line != "" && line[|line| - 1] == '\r'
  }

  lemma EndsInCRExactly(line: string)
    ensures EndsInCR(line) <==> DropCR(line) != line
  {
  }

  lemma {:induction false} JoinLength(a: seq<string>, b: seq<string>)
    requires |a| == |b| && forall i :: 0 <= i < |a| ==> |a[i]| <= |b[i]|
    ensures |Join(a, '\n')| <= |Join(b, '\n')|
    ensures |Join(a, '\n')| == |Join(b, '\n')| ==> forall i :: 0 <= i < |a| ==> |a[i]| == |b[i]|
  {
    if |a| > 1 {
      JoinLength(a[1..], b[1..]);
      forall i | 0 <= i < |a|
        ensures |Join(a, '\n')| == |Join(b, '\n')| ==> |a[i]| == |b[i]|
      {
        if i > 0 {
          assert a[i] == a[1..][i - 1] && b[i] == b[1..][i - 1];
        }
      }
    }
  }

  lemma StrippedIsSame(e: SseEvent)
    ensures Stripped(e) == e <==> CleanData(e.data)
  {
    var parts := Split(e.data, '\n');
    var stripped := DropCRs(parts);
    JoinSplit(e.data, '\n');
    forall i | 0 <= i < |parts| ensures EndsInCR(parts[i]) <==> DropCR(parts[i]) != parts[i] {
      EndsInCRExactly(parts[i]);
    }
    if CleanData(e.data) {
      assert stripped == parts;
    }
    if Stripped(e) == e {
      JoinLength(stripped, parts);
      assert forall i :: 0 <= i < |parts| ==> |DropCR(parts[i])| == |stripped[i]| == |parts[i]|;
    }
  }

  predicate AllClean(events: seq<SseEvent>) {
    forall i :: 0 <= i < |events| ==> CleanData(events[i].data)
  }

  lemma AllCleanSnoc(events: seq<SseEvent>, e: SseEvent)
    ensures AllClean(events + [e]) <==> AllClean(events) && CleanData(e.data)
  {
    var all := events + [e];
    assert all[|events|] == e;
    if AllClean(all) {
      forall i | 0 <= i < |events| ensures CleanData(events[i].data) {
        assert all[i] == events[i];
      }
    }
  }

  lemma SameSnoc<T>(a: seq<T>, x: T, b: seq<T>, y: T)
    requires |a| == |b|
    ensures a + [x] == b + [y] <==> a == b && x == y
  {
    assert (a + [x])[..|a|] == a && (b + [y])[..|a|] == b;
    assert (a + [x])[|a|] == x && (b + [y])[|a|] == y;
  }

  lemma {:induction false} AllStrippedIsSame(events: seq<SseEvent>)
    ensures |AllStripped(events)| == |events|
    ensures AllStripped(events) == events <==> AllClean(events)
  {
    if events != [] {
      var init, last := events[..|events| - 1], events[|events| - 1];
      AllStrippedIsSame(init);
      StrippedIsSame(last);
      AllCleanSnoc(init, last);
      SameSnoc(AllStripped(init), Stripped(last), init, last);
      assert events == init + [last];
    }
  }

  lemma {:induction false} ParsedNamesAreWellFormed(lines: seq<string>)
    requires NewlineFree(lines)
    ensures WellFormedName(ScanAll(Empty, lines).name) && WellFormedNames(ScanAll(Empty, lines).sent)
  {
    if lines != [] {
      var last := lines[|lines| - 1];
      ParsedNamesAreWellFormed(lines[..|lines| - 1]);
      if HasPrefix(last, "event:") {
        TrimSpaceTrims(last[6..]);
      }
    }
  }

  /** Parsing inverts the canonical encoding if and only if every name is trimmed and free of newlines and
      no line of any event's data ends in a carriage return. */
  lemma ParseInvertsEncodeExactly(events: seq<SseEvent>)
    ensures Parse(Encode(events)) == events <==>
              WellFormedNames(events) && AllClean(events)
  {
    if WellFormedNames(events) {
      ParseEncoded(events);
      AllStrippedIsSame(events);
    } else {
      var lines := ScanLines(Encode(events));
      ScannedLinesAreNewlineFree(Encode(events));
      ParsedNamesAreWellFormed(lines);
      assert WellFormedNames(Parse(Encode(events)));
    }
  }

  // ---------------------------------------------------------------- other lines

  predicate StartsWith(line: string, c: string) {
    |c| <= |line| && line[..|c|] == c
  }

  /** A line that is not blank and is neither an event field nor a data field: a comment or another field. */
  predicate SaysNothing(line: string) {
    line != "" && !StartsWith(line, "event:") && !StartsWith(line, "data:")
  }

  lemma QuietLine(s: Scan, line: string)
    requires SaysNothing(line)
    ensures ScanLine(s, line) == s
  {
    PrefixStarts(line, "event:");
    PrefixStarts(line, "data:");
  }

  lemma PrefixStarts(line: string, c: string)
    ensures HasPrefix(line, c) <==> StartsWith(line, c)
  {
  }

  lemma QuietLinesAreIgnored(before: seq<string>, line: string, after: seq<string>)
    requires SaysNothing(line)
    ensures Flush(ScanAll(Empty, before + [line] + after)) == Flush(ScanAll(Empty, before + after))
  {
    ScanAppend(Empty, before + [line], after);
    ScanSnoc(Empty, before, line);
    QuietLine(ScanAll(Empty, before), line);
    ScanAppend(Empty, before, after);
  }

  /** A line that says nothing, inserted into the stream between any two lines, leaves the parsed events
      unchanged. */
  lemma OtherLinesAreIgnored(a: string, line: string, b: string)
    requires EndsAtLine(a) && '\n' !in line && SaysNothing(DropCR(line))
    ensures Parse(a + (line + ['\n'] + b)) == Parse(a + b)
  {
    var before, after := ScanLines(a), ScanLines(b);
    ScanLinesAppend(a, line + ['\n'] + b);
    ScanLinesAppend(a, b);
    ScanFirstLine(line, b);
    Regroup(before, [DropCR(line)], after);
    QuietLinesAreIgnored(before, DropCR(line), after);
  }

  /** Comments among them. */
  lemma CommentsAreIgnored(a: string, text: string, b: string)
    requires EndsAtLine(a) && '\n' !in text
    ensures Parse(a + ((":" + text) + ['\n'] + b)) == Parse(a + b)
  {
    var line := ":" + text;
    assert DropCR(line)[0] == ':' && "event:"[0] == 'e' && "data:"[0] == 'd';
    OtherLinesAreIgnored(a, line, b);
  }

  // ---------------------------------------------------------------- what the parser adds to the standard

  /** The lines of an event without the blank line that ends it. */
  function OpenLines(e: SseEvent): seq<string> {
    (if e.name == "" then [] else ["event: " + e.name]) + DataLines(Split(e.data, '\n'))
  }

  lemma FlushIsBlankLine(s: Scan)
    ensures Flush(ScanLine(s, "")) == Flush(s)
  {
  }

  /** Unlike the standard, which discards it, an event still open when the stream ends is sent: the blank line
      after the last event may be missing. */
  lemma OpenEventIsSent(events: seq<SseEvent>, e: SseEvent)
    requires WellFormedNames(events + [e])
    ensures Parse(Terminate(StreamLines(events) + OpenLines(e))) == Parse(Encode(events + [e]))
  {
    var all := StreamLines(events) + OpenLines(e);
    assert (events + [e])[..|events|] == events && (events + [e])[|events|] == e;
    assert StreamLines(events + [e]) == all + [""];
    StreamLinesNewlineFree(events + [e]);
    assert NewlineFree(all) by {
      assert forall i :: 0 <= i < |all| ==> all[i] == (all + [""])[i];
    }
    ScanTerminated(all);
    ScanTerminated(all + [""]);
    DropCRsSnoc(all, "");
    ScanSnoc(Empty, DropCRs(all), "");
    FlushIsBlankLine(ScanAll(Empty, DropCRs(all)));
  }

  lemma ScanFour(a: string, b: string, c: string, d: string)
    ensures ScanAll(Empty, [a] + [b] + [c] + [d]) == ScanLine(ScanLine(ScanLine(ScanLine(Empty, a), b), c), d)
  {
    ScanSnoc(Empty, [a] + [b] + [c], d);
    ScanSnoc(Empty, [a] + [b], c);
    ScanSnoc(Empty, [a], b);
    ScanSnoc(Empty, [], a);
    assert [] + [a] == [a];
  }

  lemma FourDropped(a: string, b: string, c: string, d: string)
    ensures DropCRs([a] + [b] + [c] + [d]) == [DropCR(a)] + [DropCR(b)] + [DropCR(c)] + [DropCR(d)]
  {
  }

  lemma NamedEvent(name: string, data: string)
    ensures ScanLine(Empty.(name := name), "") == Empty.(name := name)
    ensures ScanLine(Scan(name, [data], []), "") == Scan("", [], [SseEvent(name, data)])
  {
    assert Join([data], '\n') == data;
    assert [] + [SseEvent(name, data)] == [SseEvent(name, data)];
  }

  lemma ParseFour(a: string, b: string, c: string, d: string)
    requires '\n' !in a && '\n' !in b && '\n' !in c && '\n' !in d
    ensures Parse(Terminate([a] + [b] + [c] + [d])) ==
            Flush(ScanLine(ScanLine(ScanLine(ScanLine(Empty, DropCR(a)), DropCR(b)), DropCR(c)), DropCR(d)))
  {
    ScanTerminated([a] + [b] + [c] + [d]);
    FourDropped(a, b, c, d);
    ScanFour(DropCR(a), DropCR(b), DropCR(c), DropCR(d));
  }

  lemma NameThenData(name: string, data: string)
    requires name != "" && Trimmed(name) && !EndsInCR(data)
    ensures ScanLine(ScanLine(ScanLine(Empty, DropCR("event: " + name)), ""), DropCR(DataLine(data)))
         == Scan(name, [data], [])
  {
    ScanNameLine(Empty, name);
    NamedEvent(name, data);
    ScanDataLine(Empty.(name := name), data);
    EndsInCRExactly(data);
    assert [] + [data] == [data];
  }

  /** Unlike the standard, which forgets it, a name outlives a blank line that no data came before: it becomes the
      name of the next event that has none of its own. */
  lemma NameOutlivesBlankLines(name: string, data: string)
    requires WellFormedName(name) && name != "" && '\n' !in data && !EndsInCR(data)
    ensures Parse(Terminate(["event: " + name] + [""] + [DataLine(data)] + [""])) == [SseEvent(name, data)]
  {
    ParseFour("event: " + name, "", DataLine(data), "");
    NameThenData(name, data);
    NamedEvent(name, data);
  }

  /** The space after the colon of a data field may be missing. */
  lemma DataSpaceIsOptional(s: Scan, text: string)
    requires !StartsWith(text, " ")
    ensures ScanLine(s, "data:" + text) == s.(dataLines := s.dataLines + [text])
    ensures ScanLine(s, "data: " + text) == s.(dataLines := s.dataLines + [text])
  {
    FieldLine("data:", text, 'd');
    FieldLine("data:", " " + text, 'd');
    assert "data: " + text == "data:" + (" " + text) && (" " + text)[1..] == text;
    PrefixStarts(text, " ");
    PrefixStarts("data:" + text, "event:");
    PrefixStarts("data:" + (" " + text), "event:");
  }

  /** Space around a name does not matter. */
  lemma NameIsTrimmed(s: Scan, text: string)
    ensures ScanLine(s, "event:" + text) == s.(name := TrimSpace(text))
  {
    FieldLine("event:", text, 'e');
  }

  lemma FieldLine(field: string, text: string, first: char)
    requires field != "" && field[0] == first
    ensures HasPrefix(field + text, field) && (field + text)[|field|..] == text && (field + text)[0] == first
  {
  }
}
