/** The interaction recorder (agent/recorder/recorder.go), which appends records to files and starts a new
    file every `maxLines` lines, and the reader of those files (agent/recorder/replay.go). */
module Recorder {
  import opened Common
  import opened Text

  datatype Record = Record(timestamp: int, jobId: string, direction: string, kind: string, event: string)

  /** JSON and the sanitizer as functions. A record does not encode when its event is not valid JSON; what
      is written is the event in compact form. */
  datatype Codec = Codec(encode: Record -> Option<string>, decode: string -> Option<Record>, compact: string -> string,
                         sanitize: Record -> Record, header: string, isHeader: string -> bool)

  predicate OneLine(s: string) {
    '\n' !in s && DropCR(s) == s
  }

  function Compacted(c: Codec, r: Record): Record {
    r.(event := c.compact(r.event))
  }

  ghost predicate Faithful(c: Codec) {
    && OneLine(c.header) && c.isHeader(c.header)
    && forall r :: c.encode(r).Some? ==>
                  OneLine(c.encode(r).value) && c.decode(c.encode(r).value) == Some(Compacted(c, r))
  }

  // ---------------------------------------------------------------- the text of a file

  ghost predicate AllEncode(c: Codec, rs: seq<Record>) {
    forall i :: 0 <= i < |rs| ==> c.encode(rs[i]).Some?
  }

  function LineOf(c: Codec, r: Record): string {
    match c.encode(r)
    case Some(line) => line
    case None => ""
  }

  function Lines(c: Codec, rs: seq<Record>): (r: seq<string>)
    ensures |r| == |rs|
  {
    seq(|rs|, i requires 0 <= i < |rs| => LineOf(c, rs[i]))
  }

  /** A header line, then one line per record. */
  function FileText(c: Codec, rs: seq<Record>): string {
    Terminate([c.header] + Lines(c, rs))
  }

  lemma FileTextSnoc(c: Codec, rs: seq<Record>, r: Record)
    requires c.encode(r).Some?
    ensures FileText(c, rs + [r]) == FileText(c, rs) + (c.encode(r).value + "\n")
  {
    var line := c.encode(r).value;
    assert Lines(c, rs + [r]) == Lines(c, rs) + [line];
    assert [c.header] + (Lines(c, rs) + [line]) == ([c.header] + Lines(c, rs)) + [line];
    TerminateAppend([c.header] + Lines(c, rs), [line]);
    TerminateOne(line);
  }

  lemma TerminateOne(line: string)
    ensures Terminate([line]) == line + "\n"
  {
    assert [line][1..] == [];
    assert line + "\n" + "" == line + "\n";
  }

  lemma FileTextEmpty(c: Codec)
    ensures FileText(c, []) == c.header + "\n"
  {
    assert [c.header] + Lines(c, []) == [c.header];
    TerminateOne(c.header);
  }

  // ---------------------------------------------------------------- reading a file

  function DecodeAll(c: Codec, lines: seq<string>): Option<seq<Record>> {
    if lines == [] then Some([])
    else match DecodeAll(c, lines[..|lines| - 1])
      case None => None
      case Some(rs) =>
        match c.decode(lines[|lines| - 1])
        case None => None
        case Some(r) => Some(rs + [r])
  }

  lemma {:induction false} UndecodablePrefix(c: Codec, lines: seq<string>, i: nat)
    requires i <= |lines| && DecodeAll(c, lines[..i]).None?
    ensures DecodeAll(c, lines).None?
  {
    if i == |lines| {
      assert lines[..i] == lines;
    } else {
      assert lines[..|lines| - 1][..i] == lines[..i];
      UndecodablePrefix(c, lines[..|lines| - 1], i);
    }
  }

  /** None where the reader reports an error: no line at all, a bad header or a bad record. */
  function ReadText(c: Codec, text: string): Option<seq<Record>> {
    var lines := ScanLines(text);
    if lines == [] || !c.isHeader(lines[0]) then None else DecodeAll(c, lines[1..])
  }

  /** The first line is a header and every other line is one record. */
  ghost predicate ReadsAs(c: Codec, lines: seq<string>, rs: seq<Record>) {
    && lines != [] && c.isHeader(lines[0]) && |rs| == |lines| - 1
    && forall i :: 0 <= i < |rs| ==> c.decode(lines[i + 1]) == Some(rs[i])
  }

  /** No line at all, a first line that is no header, or a line after it that is no record. */
  ghost predicate Unreadable(c: Codec, lines: seq<string>) {
    lines == [] || !c.isHeader(lines[0]) || exists i :: 1 <= i < |lines| && c.decode(lines[i]).None?
  }

  lemma {:induction false} DecodesLineByLine(c: Codec, lines: seq<string>)
    ensures match DecodeAll(c, lines)
      case Some(rs) => |rs| == |lines| && forall i :: 0 <= i < |rs| ==> c.decode(lines[i]) == Some(rs[i])
      case None => exists i :: 0 <= i < |lines| && c.decode(lines[i]).None?
  {
    if lines != [] {
      var n := |lines| - 1;
      DecodesLineByLine(c, lines[..n]);
      assert forall i :: 0 <= i < n ==> lines[..n][i] == lines[i];
    }
  }

  lemma ReadsOrFails(c: Codec, text: string)
    ensures match ReadText(c, text)
      case Some(rs) => ReadsAs(c, ScanLines(text), rs)
      case None => Unreadable(c, ScanLines(text))
  {
    var lines := ScanLines(text);
    if lines != [] {
      DecodesLineByLine(c, lines[1..]);
      assert forall i :: 0 <= i < |lines| - 1 ==> lines[1..][i] == lines[i + 1];
    }
  }

  method ReadAll(c: Codec, text: string) returns (r: Option<seq<Record>>)
    ensures r == ReadText(c, text)
    ensures r.Some? ==> ReadsAs(c, ScanLines(text), r.value)
    ensures r.None? ==> Unreadable(c, ScanLines(text))
  {
    ReadsOrFails(c, text);
    var scanner := ScanLines(text);
    if scanner == [] || !c.isHeader(scanner[0]) {
      return None;
    }
    var rest := scanner[1..];
    var records: seq<Record> := [];
    for i := 0 to |rest|
      invariant DecodeAll(c, rest[..i]) == Some(records)
    {
      assert rest[..i + 1][..i] == rest[..i];
      var rec := c.decode(rest[i]);
      if rec.None? {
        UndecodablePrefix(c, rest, i + 1);
        return None;
      }
      records := records + [rec.value];
    }
    assert rest[..|rest|] == rest;
    return Some(records);
  }

  function CompactedAll(c: Codec, rs: seq<Record>): seq<Record> {
    seq(|rs|, i requires 0 <= i < |rs| => Compacted(c, rs[i]))
  }

  lemma {:induction false} DecodeLines(c: Codec, rs: seq<Record>)
    requires Faithful(c) && AllEncode(c, rs)
    ensures DecodeAll(c, Lines(c, rs)) == Some(CompactedAll(c, rs))
  {
    if rs == [] {
      assert Lines(c, rs) == [] && CompactedAll(c, rs) == [];
    } else {
      var n := |rs| - 1;
      DecodeLines(c, rs[..n]);
      assert Lines(c, rs)[..n] == Lines(c, rs[..n]);
      assert c.decode(Lines(c, rs)[n]) == Some(Compacted(c, rs[n]));
      assert CompactedAll(c, rs) == CompactedAll(c, rs[..n]) + [Compacted(c, rs[n])];
    }
  }

  lemma LinesAreLines(c: Codec, rs: seq<Record>)
    requires Faithful(c) && AllEncode(c, rs)
    ensures ScanLines(FileText(c, rs)) == [c.header] + Lines(c, rs)
  {
    var lines := [c.header] + Lines(c, rs);
    forall i | 0 <= i < |lines| ensures OneLine(lines[i]) {
      if i > 0 {
        assert lines[i] == c.encode(rs[i - 1]).value;
      }
    }
    ScanTerminated(lines);
  }

  /** Reading a file gives back its records, in compact form. */
  lemma FileReadsBack(c: Codec, rs: seq<Record>)
    requires Faithful(c) && AllEncode(c, rs)
    ensures ReadText(c, FileText(c, rs)) == Some(CompactedAll(c, rs))
  {
    LinesAreLines(c, rs);
    assert ([c.header] + Lines(c, rs))[1..] == Lines(c, rs);
    DecodeLines(c, rs);
  }

  // ---------------------------------------------------------------- reading all files

  function Flatten<T>(ss: seq<seq<T>>): seq<T> {
    if ss == [] then [] else Flatten(ss[..|ss| - 1]) + ss[|ss| - 1]
  }

  lemma FlattenSnoc<T>(ss: seq<seq<T>>, s: seq<T>)
    ensures Flatten(ss + [s]) == Flatten(ss) + s
  {
    assert (ss + [s])[..|ss|] == ss;
  }

  function ReadFiles(c: Codec, files: seq<string>): Option<seq<Record>> {
    if files == [] then Some([])
    else match (ReadFiles(c, files[..|files| - 1]), ReadText(c, files[|files| - 1]))
      case (Some(rs), Some(more)) => Some(rs + more)
      case _ => None
  }

  /** File `i` holds the header and the records of `logs[i]`, no more than the limit allows. */
  ghost predicate Holds(c: Codec, maxLines: int, logs: seq<seq<Record>>, i: nat, text: string)
    requires i < |logs|
  {
    text == FileText(c, logs[i]) && AllEncode(c, logs[i]) && 1 + |logs[i]| <= Limit(maxLines)
  }

  /** A file takes its header and one record however small the limit is. */
  function Limit(maxLines: int): int {
    if maxLines < 2 then 2 else maxLines
  }

  ghost predicate FilesHold(c: Codec, maxLines: int, logs: seq<seq<Record>>, files: seq<string>) {
    |files| == |logs| && forall i :: 0 <= i < |logs| ==> Holds(c, maxLines, logs, i, files[i])
  }

  /** Every file but the last is full. */
  ghost predicate AllButLastFull(maxLines: int, logs: seq<seq<Record>>) {
    forall i :: 0 <= i < |logs| - 1 ==> maxLines <= 1 + |logs[i]|
  }

  lemma CompactedAppend(c: Codec, a: seq<Record>, b: seq<Record>)
    ensures CompactedAll(c, a + b) == CompactedAll(c, a) + CompactedAll(c, b)
  {
  }

  lemma FilesHoldPrefix(c: Codec, maxLines: int, logs: seq<seq<Record>>, files: seq<string>, n: nat)
    requires FilesHold(c, maxLines, logs, files) && n <= |logs|
    ensures FilesHold(c, maxLines, logs[..n], files[..n])
  {
    forall i | 0 <= i < n ensures Holds(c, maxLines, logs[..n], i, files[..n][i]) {
      assert Holds(c, maxLines, logs, i, files[i]);
    }
  }

  /** Reading the files in rotation order gives back the recorded sequence. */
  lemma {:induction false} FilesReadBack(c: Codec, maxLines: int, logs: seq<seq<Record>>, files: seq<string>)
    requires Faithful(c) && FilesHold(c, maxLines, logs, files)
    ensures ReadFiles(c, files) == Some(CompactedAll(c, Flatten(logs)))
  {
    if logs == [] {
      assert CompactedAll(c, []) == [];
    } else {
      var n := |logs| - 1;
      FilesHoldPrefix(c, maxLines, logs, files, n);
      FilesReadBack(c, maxLines, logs[..n], files[..n]);
      assert Holds(c, maxLines, logs, n, files[n]);
      FileReadsBack(c, logs[n]);
      CompactedAppend(c, Flatten(logs[..n]), logs[n]);
    }
  }

  /** Every file starts with the header, has no other, and keeps to the line limit. */
  lemma FileShape(c: Codec, maxLines: int, logs: seq<seq<Record>>, files: seq<string>, i: nat)
    requires Faithful(c) && FilesHold(c, maxLines, logs, files) && i < |files|
    ensures ScanLines(files[i]) == [c.header] + Lines(c, logs[i])
    ensures 1 <= |ScanLines(files[i])| <= Limit(maxLines)
  {
    assert Holds(c, maxLines, logs, i, files[i]);
    LinesAreLines(c, logs[i]);
  }

  // ---------------------------------------------------------------- the recorder

  const DefaultMaxLines := 100_000

  class Recorder {
    const codec: Codec
    const maxLines: int
    /** The files on disk in rotation order; the last one is being written while `isOpen`. */
    var files: seq<string>
    var isOpen: bool
    var buffer: string
    var lineCount: int
    ghost var logs: seq<seq<Record>>

    /** What the files will be once the buffer is flushed. */
    ghost function Contents(): seq<string>
      reads this
    {
      if files == [] then [] else files[..|files| - 1] + [files[|files| - 1] + buffer]
    }

    ghost predicate Valid()
      reads this
    {
      && maxLines > 0 && files != [] && Faithful(codec)
      && FilesHold(codec, maxLines, logs, Contents()) && AllButLastFull(maxLines, logs)
      && (isOpen ==> lineCount == 1 + |logs[|logs| - 1]|)
      && (!isOpen ==> buffer == "")
    }

    /** Every record accepted so far. */
    ghost function Accepted(): seq<Record>
      reads this
    {
      Flatten(logs)
    }

    constructor (c: Codec, limit: int)
      requires Faithful(c)
      ensures Valid() && isOpen && Accepted() == []
      ensures codec == c && maxLines == if limit <= 0 then 100_000 else limit
    {
      codec := c;
      maxLines := if limit <= 0 then DefaultMaxLines else limit;
      files := [""];
      isOpen := true;
      buffer := c.header + "\n";
      lineCount := 1;
      logs := [[]];
      FileTextEmpty(c);
      assert "" + (c.header + "\n") == c.header + "\n";
      assert Flatten([[]]) == Flatten<Record>([]) + [];
    }

    /** The buffered writer may pass any part of what it holds on to the file. */
    method Write(data: string, spill: nat)
      requires files != [] && isOpen
      modifies this`files, this`buffer
      ensures |files| == |old(files)|
      ensures Contents() == old(Contents())[..|files| - 1] + [old(Contents())[|files| - 1] + data]
    {
      var all := buffer + data;
      var n := if spill <= |all| then spill else |all|;
      var last := files[|files| - 1];
      assert all == all[..n] + all[n..];
      assert (last + all[..n]) + all[n..] == (last + buffer) + data;
      files := files[..|files| - 1] + [last + all[..n]];
      buffer := all[n..];
    }

    method Flush()
      requires Valid()
      modifies this`files, this`buffer
      ensures Valid() && buffer == "" && Contents() == old(Contents()) && files == Contents()
    {
      var last := files[|files| - 1];
      files := files[..|files| - 1] + [last + buffer];
      buffer := "";
      assert last + old(buffer) + "" == last + old(buffer);
      assert Contents() == old(Contents());
      assert files == Contents();
    }

    /** The file being written is complete and closed for good. */
    method CloseFile()
      requires Valid() && isOpen
      modifies this
      ensures Valid() && !isOpen && buffer == "" && files == Contents() == old(Contents()) && logs == old(logs)
    {
      Flush();
      ghost var flushed := Contents();
      isOpen := false;
      assert Contents() == flushed;
    }

    /** A new file with its header in the buffer. */
    method OpenFile()
      requires Valid() && !isOpen && files == Contents() && maxLines <= 1 + |logs[|logs| - 1]|
      modifies this
      ensures Valid() && isOpen && lineCount == 1 && logs == old(logs) + [[]]
    {
      RotateKeeps(codec, maxLines, logs, files);
      ghost var now := files + [codec.header + "\n"];
      files, isOpen, buffer := files + [""], true, codec.header + "\n";
      logs, lineCount := logs + [[]], 1;
      assert "" + buffer == buffer;
      assert Contents() == now;
    }

    /** The recorder stays closed when the old file does not close or the new one does not open. */
    method Rotate(closeFails: bool, openFails: bool) returns (ok: bool)
      requires Valid() && isOpen && lineCount >= maxLines
      modifies this
      ensures Valid() && Accepted() == old(Accepted())
      ensures ok == (!closeFails && !openFails) == isOpen
      ensures ok ==> lineCount == 1
    {
      CloseFile();
      if closeFails || openFails {
        return false;
      }
      FlattenSnoc(logs, []);
      OpenFile();
      return true;
    }

    /** A record that encodes goes at the end of the file being written. */
    method Put(ghost rec: Record, data: string, spill: nat)
      requires Valid() && isOpen && (lineCount < maxLines || lineCount == 1)
      requires codec.encode(rec) == Some(data)
      modifies this
      ensures Valid() && isOpen && Accepted() == old(Accepted()) + [rec]
    {
      ghost var n, before := |logs| - 1, Contents();
      AppendKeeps(codec, maxLines, logs, before, rec);
      AppendKeepsFull(maxLines, logs, rec);
      Write(data + "\n", spill);
      lineCount := lineCount + 1;
      logs := logs[..n] + [logs[n] + [rec]];
    }

    /** Record */
    method Append(rec: Record, closeFails: bool, openFails: bool, spill: nat) returns (ok: bool)
      requires Valid()
      modifies this
      ensures Valid()
      ensures ok <==> old(isOpen) && (old(lineCount) >= maxLines ==> !closeFails && !openFails)
                      && codec.encode(codec.sanitize(rec)).Some?
      ensures Accepted() == old(Accepted()) + if ok then [codec.sanitize(rec)] else []
    {
      if !isOpen {
        return false;
      }
      if lineCount >= maxLines {
        ok := Rotate(closeFails, openFails);
        if !ok {
          return;
        }
      }
      var clean := codec.sanitize(rec);
      var data := codec.encode(clean);
      if data.None? {
        return false;
      }
      Put(clean, data.value, spill);
      return true;
    }

    method Close()
      requires Valid()
      modifies this
      ensures Valid() && !isOpen && Accepted() == old(Accepted()) && files == Contents() == old(Contents())
    {
      Flush();
      isOpen := false;
    }

    /** A new file is started only when the one before it is full: each file but the last takes up the line limit,
        exactly if that leaves room for a record. */
    lemma OnlyTheLastFileHasRoom(i: nat)
      requires Valid() && buffer == "" && i < |files| - 1
      ensures maxLines <= |ScanLines(files[i])| <= if maxLines < 2 then 2 else maxLines
    {
      assert files[|files| - 1] + buffer == files[|files| - 1];
      assert Contents() == files;
      FileShape(codec, maxLines, logs, files, i);
    }

    /** Once the recorder is flushed or closed, the files give back exactly the accepted records. */
    lemma EverythingReadsBack()
      requires Valid() && buffer == ""
      ensures ReadFiles(codec, files) == Some(CompactedAll(codec, Accepted()))
    {
      assert files[|files| - 1] + buffer == files[|files| - 1];
      assert Contents() == files;
      FilesReadBack(codec, maxLines, logs, files);
    }
  }

  lemma RotateKeeps(c: Codec, maxLines: int, logs: seq<seq<Record>>, files: seq<string>)
    requires FilesHold(c, maxLines, logs, files)
    ensures FilesHold(c, maxLines, logs + [[]], files + [c.header + "\n"])
  {
    FileTextEmpty(c);
    var logs', files' := logs + [[]], files + [c.header + "\n"];
    forall i | 0 <= i < |logs'| ensures Holds(c, maxLines, logs', i, files'[i]) {
      if i < |logs| {
        assert Holds(c, maxLines, logs, i, files[i]);
      }
    }
  }

  lemma AppendKeepsFull(maxLines: int, logs: seq<seq<Record>>, r: Record)
    requires AllButLastFull(maxLines, logs) && logs != []
    ensures var n := |logs| - 1; AllButLastFull(maxLines, logs[..n] + [logs[n] + [r]])
  {
  }

  lemma AppendKeeps(c: Codec, maxLines: int, logs: seq<seq<Record>>, files: seq<string>, r: Record)
    requires FilesHold(c, maxLines, logs, files) && logs != [] && c.encode(r).Some?
    requires |logs[|logs| - 1]| + 1 < Limit(maxLines)
    ensures var n := |logs| - 1;
            && FilesHold(c, maxLines, logs[..n] + [logs[n] + [r]], files[..n] + [files[n] + (c.encode(r).value + "\n")])
            && Flatten(logs[..n] + [logs[n] + [r]]) == Flatten(logs) + [r]
  {
    var n := |logs| - 1;
    var logs', files' := logs[..n] + [logs[n] + [r]], files[..n] + [files[n] + (c.encode(r).value + "\n")];
    forall i | 0 <= i < |logs'| ensures Holds(c, maxLines, logs', i, files'[i]) {
      assert Holds(c, maxLines, logs, i, files[i]);
      if i == n {
        FileTextSnoc(c, logs[n], r);
      }
    }
    FlattenSnoc(logs[..n], logs[n] + [r]);
    assert Flatten(logs[..n]) + (logs[n] + [r]) == Flatten(logs) + [r];
  }
}
